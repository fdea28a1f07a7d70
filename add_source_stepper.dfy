/** The progress bar above the add-data-source wizard
    (src/app/features/data-sources/add/add-data-source-stepper.component.ts). */
module AddSourceStepper {

  /** The `progress` getter over the `step` input: the width of the bar in
      percent. Step 1 is a third, step 2 two thirds, and any other value,
      including 0, 3 and anything above, a full bar. */
  function Progress(step: int): (percent: int)
    ensures percent == 33 || percent == 66 || percent == 100
    ensures percent == 33 <==> step == 1
    ensures percent == 66 <==> step == 2
  {
    if step == 1 then 33 else if step == 2 then 66 else 100
  }

  /** Over the wizard's steps 1, 2, 3 the bar never shrinks. */
  lemma ProgressMonotone(a: int, b: int)
    requires 1 <= a <= b <= 3
    ensures Progress(a) <= Progress(b)
  {
  }
}
