/** The values that cross the boundary to the REST backend. A call is not
    performed here: its outcome (the value it resolved with, or what it
    rejected with) is an input of the operation that awaits it. */
module AsyncCalls {

  /** A value that may be `null` or `undefined`. */
  datatype Option<+T> = None | Some(value: T)

  /** What an awaited call rejected with: an `Error` instance, which always
      has a string `message`, or some other thrown value, whose `message`
      property may be missing. */
  datatype Thrown =
    | ErrorInstance(message: string)
    | OtherValue(messageProperty: Option<string>)

  datatype CallOutcome<+T> = Resolved(value: T) | Rejected(thrown: Thrown)

  /** `error instanceof Error ? error.message : fallback` */
  function InstanceMessage(t: Thrown, fallback: string): (m: string)
    ensures t.ErrorInstance? ==> m == t.message
    ensures t.OtherValue? ==> m == fallback
  {
    match t
    case ErrorInstance(m) => m
    case OtherValue(_) => fallback
  }

  /** `err.message || fallback`: an absent or empty message falls back. */
  function MessageOr(t: Thrown, fallback: string): (m: string)
    ensures fallback != "" ==> m != ""
    ensures m == fallback || (t.ErrorInstance? && m == t.message) || (t.OtherValue? && t.messageProperty == Some(m))
  {
    var message := match t
      case ErrorInstance(m) => Some(m)
      case OtherValue(p) => p;
    if message.Some? && message.value != "" then message.value else fallback
  }

  /** The two ways of reading a rejection agree except in two cases: an
      `Error` with an empty message (kept by `instanceof`, replaced by `||`)
      and a non-`Error` carrying a non-empty `message` (replaced by
      `instanceof`, kept by `||`). */
  lemma InstanceMessageVersusMessageOr(t: Thrown, fallback: string)
    ensures t.ErrorInstance? && t.message != "" ==> InstanceMessage(t, fallback) == MessageOr(t, fallback)
    ensures t.ErrorInstance? && t.message == "" ==> InstanceMessage(t, fallback) == "" && MessageOr(t, fallback) == fallback
    ensures t.OtherValue? && t.messageProperty.Some? && t.messageProperty.value != "" ==>
      InstanceMessage(t, fallback) == fallback && MessageOr(t, fallback) == t.messageProperty.value
    ensures t.OtherValue? && (t.messageProperty.None? || t.messageProperty.value == "") ==>
      InstanceMessage(t, fallback) == MessageOr(t, fallback) == fallback
  {
  }
}
