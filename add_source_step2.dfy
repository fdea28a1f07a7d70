/** Step 2 of the add-data-source wizard: the table, the field list (typed
    as comma-separated text), the sync frequency and the transformation
    rules (src/app/features/data-sources/add/add-data-source-step2.component.ts). */
module AddSourceStep2 {
  import opened JsStrings
  import opened JsArrays
  import opened AsyncCalls

  /** The payload of the `next` event. */
  datatype Step2Values = Step2Values(
    selectedDatabase: string,
    selectedTable: string,
    selectedFields: Option<seq<string>>,
    syncFrequency: string,
    transformationRules: string)

  /** A field name the printed form can carry without loss. */
  predicate IsPrintableField(field: string) {
    field != "" && IsTrimmed(field) && ',' !in field
  }

  /** `pieces.map(f => f.trim())` */
  function TrimAll(pieces: seq<string>): seq<string> {
    Map(pieces, Trim)
  }

  /** The setter's pipeline `val.split(',').map(f => f.trim()).filter(f => f)`. */
  function ParseFields(text: string): (fields: seq<string>)
    ensures forall i :: 0 <= i < |fields| ==> IsPrintableField(fields[i])
  {
    TrimmedPiecesCommaFree(text);
    Filter(TrimAll(Split(text, ',')), Truthy)
  }

  /** Trimming the comma-separated pieces leaves no comma in any of them. */
  lemma TrimmedPiecesCommaFree(text: string)
    ensures forall i :: 0 <= i < |TrimAll(Split(text, ','))| ==> ',' !in TrimAll(Split(text, ','))[i]
  {
    var pieces := Split(text, ',');
    SplitDropsSeparator(text, ',');
    forall i | 0 <= i < |pieces|
      ensures ',' !in TrimAll(pieces)[i]
    {
      TrimKeepsAbsent(pieces[i], ',');
    }
  }

  /** The getter: `''` when no list is bound, else the fields joined by `", "`. */
  function FieldsText(selectedFields: Option<seq<string>>): (text: string)
    ensures selectedFields.None? ==> text == ""
    ensures selectedFields.Some? ==>
      forall i :: 0 <= i < |selectedFields.value| ==> Includes(text, selectedFields.value[i])
  {
    match selectedFields
    case None => ""
    case Some(fields) =>
      JoinIncludesPieces(fields, ", ");
      Join(fields, ", ")
  }

  /** Trimming piecewise distributes over concatenation. */
  lemma TrimAllConcat(a: seq<string>, b: seq<string>)
    ensures TrimAll(a + b) == TrimAll(a) + TrimAll(b)
  {
    MapConcat(a, b, Trim);
  }

  /** Parsing distributes over a comma. */
  lemma ParseAroundComma(a: string, b: string)
    ensures ParseFields(a + [','] + b) == ParseFields(a) + ParseFields(b)
  {
    SplitAround(a, ',', b);
    TrimAllConcat(Split(a, ','), Split(b, ','));
    FilterConcat(TrimAll(Split(a, ',')), TrimAll(Split(b, ',')), Truthy);
  }

  /** A leading space only widens the first piece, which trims alike. */
  lemma TrimmedPiecesLeadingSpace(s: string)
    ensures TrimAll(Split([' '] + s, ',')) == TrimAll(Split(s, ','))
  {
    var rest := Split(s, ',');
    SplitConsOther(' ', s, ',');
    var pieces := Split([' '] + s, ',');
    TrimLeadingSpace(' ', rest[0]);
    forall i | 0 <= i < |pieces|
      ensures TrimAll(pieces)[i] == TrimAll(rest)[i]
    {
      if i > 0 {
        assert pieces[i] == rest[i];
      }
    }
  }

  /** Parsing ignores a leading space. */
  lemma ParseLeadingSpace(s: string)
    ensures ParseFields([' '] + s) == ParseFields(s)
  {
    TrimmedPiecesLeadingSpace(s);
  }

  /** A single printable field parses to itself. */
  lemma ParseSingle(field: string)
    requires IsPrintableField(field)
    ensures ParseFields(field) == [field]
  {
    SplitWithoutSeparator(field, ',');
    TrimTrimmed(field);
    MapSingleton(field, Trim);
    FilterSingleton(field, Truthy);
  }

  /** Round trip: typing back what the getter shows restores the list, when
      every field is non-empty, trimmed and comma-free. */
  lemma {:induction false} ParsePrinted(fields: seq<string>)
    requires forall i :: 0 <= i < |fields| ==> IsPrintableField(fields[i])
    ensures ParseFields(FieldsText(Some(fields))) == fields
    decreases |fields|
  {
    if |fields| == 0 {
      ParseEmpty();
    } else if |fields| == 1 {
      ParseSingle(fields[0]);
    } else {
      var rest := fields[1..];
      forall i | 0 <= i < |rest|
        ensures IsPrintableField(rest[i])
      {
        assert rest[i] == fields[i + 1];
      }
      ParsePrinted(rest);
      ParsePrintedStep(fields);
      assert fields == [fields[0]] + rest;
    }
  }

  /** The empty text gives no fields. */
  lemma ParseEmpty()
    ensures ParseFields("") == []
  {
    assert Split("", ',') == [""];
    assert TrimAll([""]) == [""];
  }

  /** The printed text of two or more fields parses to its first field
      followed by the parse of the rest's printed text. */
  lemma ParsePrintedStep(fields: seq<string>)
    requires |fields| >= 2 && IsPrintableField(fields[0])
    ensures ParseFields(FieldsText(Some(fields))) == [fields[0]] + ParseFields(FieldsText(Some(fields[1..])))
  {
    var rest := Join(fields[1..], ", ");
    assert FieldsText(Some(fields)) == fields[0] + ", " + rest;
    ParseAfterSeparator(fields[0], rest);
  }

  /** A printable field followed by the printer's separator. */
  lemma ParseAfterSeparator(field: string, rest: string)
    requires IsPrintableField(field)
    ensures ParseFields(field + ", " + rest) == [field] + ParseFields(rest)
  {
    var spaced := [' '] + rest;
    assert field + ", " + rest == field + [','] + spaced by {
      assert ", " == [','] + [' '];
    }
    ParseAroundComma(field, spaced);
    ParseLeadingSpace(rest);
    ParseSingle(field);
  }

  /** Text made only of whitespace and commas gives no fields. */
  lemma ParseBlank(text: string)
    requires forall i :: 0 <= i < |text| ==> IsSpace(text[i]) || text[i] == ','
    ensures ParseFields(text) == []
  {
    var pieces := Split(text, ',');
    SplitPiecesFromInput(text, ',');
    SplitDropsSeparator(text, ',');
    forall i | 0 <= i < |pieces|
      ensures TrimAll(pieces)[i] == ""
    {
      var p := pieces[i];
      forall k | 0 <= k < |p| ensures IsSpace(p[k]) {
        assert p[k] in p;
        assert p[k] != ',';
      }
      TrimBlank(p);
    }
    FilterKeepsNone(TrimAll(pieces), Truthy);
  }

  /** The pieces are the text cut at every comma: no piece holds a comma
      and joining them with commas gives the text back (so they are the
      only such cut). The parse is exactly the non-blank pieces, trimmed,
      in input order and with repetitions: one field per non-blank piece. */
  lemma ParseIsPieces(text: string)
    ensures var pieces := Split(text, ',');
      && Join(pieces, ",") == text
      && (forall i :: 0 <= i < |pieces| ==> ',' !in pieces[i])
      && ParseFields(text) == Filter(TrimAll(pieces), Truthy)
      && |ParseFields(text)| + |Filter(TrimAll(pieces), (p: string) => p == "")| == |pieces|
      && IsSubsequence(ParseFields(text), TrimAll(pieces))
      && (forall i :: 0 <= i < |pieces| && Trim(pieces[i]) != "" ==> Trim(pieces[i]) in ParseFields(text))
      && (forall i :: 0 <= i < |ParseFields(text)| ==> ParseFields(text)[i] in TrimAll(pieces))
  {
    var pieces := Split(text, ',');
    JoinSplit(text, ',');
    SplitDropsSeparator(text, ',');
    FilterIsSubsequence(TrimAll(pieces), Truthy);
    FilterComplement(TrimAll(pieces), Truthy, (p: string) => p == "");
    forall i | 0 <= i < |pieces| && Trim(pieces[i]) != ""
      ensures Trim(pieces[i]) in ParseFields(text)
    {
      assert TrimAll(pieces)[i] == Trim(pieces[i]);
    }
  }

  /** Repeated fields are kept: a field typed twice is listed twice. */
  lemma ParseKeepsRepeats(field: string)
    requires IsPrintableField(field)
    ensures ParseFields(field + "," + field) == [field, field]
  {
    assert field + "," + field == field + [','] + field;
    ParseAroundComma(field, field);
    ParseSingle(field);
  }

  class Step2Component {
    var selectedDatabase: string
    var selectedTable: string
    var selectedFields: Option<seq<string>>
    var syncFrequency: string
    var transformationRules: string

    /** The component with its inputs bound. */
    constructor (inputs: Step2Values)
      ensures Values() == inputs
    {
      selectedDatabase := inputs.selectedDatabase;
      selectedTable := inputs.selectedTable;
      selectedFields := inputs.selectedFields;
      syncFrequency := inputs.syncFrequency;
      transformationRules := inputs.transformationRules;
    }

    function Values(): Step2Values
      reads this
    {
      Step2Values(selectedDatabase, selectedTable, selectedFields, syncFrequency, transformationRules)
    }

    /** The `selectedFieldsStr` getter. */
    function SelectedFieldsStr(): (text: string)
      reads this
      ensures selectedFields.None? ==> text == ""
      ensures selectedFields.Some? ==>
        forall i :: 0 <= i < |selectedFields.value| ==> Includes(text, selectedFields.value[i])
    {
      FieldsText(selectedFields)
    }

    /** The `selectedFieldsStr` setter: stores the parsed list and emits
        `fieldsChange` with exactly that list; nothing else changes. Setting
        the text the getter showed keeps a printable list as it was. */
    method SetSelectedFieldsStr(text: string) returns (fieldsChange: seq<string>)
      modifies this`selectedFields
      ensures fieldsChange == ParseFields(text)
      ensures selectedFields == Some(fieldsChange)
      ensures old(selectedFields).Some? && text == old(SelectedFieldsStr())
        && (forall i :: 0 <= i < |old(selectedFields).value| ==> IsPrintableField(old(selectedFields).value[i]))
        ==> selectedFields == old(selectedFields)
    {
      ghost var before := selectedFields;
      if before.Some? && text == FieldsText(before)
        && forall i :: 0 <= i < |before.value| ==> IsPrintableField(before.value[i])
      {
        ParsePrinted(before.value);
      }
      selectedFields := Some(ParseFields(text));
      fieldsChange := selectedFields.value;
    }

    /** `nextStep` emits the five current values unchanged. */
    method NextStep() returns (next: Step2Values)
      ensures next.selectedDatabase == selectedDatabase && next.selectedTable == selectedTable
      ensures next.selectedFields == selectedFields && next.syncFrequency == syncFrequency
      ensures next.transformationRules == transformationRules
    {
      next := Step2Values(selectedDatabase, selectedTable, selectedFields, syncFrequency, transformationRules);
    }
  }
}
