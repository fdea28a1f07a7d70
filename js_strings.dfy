/** ASCII models of the JavaScript string built-ins the components rely on:
    `split` with a one-character separator, `trim`, `toLowerCase`,
    `toUpperCase` of one character, `includes`, `endsWith`, and
    `Array.prototype.join` over strings. */
module JsStrings {

  /** The ASCII characters `String.prototype.trim` strips: space, tab,
      line feed, vertical tab, form feed and carriage return. */
  predicate IsSpace(c: char) {
    c == ' ' || ('\t' <= c <= '\r')
  }

  predicate AllSpace(s: string) {
    forall i :: 0 <= i < |s| ==> IsSpace(s[i])
  }

  /** JavaScript truthiness of a string, as `filter(Boolean)` and
      `filter(f => f)` test it: only the empty string is falsy. */
  predicate Truthy(s: string) {
    s != ""
  }

  /** A string with no whitespace at either end. */
  predicate IsTrimmed(s: string) {
    |s| == 0 || (!IsSpace(s[0]) && !IsSpace(s[|s| - 1]))
  }

  predicate IsLowerLetter(c: char) {
    'a' <= c <= 'z'
  }

  predicate IsUpperLetter(c: char) {
    'A' <= c <= 'Z'
  }

  function LowerChar(c: char): char {
    if IsUpperLetter(c) then (c as int + 32) as char else c
  }

  function UpperChar(c: char): char {
    if IsLowerLetter(c) then (c as int - 32) as char else c
  }

  /** `s.toLowerCase()` over ASCII. */
  function ToLower(s: string): string {
    seq(|s|, i requires 0 <= i < |s| => LowerChar(s[i]))
  }

  /** `s.split(sep)`: the maximal runs between occurrences of `sep`; an
      empty string gives one empty piece. */
  function Split(s: string, sep: char): (pieces: seq<string>)
    ensures |pieces| >= 1
    decreases |s|
  {
    if |s| == 0 then [""]
    else
      var rest := Split(s[1..], sep);
      if s[0] == sep then [""] + rest
      else [[s[0]] + rest[0]] + rest[1..]
  }

  /** `pieces.join(sep)`: the pieces with `sep` between neighbours. */
  function Join(pieces: seq<string>, sep: string): string
    decreases |pieces|
  {
    if |pieces| == 0 then ""
    else if |pieces| == 1 then pieces[0]
    else pieces[0] + sep + Join(pieces[1..], sep)
  }

  /** Leading whitespace removed. */
  function TrimStart(s: string): (r: string)
    ensures |r| <= |s| && r == s[|s| - |r|..]
    ensures |r| > 0 ==> !IsSpace(r[0])
    decreases |s|
  {
    if |s| > 0 && IsSpace(s[0]) then TrimStart(s[1..]) else s
  }

  /** Trailing whitespace removed. */
  function TrimEnd(s: string): (r: string)
    ensures |r| <= |s| && r == s[..|r|]
    ensures |r| > 0 ==> !IsSpace(r[|r| - 1])
    decreases |s|
  {
    if |s| > 0 && IsSpace(s[|s| - 1]) then TrimEnd(s[..|s| - 1]) else s
  }

  /** `s.trim()`: the result has no whitespace at either end. */
  function Trim(s: string): (r: string)
    ensures IsTrimmed(r)
  {
    TrimEnd(TrimStart(s))
  }

  /** A character absent from `s` is absent from its trimmed form. */
  lemma TrimKeepsAbsent(s: string, c: char)
    requires c !in s
    ensures c !in Trim(s)
  {
    var t := TrimStart(s);
    DropKeepsAbsent(s, |s| - |t|, c);
    TakeKeepsAbsent(t, |TrimEnd(t)|, c);
  }

  lemma DropKeepsAbsent<T>(s: seq<T>, i: nat, c: T)
    requires i <= |s| && c !in s
    ensures c !in s[i..]
  {
    forall k | 0 <= k < |s| - i
      ensures s[i..][k] != c
    {
      assert s[i..][k] == s[i + k];
    }
  }

  lemma TakeKeepsAbsent<T>(s: seq<T>, j: nat, c: T)
    requires j <= |s| && c !in s
    ensures c !in s[..j]
  {
    forall k | 0 <= k < j
      ensures s[..j][k] != c
    {
      assert s[..j][k] == s[k];
    }
  }

  /** No piece of a split contains the separator. */
  lemma {:induction false} SplitDropsSeparator(s: string, sep: char)
    ensures forall i :: 0 <= i < |Split(s, sep)| ==> sep !in Split(s, sep)[i]
    decreases |s|
  {
    if |s| > 0 {
      SplitDropsSeparator(s[1..], sep);
      var rest := Split(s[1..], sep);
      if s[0] != sep {
        var pieces := Split(s, sep);
        assert pieces[0] == [s[0]] + rest[0];
        assert forall i :: 1 <= i < |pieces| ==> pieces[i] == rest[i];
      }
    }
  }

  predicate StartsWith(s: string, prefix: string) {
    |prefix| <= |s| && s[..|prefix|] == prefix
  }

  /** `s.endsWith(suffix)`. */
  predicate EndsWith(s: string, suffix: string) {
    |suffix| <= |s| && s[|s| - |suffix|..] == suffix
  }

  /** `sub` occurs in `s` starting at index `i`. */
  predicate OccursAt(s: string, sub: string, i: int) {
    0 <= i <= |s| - |sub| && s[i..i + |sub|] == sub
  }

  /** `s.includes(sub)`, scanning from the left. */
  predicate Includes(s: string, sub: string)
    decreases |s|
  {
    StartsWith(s, sub) || (|s| > 0 && Includes(s[1..], sub))
  }

  /** Every character of every piece comes from the split string. */
  lemma {:induction false} SplitPiecesFromInput(s: string, sep: char)
    ensures forall p, c :: p in Split(s, sep) && c in p ==> c in s
    decreases |s|
  {
    if |s| > 0 {
      SplitPiecesFromInput(s[1..], sep);
      var rest := Split(s[1..], sep);
      assert forall c :: c in s[1..] ==> c in s;
      if s[0] != sep {
        assert forall p :: p in rest[1..] ==> p in rest;
      }
    }
  }

  /** The pieces of a split, joined again with the separator, give back the
      string. */
  lemma {:induction false} JoinSplit(s: string, sep: char)
    ensures Join(Split(s, sep), [sep]) == s
    decreases |s|
  {
    if |s| > 0 {
      var rest := Split(s[1..], sep);
      JoinSplit(s[1..], sep);
      if s[0] == sep {
        JoinPrependEmpty(rest, [sep]);
      } else {
        JoinExtendFirst(s[0], rest, [sep]);
      }
      assert s == [s[0]] + s[1..];
    }
  }

  /** An empty first piece contributes only its separator. */
  lemma JoinPrependEmpty(pieces: seq<string>, sep: string)
    requires |pieces| >= 1
    ensures Join([""] + pieces, sep) == sep + Join(pieces, sep)
  {
    assert ([""] + pieces)[1..] == pieces;
  }

  /** A character added to the first piece comes first in the join. */
  lemma JoinExtendFirst(c: char, pieces: seq<string>, sep: string)
    requires |pieces| >= 1
    ensures Join([[c] + pieces[0]] + pieces[1..], sep) == [c] + Join(pieces, sep)
  {
    var extended := [[c] + pieces[0]] + pieces[1..];
    assert extended[0] == [c] + pieces[0];
    assert extended[1..] == pieces[1..];
    if |pieces| > 1 {
      assert Join(extended, sep) == ([c] + pieces[0]) + sep + Join(pieces[1..], sep);
    }
  }

  /** A string without the separator splits into itself alone. */
  lemma {:induction false} SplitWithoutSeparator(s: string, sep: char)
    requires sep !in s
    ensures Split(s, sep) == [s]
    decreases |s|
  {
    if |s| > 0 {
      SplitWithoutSeparator(s[1..], sep);
      assert s == [s[0]] + s[1..];
    }
  }

  /** A leading separator opens an empty first piece. */
  lemma SplitConsSeparator(s: string, sep: char)
    ensures Split([sep] + s, sep) == [""] + Split(s, sep)
  {
    assert ([sep] + s)[1..] == s;
  }

  /** Any other leading character joins the first piece. */
  lemma SplitConsOther(c: char, s: string, sep: char)
    requires c != sep
    ensures Split([c] + s, sep) == [[c] + Split(s, sep)[0]] + Split(s, sep)[1..]
  {
    assert ([c] + s)[1..] == s;
  }

  /** Splitting is a homomorphism across one separator. */
  lemma {:induction false} SplitAround(a: string, sep: char, b: string)
    ensures Split(a + [sep] + b, sep) == Split(a, sep) + Split(b, sep)
    decreases |a|
  {
    if |a| == 0 {
      assert a + [sep] + b == [sep] + b;
      SplitConsSeparator(b, sep);
    } else {
      SplitAround(a[1..], sep, b);
      if a[0] == sep {
        SplitAroundSeparator(a, sep, b);
      } else {
        SplitAroundOther(a, sep, b);
      }
    }
  }

  /** The inductive step of `SplitAround` when `a` starts with the
      separator. */
  lemma SplitAroundSeparator(a: string, sep: char, b: string)
    requires |a| > 0 && a[0] == sep
    requires Split(a[1..] + [sep] + b, sep) == Split(a[1..], sep) + Split(b, sep)
    ensures Split(a + [sep] + b, sep) == Split(a, sep) + Split(b, sep)
  {
    var s := a + [sep] + b;
    assert s[0] == sep && s[1..] == a[1..] + [sep] + b;
    PrependPiece("", Split(a[1..], sep), Split(b, sep));
  }

  /** Prepending a piece to a concatenation prepends it to the left part. */
  lemma PrependPiece(piece: string, left: seq<string>, right: seq<string>)
    ensures [piece] + (left + right) == ([piece] + left) + right
  {
  }

  /** The inductive step of `SplitAround` when `a` starts with another
      character, which joins the first piece on both sides. */
  lemma SplitAroundOther(a: string, sep: char, b: string)
    requires |a| > 0 && a[0] != sep
    requires Split(a[1..] + [sep] + b, sep) == Split(a[1..], sep) + Split(b, sep)
    ensures Split(a + [sep] + b, sep) == Split(a, sep) + Split(b, sep)
  {
    var s := a + [sep] + b;
    assert s[0] == a[0] && s[1..] == a[1..] + [sep] + b;
    ExtendFirstPiece(a[0], Split(a[1..], sep), Split(b, sep));
  }

  /** Extending the first piece of a concatenation extends the first piece
      of its left part. */
  lemma ExtendFirstPiece(c: char, left: seq<string>, right: seq<string>)
    requires |left| > 0
    ensures [[c] + (left + right)[0]] + (left + right)[1..] == ([[c] + left[0]] + left[1..]) + right
  {
    assert (left + right)[0] == left[0];
    assert (left + right)[1..] == left[1..] + right;
  }

  /** A separator-free piece list is recovered from its join. */
  lemma {:induction false} SplitJoin(pieces: seq<string>, sep: char)
    requires |pieces| >= 1
    requires forall p :: p in pieces ==> sep !in p
    ensures Split(Join(pieces, [sep]), sep) == pieces
    decreases |pieces|
  {
    if |pieces| == 1 {
      SplitWithoutSeparator(pieces[0], sep);
    } else {
      assert pieces[0] in pieces;
      SplitWithoutSeparator(pieces[0], sep);
      SplitJoin(pieces[1..], sep);
      SplitAround(pieces[0], sep, Join(pieces[1..], [sep]));
      assert pieces == [pieces[0]] + pieces[1..];
    }
  }

  /** Appending one piece at the end of a join. */
  lemma {:induction false} JoinSnoc(pieces: seq<string>, sep: string, last: string)
    requires |pieces| >= 1
    ensures Join(pieces + [last], sep) == Join(pieces, sep) + sep + last
    decreases |pieces|
  {
    var ps := pieces + [last];
    assert ps[0] == pieces[0];
    if |pieces| == 1 {
      assert ps[1..] == [last];
    } else {
      assert ps[1..] == pieces[1..] + [last];
      JoinSnoc(pieces[1..], sep, last);
    }
  }

  /** `trim` leaves a trimmed string as it is. */
  lemma TrimTrimmed(s: string)
    requires IsTrimmed(s)
    ensures Trim(s) == s
  {
  }

  /** `trim` ignores one leading whitespace character. */
  lemma TrimLeadingSpace(c: char, s: string)
    requires IsSpace(c)
    ensures Trim([c] + s) == Trim(s)
  {
    assert ([c] + s)[1..] == s;
  }

  /** `trim` of blank text is empty. */
  lemma {:induction false} TrimBlank(s: string)
    requires AllSpace(s)
    ensures Trim(s) == ""
    decreases |s|
  {
    if |s| > 0 {
      assert IsSpace(s[0]);
      assert AllSpace(s[1..]) by {
        forall i | 0 <= i < |s| - 1 ensures IsSpace(s[1..][i]) {
          assert s[1..][i] == s[i + 1];
        }
      }
      TrimBlank(s[1..]);
    }
  }

  /** `includes` finds `sub` exactly when it occurs at some position. */
  lemma {:induction false} IncludesAt(s: string, sub: string)
    ensures Includes(s, sub) <==> exists i :: OccursAt(s, sub, i)
    decreases |s|
  {
    if Includes(s, sub) {
      if StartsWith(s, sub) {
        assert OccursAt(s, sub, 0);
      } else {
        IncludesAt(s[1..], sub);
        var i :| OccursAt(s[1..], sub, i);
        assert s[i + 1..i + 1 + |sub|] == sub;
        assert OccursAt(s, sub, i + 1);
      }
    }
    if exists i :: OccursAt(s, sub, i) {
      var i :| OccursAt(s, sub, i);
      if i > 0 {
        assert s[1..][i - 1..i - 1 + |sub|] == sub;
        assert OccursAt(s[1..], sub, i - 1);
        IncludesAt(s[1..], sub);
      }
    }
  }

  /** A text that includes `sub` still does once something is put in
      front of it. */
  lemma {:induction false} IncludesAfterPrefix(prefix: string, s: string, sub: string)
    ensures Includes(s, sub) ==> Includes(prefix + s, sub)
    decreases |prefix|
  {
    if |prefix| > 0 {
      IncludesAfterPrefix(prefix[1..], s, sub);
      assert (prefix + s)[1..] == prefix[1..] + s;
    } else {
      assert prefix + s == s;
    }
  }

  /** Every piece can be found in the joined text. */
  lemma {:induction false} JoinIncludesPieces(pieces: seq<string>, sep: string)
    ensures forall i :: 0 <= i < |pieces| ==> Includes(Join(pieces, sep), pieces[i])
    decreases |pieces|
  {
    if |pieces| > 1 {
      var rest := pieces[1..];
      JoinIncludesPieces(rest, sep);
      var joined := Join(pieces, sep);
      assert joined == (pieces[0] + sep) + Join(rest, sep);
      assert StartsWith(joined, pieces[0]);
      forall i | 1 <= i < |pieces|
        ensures Includes(joined, pieces[i])
      {
        assert pieces[i] == rest[i - 1];
        IncludesAfterPrefix(pieces[0] + sep, Join(rest, sep), pieces[i]);
      }
    } else if |pieces| == 1 {
      assert Join(pieces, sep)[..|pieces[0]|] == pieces[0];
    }
  }
}
