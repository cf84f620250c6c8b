/**
  The few Python string operations the script relies on: `startswith`,
  `split` with a one-character separator, `join`, `in` on strings, `lower`
  and `int` on a run of decimal digits. Characters are treated as ASCII.
 */
module Text {

  /** `s.startswith(prefix)` */
  predicate StartsWith(s: string, prefix: string) {
    |prefix| <= |s| && s[..|prefix|] == prefix
  }

  /** `sub in s` */
  predicate Contains(s: string, sub: string)
    decreases |s|
  {
    StartsWith(s, sub) || (s != [] && Contains(s[1..], sub))
  }

  /**
    `s.split(sep)`: the pieces between consecutive separators. There is
    always at least one piece, more than one exactly when `sep` occurs, and
    no piece contains the separator.
   */
  function Split(s: string, sep: char): (parts: seq<string>)
    ensures |parts| >= 1
    ensures |parts| > 1 <==> sep in s
    ensures forall i :: 0 <= i < |parts| ==> sep !in parts[i]
    decreases |s|
  {
    if s == [] then [""]
    else
      var rest := Split(s[1..], sep);
      assert s == [s[0]] + s[1..];
      if s[0] == sep then [""] + rest
      else [[s[0]] + rest[0]] + rest[1..]
  }

  /** `sep.join(parts)` */
  function Join(parts: seq<string>, sep: string): string
    decreases |parts|
  {
    if parts == [] then ""
    else if |parts| == 1 then parts[0]
    else parts[0] + sep + Join(parts[1..], sep)
  }

  lemma JoinCons(c: char, x: string, tail: seq<string>, sep: string)
    ensures Join([[c] + x] + tail, sep) == [c] + Join([x] + tail, sep)
  {
    assert ([[c] + x] + tail)[1..] == tail;
    assert ([x] + tail)[1..] == tail;
  }

  /** Joining the pieces of a split with the separator gives back the string. */
  lemma {:induction false} JoinSplit(s: string, sep: char)
    ensures Join(Split(s, sep), [sep]) == s
    decreases |s|
  {
    if s != [] {
      var rest := Split(s[1..], sep);
      JoinSplit(s[1..], sep);
      assert s == [s[0]] + s[1..];
      if s[0] == sep {
        assert ([""] + rest)[1..] == rest;
      } else {
        assert rest == [rest[0]] + rest[1..];
        JoinCons(s[0], rest[0], rest[1..], [sep]);
      }
    }
  }

  /** A string without the separator splits into itself alone. */
  lemma {:induction false} SplitWithoutSeparator(x: string, sep: char)
    requires sep !in x
    ensures Split(x, sep) == [x]
    decreases |x|
  {
    if x != [] {
      SplitWithoutSeparator(x[1..], sep);
      assert x == [x[0]] + x[1..];
    }
  }

  /** A piece followed by the separator splits off as the first piece. */
  lemma {:induction false} SplitAfterPiece(x: string, y: string, sep: char)
    requires sep !in x
    ensures Split(x + [sep] + y, sep) == [x] + Split(y, sep)
    decreases |x|
  {
    var s := x + [sep] + y;
    if x == [] {
      assert s[1..] == y;
    } else {
      assert s[1..] == x[1..] + [sep] + y;
      SplitAfterPiece(x[1..], y, sep);
      assert x == [x[0]] + x[1..];
    }
  }

  /** Splitting the join of separator-free pieces gives back the pieces. */
  lemma {:induction false} SplitJoin(parts: seq<string>, sep: char)
    requires |parts| >= 1
    requires forall i :: 0 <= i < |parts| ==> sep !in parts[i]
    ensures Split(Join(parts, [sep]), sep) == parts
    decreases |parts|
  {
    if |parts| == 1 {
      SplitWithoutSeparator(parts[0], sep);
    } else {
      SplitJoin(parts[1..], sep);
      SplitAfterPiece(parts[0], Join(parts[1..], [sep]), sep);
      assert parts == [parts[0]] + parts[1..];
    }
  }

  lemma {:induction false} FirstPieceIsPrefix(s: string, c: char)
    ensures var h := Split(s, c)[0];
      |h| <= |s| && s[..|h|] == h && (|h| < |s| ==> s[|h|] == c) && (c in s ==> |h| < |s|)
    decreases |s|
  {
    if s != [] {
      FirstPieceIsPrefix(s[1..], c);
      assert c in s && s[0] != c ==> c in s[1..];
    }
  }

  /**
    `s.split(c)[0]`: the text before the first `c`, or all of `s` when it
    has none.
   */
  function CutAt(s: string, c: char): (r: string)
    ensures StartsWith(s, r) && c !in r
    ensures |r| < |s| ==> s[|r|] == c
    ensures |r| < |s| <==> c in s
  {
    FirstPieceIsPrefix(s, c);
    Split(s, c)[0]
  }

  /**
    `s.split(c)[1]` is the text between the first and the second `c`
    (or to the end of `s` when there is no second one).
   */
  lemma SecondPiece(s: string, c: char)
    requires c in s
    ensures |CutAt(s, c)| < |s|
    ensures Split(s, c)[1] == CutAt(s[|CutAt(s, c)| + 1..], c)
  {
    var x := CutAt(s, c);
    var y := s[|x| + 1..];
    assert s == x + [c] + y by {
      assert s == s[..|x|] + [s[|x|]] + y;
    }
    assert Split(s, c) == [x] + Split(y, c) by {
      SplitAfterPiece(x, y, c);
    }
    assert ([x] + Split(y, c))[1] == Split(y, c)[0];
  }

  predicate IsUpper(ch: char) {
    'A' <= ch <= 'Z'
  }

  function LowerChar(ch: char): char {
    if IsUpper(ch) then (ch as int + 32) as char else ch
  }

  /** `s.lower()` on ASCII letters */
  function Lower(s: string): (r: string)
    ensures |r| == |s|
    ensures forall i :: 0 <= i < |s| ==> r[i] == LowerChar(s[i])
  {
    if s == [] then [] else [LowerChar(s[0])] + Lower(s[1..])
  }

  /** Lower-casing changes a string exactly when it holds an upper-case letter. */
  lemma LowerChangesIffUpper(s: string)
    ensures Lower(s) != s <==> exists i :: 0 <= i < |s| && IsUpper(s[i])
  {
    if exists i :: 0 <= i < |s| && IsUpper(s[i]) {
      var i :| 0 <= i < |s| && IsUpper(s[i]);
      assert Lower(s)[i] != s[i];
    } else {
      assert Lower(s) == s;
    }
  }

  predicate IsDigit(ch: char) {
    '0' <= ch <= '9'
  }

  predicate AllDigits(s: string) {
    forall i :: 0 <= i < |s| ==> IsDigit(s[i])
  }

  /** `int(s)` for a string of decimal digits */
  function DigitsValue(s: string): nat
    requires AllDigits(s)
    decreases |s|
  {
    if s == [] then 0 else 10 * DigitsValue(s[..|s| - 1]) + (s[|s| - 1] as int - '0' as int)
  }

  /** A JSON field that the script accepts either as one string or as a list of strings. */
  datatype StringOrList = OneString(s: string) | StringList(items: seq<string>) {
    /** Python truthiness: an empty string or an empty list is false. */
    predicate NonEmpty() {
      match this
      case OneString(s) => s != ""
      case StringList(items) => items != []
    }

    /** `value.split(",")` for a string, the list itself otherwise. */
    function CommaList(): (r: seq<string>)
      ensures OneString? ==> Join(r, ",") == s
    {
      match this
      case OneString(s) => JoinSplit(s, ','); Split(s, ',')
      case StringList(items) => items
    }
  }
}
