/**
  `is_supported_python`: a version spec such as `>=3.8` is split by the
  pattern `\s*(\d+)\.*(\d*)\.*(\d*)` into an operator (the text before the
  first match) and the numeric groups; empty groups are dropped and the rest
  form a tuple that the interpreter's (major, minor, micro) tuple is compared
  with, lexicographically, as Python compares tuples. The comparison is one
  of six explicit operators instead of an evaluated expression.
 */
module PythonVersion {
  import opened Wrappers
  import opened Text

  datatype CharClass = Space | Digit | Dot

  predicate InClass(ch: char, k: CharClass) {
    match k
    case Space => ch == ' ' || 9 <= ch as int <= 13 || 28 <= ch as int <= 31
    case Digit => IsDigit(ch)
    case Dot => ch == '.'
  }

  /** Length of the longest prefix of `s` in class `k`: a greedy `*` over that class. */
  function Run(s: string, k: CharClass): (n: nat)
    ensures n <= |s|
    decreases |s|
  {
    if s != [] && InClass(s[0], k) then 1 + Run(s[1..], k) else 0
  }

  /** The run is the longest prefix in the class: every character before it is in, the next is not. */
  lemma {:induction false} RunIsGreedy(s: string, k: CharClass)
    ensures forall i :: 0 <= i < Run(s, k) ==> InClass(s[i], k)
    ensures Run(s, k) < |s| ==> !InClass(s[Run(s, k)], k)
    decreases |s|
  {
    if s != [] && InClass(s[0], k) {
      RunIsGreedy(s[1..], k);
      assert forall i :: 1 <= i < Run(s, k) ==> s[i] == s[1..][i - 1];
    }
  }

  /** One match of the pattern: where it starts and ends, and its three groups. */
  datatype Match = Match(start: nat, end: nat, groups: seq<string>)

  /** The match of the pattern anchored at position `p` of `s`, if any. */
  function MatchAt(s: string, p: nat): (m: Option<Match>)
    requires p <= |s|
    ensures m.Some? ==> m.value.start == p < m.value.end <= |s| && |m.value.groups| == 3
  {
    var a := Skip(s, p, Space);
    if a < |s| && IsDigit(s[a]) then
      var b := Skip(s, a, Digit);
      var c := Skip(s, b, Dot);
      var d := Skip(s, c, Digit);
      var e := Skip(s, d, Dot);
      var f := Skip(s, e, Digit);
      Some(Match(p, f, [s[a..b], s[c..d], s[e..f]]))
    else None
  }

  /** Where the greedy run of class `k` that starts at position `x` of `s` stops. */
  function Skip(s: string, x: nat, k: CharClass): (y: nat)
    requires x <= |s|
    ensures x <= y <= |s|
  {
    x + Run(s[x..], k)
  }

  /** The leftmost match at or after position `p`. */
  function Search(s: string, p: nat): (m: Option<Match>)
    requires p <= |s|
    ensures m.Some? ==> p <= m.value.start < m.value.end <= |s| && |m.value.groups| == 3
    decreases |s| - p
  {
    if p == |s| then None
    else
      match MatchAt(s, p)
      case Some(m) => Some(m)
      case None => Search(s, p + 1)
  }

  /**
    `re.split` with the pattern: the text before each match followed by its
    three groups, and finally the text after the last match.
   */
  function ReSplit(s: string): (parts: seq<string>)
    ensures |parts| >= 1
    decreases |s|
  {
    match Search(s, 0)
    case None => [s]
    case Some(m) => [s[..m.start]] + m.groups + ReSplit(s[m.end..])
  }

  /** A match is anchored at `p` exactly when a digit follows the run of whitespace there. */
  lemma MatchAtIff(s: string, p: nat)
    requires p <= |s|
    ensures MatchAt(s, p).Some? <==>
      exists a :: p <= a < |s| && IsDigit(s[a]) && forall i :: p <= i < a ==> InClass(s[i], Space)
  {
    var a0 := Skip(s, p, Space);
    RunIsGreedy(s[p..], Space);
    forall i | p <= i < a0 ensures InClass(s[i], Space) {
      assert s[i] == s[p..][i - p];
    }
    if a0 < |s| {
      assert s[a0] == s[p..][a0 - p];
    }
    if a: nat :| p <= a < |s| && IsDigit(s[a]) && forall i :: p <= i < a ==> InClass(s[i], Space) {
      assert a == a0;
    }
  }

  /** The three groups of a match are digit strings, and the first is not empty. */
  lemma MatchAtGroups(s: string, p: nat)
    requires p <= |s|
    ensures MatchAt(s, p).Some? ==>
      var g := MatchAt(s, p).value.groups;
      g[0] != [] && AllDigits(g[0]) && AllDigits(g[1]) && AllDigits(g[2])
  {
    var a := Skip(s, p, Space);
    if a < |s| && IsDigit(s[a]) {
      var b := Skip(s, a, Digit);
      var c := Skip(s, b, Dot);
      var d := Skip(s, c, Digit);
      var e := Skip(s, d, Dot);
      var f := Skip(s, e, Digit);
      RunDigits(s, a);
      RunDigits(s, c);
      RunDigits(s, e);
      assert s[a..][0] == s[a];
    }
  }

  /** The greedy digit run from `x` is a digit string. */
  lemma RunDigits(s: string, x: nat)
    requires x <= |s|
    ensures AllDigits(s[x..Skip(s, x, Digit)])
  {
    RunIsGreedy(s[x..], Digit);
    var y := Skip(s, x, Digit);
    forall i | 0 <= i < y - x ensures IsDigit(s[x..y][i]) {
      assert s[x..y][i] == s[x..][i];
    }
  }

  /** What `Search` finds is the match anchored at its start. */
  lemma {:induction false} SearchAnchored(s: string, p: nat)
    requires p <= |s|
    ensures Search(s, p).Some? ==> MatchAt(s, Search(s, p).value.start) == Search(s, p)
    decreases |s| - p
  {
    if p < |s| && MatchAt(s, p).None? {
      SearchAnchored(s, p + 1);
    }
  }

  /** No match is anchored before the one `Search` finds: it is the leftmost. */
  lemma {:induction false} SearchLeftmost(s: string, p: nat)
    requires p <= |s|
    ensures Search(s, p).Some? ==> forall q :: p <= q < Search(s, p).value.start ==> MatchAt(s, q).None?
    decreases |s| - p
  {
    if p < |s| && MatchAt(s, p).None? {
      SearchLeftmost(s, p + 1);
    }
  }

  /** `Search` finds nothing exactly when no position from `p` on has a match. */
  lemma {:induction false} SearchNone(s: string, p: nat)
    requires p <= |s|
    ensures Search(s, p).None? <==> forall q :: p <= q < |s| ==> MatchAt(s, q).None?
    decreases |s| - p
  {
    if p < |s| {
      SearchNone(s, p + 1);
    }
  }

  /** A match that starts right after an operator text and runs to the end splits the spec into that text, the groups and "". */
  lemma ReSplitFinal(s: string, t: string, g: seq<string>)
    requires NoDigitOrSpace(t) && |t| < |s| && s[..|t|] == t && IsDigit(s[|t|])
    requires MatchAt(s, |t|) == Some(Match(|t|, |s|, g))
    ensures ReSplit(s) == [t] + g + [""]
  {
    forall i | 0 <= i < |t| ensures !IsDigit(s[i]) && !InClass(s[i], Space) {
      assert s[i] == s[..|t|][i];
    }
    SearchSkips(s, 0, |t|);
    SplitAtFinalMatch(s, Match(|t|, |s|, g));
  }

  /** The match anchored at the start of a run of digits that ends the string takes it all as the first group. */
  lemma MatchAtMajor(s: string, a: nat)
    requires a < |s|
    requires forall i :: a <= i < |s| ==> IsDigit(s[i])
    ensures MatchAt(s, a) == Some(Match(a, |s|, [s[a..], "", ""]))
  {
    var n := |s|;
    RunFrom(s, a, a, Space);
    DigitsToEnd(s, a);
    RunFrom(s, n, n, Dot);
    DigitsToEnd(s, n);
    MatchAtFromRuns(s, a, a, n, n, n, n, n);
    assert s[a..n] == s[a..] && s[n..n] == "";
  }

  /** The match anchored at the start of "major.minor.micro" spans it, with the three numbers as groups. */
  lemma MatchAtThreeNumbers(s: string, a: nat, b: nat, c: nat)
    requires a < b && b + 1 < c && c + 1 < |s|
    requires forall i :: a <= i < b ==> IsDigit(s[i])
    requires s[b] == '.' && s[c] == '.'
    requires forall i :: b < i < c ==> IsDigit(s[i])
    requires forall i :: c < i < |s| ==> IsDigit(s[i])
    ensures MatchAt(s, a) == Some(Match(a, |s|, [s[a..b], s[b + 1..c], s[c + 1..]]))
  {
    ThreeNumberRuns(s, a, b, c);
    MatchAtFromRuns(s, a, a, b, b + 1, c, c + 1, |s|);
    assert s[c + 1..|s|] == s[c + 1..];
  }

  /** Where the six greedy runs of the pattern stop in "major.minor.micro". */
  lemma ThreeNumberRuns(s: string, a: nat, b: nat, c: nat)
    requires a < b && b + 1 < c && c + 1 < |s|
    requires forall i :: a <= i < b ==> IsDigit(s[i])
    requires s[b] == '.' && s[c] == '.'
    requires forall i :: b < i < c ==> IsDigit(s[i])
    requires forall i :: c < i < |s| ==> IsDigit(s[i])
    ensures Skip(s, a, Space) == a && Skip(s, a, Digit) == b && Skip(s, b, Dot) == b + 1
    ensures Skip(s, b + 1, Digit) == c && Skip(s, c, Dot) == c + 1 && Skip(s, c + 1, Digit) == |s|
  {
    RunFrom(s, a, a, Space);
    DigitsThenDot(s, a, b);
    DigitsThenDot(s, b + 1, c);
    DigitsToEnd(s, c + 1);
  }

  /** A run of digits from `x` that stops at a single dot at `y`. */
  lemma DigitsThenDot(s: string, x: nat, y: nat)
    requires x <= y && y + 1 < |s|
    requires forall i :: x <= i < y ==> IsDigit(s[i])
    requires s[y] == '.' && IsDigit(s[y + 1])
    ensures Skip(s, x, Digit) == y && Skip(s, y, Dot) == y + 1
  {
    RunFrom(s, x, y, Digit);
    RunFrom(s, y, y + 1, Dot);
  }

  /** A run of digits from `x` that reaches the end of the string. */
  lemma DigitsToEnd(s: string, x: nat)
    requires x <= |s|
    requires forall i :: x <= i < |s| ==> IsDigit(s[i])
    ensures Skip(s, x, Digit) == |s|
  {
    RunFrom(s, x, |s|, Digit);
  }


  datatype Op = Lt | Le | Gt | Ge | Eq | Ne

  function OpText(op: Op): string {
    match op
    case Lt => "<"
    case Le => "<="
    case Gt => ">"
    case Ge => ">="
    case Eq => "=="
    case Ne => "!="
  }

  function ParseOp(t: string): Option<Op> {
    if t == "<" then Some(Lt)
    else if t == "<=" then Some(Le)
    else if t == ">" then Some(Gt)
    else if t == ">=" then Some(Ge)
    else if t == "==" then Some(Eq)
    else if t == "!=" then Some(Ne)
    else None
  }

  /**
    `tuple(int(num) for num in fields if num)`: None where a non-empty field
    is not a number (`int` raises).
   */
  function RequiredVersion(fields: seq<string>): Option<seq<nat>>
    decreases |fields|
  {
    if fields == [] then Some([])
    else
      match RequiredVersion(fields[1..])
      case None => None
      case Some(rest) =>
        if fields[0] == "" then Some(rest)
        else if AllDigits(fields[0]) then Some([DigitsValue(fields[0])] + rest)
        else None
  }

  datatype Requirement = Requirement(op: Op, version: seq<nat>)

  /** The operator and version tuple of a spec; None where evaluating it would raise. */
  function ParseSpec(spec: string): Option<Requirement> {
    var parts := ReSplit(spec);
    match (ParseOp(parts[0]), RequiredVersion(parts[1..]))
    case (Some(op), Some(v)) => Some(Requirement(op, v))
    case _ => None
  }

  /** Python's `<` on tuples of integers. */
  predicate LexLess(v: seq<nat>, w: seq<nat>)
    decreases |v|
  {
    if v == [] then w != []
    else if w == [] then false
    else if v[0] != w[0] then v[0] < w[0]
    else LexLess(v[1..], w[1..])
  }

  /**
    The textbook definition of lexicographic order: after a common prefix,
    either `v` ends while `w` goes on, or `v` has the smaller element.
   */
  predicate LexLessAt(v: seq<nat>, w: seq<nat>, k: nat) {
    k <= |v| && k <= |w| && v[..k] == w[..k] &&
    ((k == |v| && k < |w|) || (k < |v| && k < |w| && v[k] < w[k]))
  }

  lemma {:induction false} LexLessIffPrefix(v: seq<nat>, w: seq<nat>)
    ensures LexLess(v, w) <==> exists k: nat :: LexLessAt(v, w, k)
    decreases |v|
  {
    SharedHead(v, w);
    if v == [] {
      if w != [] { assert LexLessAt(v, w, 0); }
    } else if w == [] {
    } else if v[0] != w[0] {
      if v[0] < w[0] { assert LexLessAt(v, w, 0); }
    } else {
      LexLessIffPrefix(v[1..], w[1..]);
      if LexLess(v[1..], w[1..]) {
        var k: nat :| LexLessAt(v[1..], w[1..], k);
        assert v[..k + 1] == [v[0]] + v[1..][..k];
        assert w[..k + 1] == [w[0]] + w[1..][..k];
        assert LexLessAt(v, w, k + 1);
      }
      forall k: nat | LexLessAt(v, w, k) ensures LexLess(v[1..], w[1..]) {
        assert k > 0;
        assert v[1..][..k - 1] == v[..k][1..];
        assert w[1..][..k - 1] == w[..k][1..];
        assert LexLessAt(v[1..], w[1..], k - 1);
      }
    }
  }

  /** A common prefix that is not empty starts both tuples with the same element. */
  lemma SharedHead(v: seq<nat>, w: seq<nat>)
    ensures forall k: nat :: LexLessAt(v, w, k) && k > 0 ==> v[0] == w[0]
  {
    forall k: nat | LexLessAt(v, w, k) && k > 0 ensures v[0] == w[0] {
      assert v[..k][0] == w[..k][0];
    }
  }

  /** Exactly one of `v < w`, `v == w`, `w < v` holds, as for Python tuples. */
  lemma {:induction false} Trichotomy(v: seq<nat>, w: seq<nat>)
    ensures LexLess(v, w) || v == w || LexLess(w, v)
    ensures !(LexLess(v, w) && LexLess(w, v))
    ensures LexLess(v, w) ==> v != w
    decreases |v|
  {
    if v != [] && w != [] && v[0] == w[0] {
      Trichotomy(v[1..], w[1..]);
      assert v == [v[0]] + v[1..] && w == [w[0]] + w[1..];
    }
  }

  /** `v <op> w` for version tuples. */
  predicate Holds(op: Op, v: seq<nat>, w: seq<nat>) {
    match op
    case Lt => LexLess(v, w)
    case Le => LexLess(v, w) || v == w
    case Gt => LexLess(w, v)
    case Ge => LexLess(w, v) || v == w
    case Eq => v == w
    case Ne => v != w
  }

  /** `is_supported_python(spec)` for the interpreter version `inUse`; None where it raises. */
  function IsSupportedPython(spec: string, inUse: seq<nat>): Option<bool> {
    match ParseSpec(spec)
    case None => None
    case Some(r) => Some(Holds(r.op, inUse, r.version))
  }

  /** `>=` and `<` are each other's negation, and so are `<=` and `>`. */
  lemma OppositeOperators(v: seq<nat>, w: seq<nat>)
    ensures Holds(Ge, v, w) <==> !Holds(Lt, v, w)
    ensures Holds(Le, v, w) <==> !Holds(Gt, v, w)
  {
    Trichotomy(v, w);
  }

  lemma {:induction false} SearchSkips(s: string, p: nat, q: nat)
    requires p <= q < |s|
    requires forall i :: p <= i < q ==> !IsDigit(s[i]) && !InClass(s[i], Space)
    requires IsDigit(s[q])
    ensures Search(s, p) == MatchAt(s, q)
    decreases q - p
  {
    if p < q {
      assert s[p..][0] == s[p];
      assert MatchAt(s, p).None?;
      SearchSkips(s, p + 1, q);
    } else {
      assert s[q..][0] == s[q];
    }
  }

  predicate NoDigitOrSpace(t: string) {
    forall i :: 0 <= i < |t| ==> !IsDigit(t[i]) && !InClass(t[i], Space)
  }

  lemma OpTextHasNoDigitOrSpace(op: Op)
    ensures NoDigitOrSpace(OpText(op))
  {
  }

  /** The greedy run of class `k` from position `x` ends at the first position `y` outside the class. */
  lemma {:induction false} RunFrom(s: string, x: nat, y: nat, k: CharClass)
    requires x <= y <= |s|
    requires forall i :: x <= i < y ==> InClass(s[i], k)
    requires y == |s| || !InClass(s[y], k)
    ensures Run(s[x..], k) == y - x
    decreases y - x
  {
    if x < y {
      assert s[x..][0] == s[x];
      assert s[x..][1..] == s[x + 1..];
      RunFrom(s, x + 1, y, k);
    } else if x < |s| {
      assert s[x..][0] == s[x];
    }
  }

  /** The match anchored at `p`, read off the ends of its six greedy runs. */
  lemma MatchAtFromRuns(s: string, p: nat, a: nat, b: nat, c: nat, d: nat, e: nat, f: nat)
    requires p <= a < |s| && IsDigit(s[a]) && Skip(s, p, Space) == a
    requires Skip(s, a, Digit) == b && Skip(s, b, Dot) == c && Skip(s, c, Digit) == d
    requires Skip(s, d, Dot) == e && Skip(s, e, Digit) == f
    ensures MatchAt(s, p) == Some(Match(p, f, [s[a..b], s[c..d], s[e..f]]))
  {
  }

  /** The match anchored at the start of "major.minor" spans it, with groups major, minor and "". */
  lemma {:induction false} MatchAtNumbers(s: string, a: nat, b: nat)
    requires a < b < |s| - 1
    requires forall i :: a <= i < b ==> IsDigit(s[i])
    requires s[b] == '.'
    requires forall i :: b < i < |s| ==> IsDigit(s[i])
    ensures MatchAt(s, a) == Some(Match(a, |s|, [s[a..b], s[b + 1..], ""]))
  {
    var n := |s|;
    RunFrom(s, a, a, Space);
    DigitsThenDot(s, a, b);
    DigitsToEnd(s, b + 1);
    RunFrom(s, n, n, Dot);
    DigitsToEnd(s, n);
    MatchAtFromRuns(s, a, a, b, b + 1, n, n, n);
    assert s[n..n] == "";
    assert s[b + 1..n] == s[b + 1..];
  }

  /** In a spec laid out as operator text, digits, a dot and digits, the match spans the numbers. */
  lemma {:induction false} MatchLayout(s: string, t: string, d1: string, d2: string)
    requires NoDigitOrSpace(t)
    requires d1 != [] && d2 != [] && AllDigits(d1) && AllDigits(d2)
    requires |s| == |t| + |d1| + 1 + |d2|
    requires s[..|t|] == t && s[|t|..|t| + |d1|] == d1 && s[|t| + |d1|] == '.' && s[|t| + |d1| + 1..] == d2
    ensures Search(s, 0) == Some(Match(|t|, |s|, [d1, d2, ""]))
  {
    var a := |t|;
    var b := a + |d1|;
    assert Search(s, 0) == MatchAt(s, a) by {
      forall i | 0 <= i < a ensures !IsDigit(s[i]) && !InClass(s[i], Space) {
        assert s[i] == s[..a][i];
      }
      assert s[a] == s[a..b][0];
      SearchSkips(s, 0, a);
    }
    forall i | a <= i < b ensures IsDigit(s[i]) {
      assert s[i] == s[a..b][i - a];
    }
    forall i | b < i < |s| ensures IsDigit(s[i]) {
      assert s[i] == s[b + 1..][i - b - 1];
    }
    MatchAtNumbers(s, a, b);
  }

  /** The single match in `t + d1 + "." + d2` spans the numbers, with groups d1, d2 and "". */
  lemma MatchMajorMinor(t: string, d1: string, d2: string)
    requires NoDigitOrSpace(t)
    requires d1 != [] && d2 != [] && AllDigits(d1) && AllDigits(d2)
    ensures Search(t + d1 + "." + d2, 0) == Some(Match(|t|, |t + d1 + "." + d2|, [d1, d2, ""]))
  {
    var s := t + d1 + "." + d2;
    assert s[..|t|] == t;
    assert s[|t|..|t| + |d1|] == d1;
    assert s[|t| + |d1| + 1..] == d2;
    MatchLayout(s, t, d1, d2);
  }

  /**
    A spec written as an operator, a major number, a dot and a minor number
    parses to that operator and the (major, minor) tuple; the third, empty,
    group and the empty text after the match are dropped.
   */
  lemma ParseMajorMinor(op: Op, d1: string, d2: string)
    requires d1 != [] && d2 != [] && AllDigits(d1) && AllDigits(d2)
    ensures ParseSpec(OpText(op) + d1 + "." + d2) == Some(Requirement(op, [DigitsValue(d1), DigitsValue(d2)]))
  {
    var s := OpText(op) + d1 + "." + d2;
    var parts := ReSplit(s);
    ReSplitMajorMinor(op, d1, d2);
    assert parts[1..] == [d1, d2, "", ""];
    RequiredMajorMinor(d1, d2);
    ParseSpecFromParts(s, op, [DigitsValue(d1), DigitsValue(d2)]);
  }

  /** `re.split` cuts `<op><major>.<minor>` into the operator, the three groups and an empty tail. */
  lemma ReSplitMajorMinor(op: Op, d1: string, d2: string)
    requires d1 != [] && d2 != [] && AllDigits(d1) && AllDigits(d2)
    ensures ReSplit(OpText(op) + d1 + "." + d2) == [OpText(op), d1, d2, "", ""]
  {
    OpTextHasNoDigitOrSpace(op);
    ReSplitLayout(OpText(op), d1, d2);
  }

  lemma ReSplitLayout(t: string, d1: string, d2: string)
    requires NoDigitOrSpace(t)
    requires d1 != [] && d2 != [] && AllDigits(d1) && AllDigits(d2)
    ensures ReSplit(t + d1 + "." + d2) == [t, d1, d2, "", ""]
  {
    var s := t + d1 + "." + d2;
    assert s[..|t|] == t;
    assert [s[..|t|]] + [d1, d2, ""] + [""] == [t, d1, d2, "", ""];
    MatchMajorMinor(t, d1, d2);
    SplitAtFinalMatch(s, Match(|t|, |s|, [d1, d2, ""]));
  }

  /** A spec parses to the operator of its first piece and the tuple of the others. */
  lemma ParseSpecFromParts(spec: string, op: Op, v: seq<nat>)
    requires ReSplit(spec)[0] == OpText(op)
    requires RequiredVersion(ReSplit(spec)[1..]) == Some(v)
    ensures ParseSpec(spec) == Some(Requirement(op, v))
  {
    assert ParseOp(OpText(op)) == Some(op);
  }

  /** A match that runs to the end of the string leaves an empty last piece. */
  lemma SplitAtFinalMatch(s: string, m: Match)
    requires Search(s, 0) == Some(m) && m.end == |s|
    ensures ReSplit(s) == [s[..m.start]] + m.groups + [""]
  {
    assert s[m.end..] == [];
    assert ReSplit([]) == [""];
  }

  /** A spec written as an operator and one number parses to that operator and the one-element tuple. */
  lemma ParseMajor(op: Op, d1: string)
    requires d1 != [] && AllDigits(d1)
    ensures ParseSpec(OpText(op) + d1) == Some(Requirement(op, [DigitsValue(d1)]))
  {
    var s := OpText(op) + d1;
    OpTextHasNoDigitOrSpace(op);
    ReSplitMajor(OpText(op), d1);
    assert ReSplit(s)[1..] == [d1, "", "", ""];
    RequiredMajor(d1);
    ParseSpecFromParts(s, op, [DigitsValue(d1)]);
  }

  /** A spec written as an operator and "major.minor.micro" parses to that operator and the three numbers. */
  lemma ParseMajorMinorMicro(op: Op, d1: string, d2: string, d3: string)
    requires d1 != [] && d2 != [] && d3 != [] && AllDigits(d1) && AllDigits(d2) && AllDigits(d3)
    ensures ParseSpec(OpText(op) + d1 + "." + d2 + "." + d3) ==
      Some(Requirement(op, [DigitsValue(d1), DigitsValue(d2), DigitsValue(d3)]))
  {
    var s := OpText(op) + d1 + "." + d2 + "." + d3;
    OpTextHasNoDigitOrSpace(op);
    ReSplitMajorMinorMicro(OpText(op), d1, d2, d3);
    assert ReSplit(s)[1..] == [d1, d2, d3, ""];
    RequiredMajorMinorMicro(d1, d2, d3);
    ParseSpecFromParts(s, op, [DigitsValue(d1), DigitsValue(d2), DigitsValue(d3)]);
  }

  /** `re.split` cuts `<op><major>` into the operator, the number, two empty groups and an empty tail. */
  lemma ReSplitMajor(t: string, d1: string)
    requires NoDigitOrSpace(t) && d1 != [] && AllDigits(d1)
    ensures ReSplit(t + d1) == [t, d1, "", "", ""]
  {
    var s := t + d1;
    var a := |t|;
    assert s[..a] == t && s[a..] == d1;
    var g := [s[a..], "", ""];
    assert [t] + g + [""] == [t, d1, "", "", ""];
    assert MatchAt(s, a) == Some(Match(a, |s|, g)) by {
      forall i | a <= i < |s| ensures IsDigit(s[i]) {
        assert s[i] == s[a..][i - a];
      }
      MatchAtMajor(s, a);
    }
    assert IsDigit(s[a]) by {
      assert s[a] == d1[0];
    }
    ReSplitFinal(s, t, g);
  }

  /** `re.split` cuts `<op><major>.<minor>.<micro>` into the operator, the three numbers and an empty tail. */
  lemma ReSplitMajorMinorMicro(t: string, d1: string, d2: string, d3: string)
    requires NoDigitOrSpace(t)
    requires d1 != [] && d2 != [] && d3 != [] && AllDigits(d1) && AllDigits(d2) && AllDigits(d3)
    ensures ReSplit(t + d1 + "." + d2 + "." + d3) == [t, d1, d2, d3, ""]
  {
    var s := t + d1 + "." + d2 + "." + d3;
    var a := |t|;
    var b := a + |d1|;
    var c := b + 1 + |d2|;
    assert s[..a] == t;
    assert s[a..b] == d1;
    assert s[b + 1..c] == d2;
    assert s[c + 1..] == d3;
    ThreeNumbersLayout(s, t, d1, d2, d3);
  }

  /** The split of a spec laid out as operator text and "major.minor.micro", read off its slices. */
  lemma ThreeNumbersLayout(s: string, t: string, d1: string, d2: string, d3: string)
    requires NoDigitOrSpace(t)
    requires d1 != [] && d2 != [] && d3 != [] && AllDigits(d1) && AllDigits(d2) && AllDigits(d3)
    requires |s| == |t| + |d1| + 1 + |d2| + 1 + |d3|
    requires s[..|t|] == t && s[|t|..|t| + |d1|] == d1 && s[|t| + |d1|] == '.'
    requires s[|t| + |d1| + 1..|t| + |d1| + 1 + |d2|] == d2 && s[|t| + |d1| + 1 + |d2|] == '.'
    requires s[|t| + |d1| + 1 + |d2| + 1..] == d3
    ensures ReSplit(s) == [t, d1, d2, d3, ""]
  {
    var a := |t|;
    var b := a + |d1|;
    var c := b + 1 + |d2|;
    var g := [s[a..b], s[b + 1..c], s[c + 1..]];
    assert g == [d1, d2, d3];
    assert [t] + g + [""] == [t, d1, d2, d3, ""];
    assert MatchAt(s, a) == Some(Match(a, |s|, g)) by {
      forall i | a <= i < b ensures IsDigit(s[i]) {
        assert s[i] == s[a..b][i - a];
      }
      forall i | b < i < c ensures IsDigit(s[i]) {
        assert s[i] == s[b + 1..c][i - b - 1];
      }
      forall i | c < i < |s| ensures IsDigit(s[i]) {
        assert s[i] == s[c + 1..][i - c - 1];
      }
      MatchAtThreeNumbers(s, a, b, c);
    }
    assert IsDigit(s[a]) by {
      assert s[a] == d1[0];
    }
    ReSplitFinal(s, t, g);
  }

  lemma RequiredMajor(d1: string)
    requires d1 != [] && AllDigits(d1)
    ensures RequiredVersion([d1, "", "", ""]) == Some([DigitsValue(d1)])
  {
    assert RequiredVersion([""]) == Some([]);
    assert RequiredVersion(["", ""]) == Some([]) by {
      assert ["", ""][1..] == [""];
    }
    assert RequiredVersion(["", "", ""]) == Some([]) by {
      assert ["", "", ""][1..] == ["", ""];
    }
    assert [d1, "", "", ""][1..] == ["", "", ""];
    assert [DigitsValue(d1)] + [] == [DigitsValue(d1)];
  }

  lemma RequiredMajorMinorMicro(d1: string, d2: string, d3: string)
    requires d1 != [] && d2 != [] && d3 != [] && AllDigits(d1) && AllDigits(d2) && AllDigits(d3)
    ensures RequiredVersion([d1, d2, d3, ""]) == Some([DigitsValue(d1), DigitsValue(d2), DigitsValue(d3)])
  {
    assert RequiredVersion([""]) == Some([]);
    assert RequiredVersion([d3, ""]) == Some([DigitsValue(d3)]) by {
      assert [d3, ""][1..] == [""];
      assert [DigitsValue(d3)] + [] == [DigitsValue(d3)];
    }
    assert RequiredVersion([d2, d3, ""]) == Some([DigitsValue(d2), DigitsValue(d3)]) by {
      assert [d2, d3, ""][1..] == [d3, ""];
      assert [DigitsValue(d2)] + [DigitsValue(d3)] == [DigitsValue(d2), DigitsValue(d3)];
    }
    assert [d1, d2, d3, ""][1..] == [d2, d3, ""];
    assert [DigitsValue(d1)] + [DigitsValue(d2), DigitsValue(d3)] == [DigitsValue(d1), DigitsValue(d2), DigitsValue(d3)];
  }

  lemma RequiredMajorMinor(d1: string, d2: string)
    requires d1 != [] && d2 != [] && AllDigits(d1) && AllDigits(d2)
    ensures RequiredVersion([d1, d2, "", ""]) == Some([DigitsValue(d1), DigitsValue(d2)])
  {
    assert RequiredVersion([""]) == Some([]);
    assert RequiredVersion(["", ""]) == Some([]) by {
      assert ["", ""][1..] == [""];
    }
    assert RequiredVersion([d2, "", ""]) == Some([DigitsValue(d2)]) by {
      assert [d2, "", ""][1..] == ["", ""];
      assert [d2, "", ""][0] == d2 != "";
      assert [DigitsValue(d2)] + [] == [DigitsValue(d2)];
    }
    assert [d1, d2, "", ""][0] == d1 != "";
    assert [DigitsValue(d1)] + [DigitsValue(d2)] == [DigitsValue(d1), DigitsValue(d2)];
    assert [d1, d2, "", ""][1..] == [d2, "", ""];
  }

  /**
    For such a spec the check holds exactly when the interpreter's version
    tuple compares with (major, minor) as the operator says.
   */
  lemma SupportedMajorMinor(op: Op, d1: string, d2: string, inUse: seq<nat>)
    requires d1 != [] && d2 != [] && AllDigits(d1) && AllDigits(d2)
    ensures IsSupportedPython(OpText(op) + d1 + "." + d2, inUse) == Some(Holds(op, inUse, [DigitsValue(d1), DigitsValue(d2)]))
  {
    ParseMajorMinor(op, d1, d2);
  }

  /** `>=3.8` holds for a (major, minor, micro) version exactly when it is 3.8 or later. */
  lemma AtLeastThreeEight(inUse: seq<nat>)
    requires |inUse| == 3
    ensures IsSupportedPython(">=3.8", inUse) == Some(inUse[0] > 3 || (inUse[0] == 3 && inUse[1] >= 8))
  {
    assert Holds(Ge, inUse, [3, 8]) == (inUse[0] > 3 || (inUse[0] == 3 && inUse[1] >= 8)) by {
      assert inUse == [inUse[0]] + inUse[1..];
      assert inUse[1..] == [inUse[1]] + inUse[2..];
    }
    assert OpText(Ge) + "3" + "." + "8" == ">=3.8";
    assert DigitsValue("3") == 3 && DigitsValue("8") == 8;
    SupportedMajorMinor(Ge, "3", "8", inUse);
  }

}
