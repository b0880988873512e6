/** Texts of ASCII characters: trimming, case and splitting as the parsers do them. */
module Text {

  const NEWLINES: set<char> := {'\n', '\r', '\U{000B}', '\U{000C}'}
  const BLANKS: set<char> := {' ', '\t'}
  const WHITES: set<char> := {' ', '\t', '\n', '\r', '\U{000B}', '\U{000C}'}

  function TrimLeft(s: string, cs: set<char>): (r: string)
    ensures r != "" ==> r[0] !in cs
  {
    if s != "" && s[0] in cs then TrimLeft(s[1..], cs) else s
  }

  function TrimRight(s: string, cs: set<char>): (r: string)
    ensures r <= s
    ensures r != "" ==> r[|r| - 1] !in cs
  {
    if s != "" && s[|s| - 1] in cs then TrimRight(s[..|s| - 1], cs) else s
  }

  function Trim(s: string, cs: set<char>): (r: string)
    ensures r != "" ==> r[0] !in cs && r[|r| - 1] !in cs
  {
    TrimRight(TrimLeft(s, cs), cs)
  }

  function TrimSpace(s: string): (r: string) {
    Trim(s, WHITES)
  }

  lemma Trimmed(s: string, cs: set<char>)
    requires s != "" ==> s[0] !in cs && s[|s| - 1] !in cs
    ensures Trim(s, cs) == s
  {
  }

  ghost predicate AllIn(s: string, cs: set<char>) {
    forall i :: 0 <= i < |s| ==> s[i] in cs
  }

  lemma {:induction false} LeftPart(s: string, cs: set<char>)
    ensures |TrimLeft(s, cs)| <= |s| && s[|s| - |TrimLeft(s, cs)|..] == TrimLeft(s, cs)
    ensures AllIn(s[..|s| - |TrimLeft(s, cs)|], cs)
  {
    if s != "" && s[0] in cs {
      LeftPart(s[1..], cs);
      var n := |s| - |TrimLeft(s, cs)|;
      assert s[n..] == s[1..][n - 1..];
      assert s[..n] == [s[0]] + s[1..][..n - 1];
    }
  }

  lemma {:induction false} RightPart(s: string, cs: set<char>)
    ensures AllIn(s[|TrimRight(s, cs)|..], cs)
  {
    if s != "" && s[|s| - 1] in cs {
      var front := s[..|s| - 1];
      RightPart(front, cs);
      assert s[|TrimRight(s, cs)|..] == front[|TrimRight(s, cs)|..] + [s[|s| - 1]];
    }
  }

  /** Trimming takes off what belongs off at either end, and no more. */
  lemma TrimIs(s: string, cs: set<char>)
    ensures exists left, right ::
              AllIn(left, cs) && AllIn(right, cs) && s == left + Trim(s, cs) + right
    ensures var r := Trim(s, cs); r != "" ==> r[0] !in cs && r[|r| - 1] !in cs
  {
    var l := TrimLeft(s, cs);
    LeftPart(s, cs);
    RightPart(l, cs);
    var left, right := s[..|s| - |l|], l[|Trim(s, cs)|..];
    assert l == Trim(s, cs) + right && s == left + l;
    assert AllIn(left, cs) && AllIn(right, cs) && s == left + Trim(s, cs) + right;
  }

  lemma {:induction false} TrimLeftOff(left: string, s: string, cs: set<char>)
    requires AllIn(left, cs) && (s != "" ==> s[0] !in cs)
    ensures TrimLeft(left + s, cs) == s
  {
    if left == "" {
      assert left + s == s;
    } else {
      TrimLeftOff(left[1..], s, cs);
      assert (left + s)[1..] == left[1..] + s;
    }
  }

  lemma {:induction false} TrimRightOff(s: string, right: string, cs: set<char>)
    requires AllIn(right, cs) && (s != "" ==> s[|s| - 1] !in cs)
    ensures TrimRight(s + right, cs) == s
    decreases |right|
  {
    if right == "" {
      assert s + right == s;
    } else {
      TrimRightOff(s, right[..|right| - 1], cs);
      assert (s + right)[..|s + right| - 1] == s + right[..|right| - 1];
    }
  }

  /** What is put around a text comes off again. */
  lemma TrimOff(left: string, s: string, right: string, cs: set<char>)
    requires AllIn(left, cs) && AllIn(right, cs) && s != "" && s[0] !in cs && s[|s| - 1] !in cs
    ensures Trim(left + s + right, cs) == s
  {
    assert left + s + right == left + (s + right);
    TrimLeftOff(left, s + right, cs);
    TrimRightOff(s, right, cs);
  }

  function LowerChar(c: char): (r: char)
    ensures if 65 <= c as int <= 90 then r as int == c as int + 32 else r == c
  {
    if 'A' <= c <= 'Z' then c - 'A' + 'a' else c
  }

  function Lower(s: string): (r: string)
    ensures |r| == |s| && forall i :: 0 <= i < |s| ==> r[i] == LowerChar(s[i])
  {
    seq(|s|, i requires 0 <= i < |s| => LowerChar(s[i]))
  }

  /** Where the first of some characters is; the length where none is. */
  function FirstOf(s: string, cs: set<char>): (i: nat)
    ensures i <= |s| && (i < |s| ==> s[i] in cs)
    ensures forall k :: 0 <= k < i ==> s[k] !in cs
  {
    if s == "" || s[0] in cs then 0 else 1 + FirstOf(s[1..], cs)
  }

  lemma FirstOfIs(s: string, cs: set<char>, i: nat)
    requires i <= |s| && (i < |s| ==> s[i] in cs)
    requires forall k :: 0 <= k < i ==> s[k] !in cs
    ensures FirstOf(s, cs) == i
  {
  }

  /** The parts between separators, none empty. */
  function Split(s: string, cs: set<char>): (parts: seq<string>)
    ensures forall i :: 0 <= i < |parts| ==> parts[i] != ""
    decreases |s|
  {
    if s == "" then []
    else if s[0] in cs then Split(s[1..], cs)
    else [s[..FirstOf(s, cs)]] + Split(s[FirstOf(s, cs)..], cs)
  }

  /** A stretch without separators, with one or an end on each side. */
  ghost predicate Stretch(s: string, cs: set<char>, i: int, j: int) {
    && 0 <= i < j <= |s|
    && (forall k :: i <= k < j ==> s[k] !in cs)
    && (i > 0 ==> s[i - 1] in cs)
    && (j < |s| ==> s[j] in cs)
  }

  ghost predicate HasStretch(s: string, cs: set<char>, x: string) {
    exists i, j :: Stretch(s, cs, i, j) && s[i..j] == x
  }

  lemma StretchLater(s: string, cs: set<char>, d: nat, i: int, j: int)
    requires d < |s| && d <= i
    requires i == d ==> s[d] in cs || (d > 0 && s[d - 1] in cs)
    ensures Stretch(s, cs, i, j) <==> Stretch(s[d..], cs, i - d, j - d)
    ensures Stretch(s, cs, i, j) ==> s[i..j] == s[d..][i - d..j - d]
  {
    if 0 <= i < j <= |s| {
      assert forall k :: i <= k < j ==> s[k] == s[d..][k - d];
      assert i > d ==> s[i - 1] == s[d..][i - d - 1];
      assert j < |s| ==> s[j] == s[d..][j - d];
    }
  }

  /** The stretches past a point that a separator is at, on either side. */
  lemma StretchesFrom(s: string, cs: set<char>, d: nat, x: string)
    requires d < |s| && (s[d] in cs || (d > 0 && s[d - 1] in cs))
    ensures HasStretch(s[d..], cs, x) <==> exists i, j :: d <= i && Stretch(s, cs, i, j) && s[i..j] == x
  {
    if i, j :| Stretch(s[d..], cs, i, j) && s[d..][i..j] == x {
      StretchLater(s, cs, d, i + d, j + d);
    }
    if i, j :| d <= i && Stretch(s, cs, i, j) && s[i..j] == x {
      StretchLater(s, cs, d, i, j);
    }
  }

  /** Splitting gives exactly the stretches. */
  lemma {:induction false} SplitIs(s: string, cs: set<char>, x: string)
    ensures x in Split(s, cs) <==> HasStretch(s, cs, x)
    decreases |s|
  {
    if s != "" {
      var f := FirstOf(s, cs);
      if f == 0 {
        SplitIs(s[1..], cs, x);
        if |s| > 1 {
          StretchesFrom(s, cs, 1, x);
        }
      } else {
        assert forall i, j :: Stretch(s, cs, i, j) && i < f ==> i == 0 && j == f;
        assert Stretch(s, cs, 0, f);
        SplitIs(s[f..], cs, x);
        if f < |s| {
          StretchesFrom(s, cs, f, x);
        }
      }
    }
  }

  // ---------------------------------------------------------------------
  // The stretches in their order

  function Shifted(starts: seq<nat>, offset: nat): (r: seq<nat>)
    ensures |r| == |starts| && forall k :: 0 <= k < |r| ==> r[k] == starts[k] + offset
  {
    seq(|starts|, k requires 0 <= k < |starts| => starts[k] + offset)
  }

  /** Where the parts of a split begin. */
  function Starts(s: string, cs: set<char>): (starts: seq<nat>)
    ensures |starts| == |Split(s, cs)|
    decreases |s|
  {
    if s == "" then []
    else if s[0] in cs then Shifted(Starts(s[1..], cs), 1)
    else [0] + Shifted(Starts(s[FirstOf(s, cs)..], cs), FirstOf(s, cs))
  }

  ghost predicate PartAt(s: string, cs: set<char>, part: string, at: nat) {
    Stretch(s, cs, at, at + |part|) && s[at..at + |part|] == part
  }

  lemma PartLater(s: string, cs: set<char>, d: nat, part: string, at: nat)
    requires d < |s| && (s[d] in cs || (d > 0 && s[d - 1] in cs)) && PartAt(s[d..], cs, part, at)
    ensures PartAt(s, cs, part, at + d)
  {
    StretchLater(s, cs, d, at + d, at + d + |part|);
  }

  lemma SkipSeparator(s: string, cs: set<char>)
    requires s != "" && s[0] in cs
    ensures Split(s, cs) == Split(s[1..], cs) && Starts(s, cs) == Shifted(Starts(s[1..], cs), 1)
  {
  }

  lemma TakePart(s: string, cs: set<char>)
    requires s != "" && s[0] !in cs
    ensures var f := FirstOf(s, cs);
            && Split(s, cs) == [s[..f]] + Split(s[f..], cs)
            && Starts(s, cs) == [0] + Shifted(Starts(s[f..], cs), f)
            && PartAt(s, cs, s[..f], 0)
  {
  }

  /** Every part is a stretch that lies where it is said to begin. */
  ghost predicate Placed(s: string, cs: set<char>, parts: seq<string>, starts: seq<nat>) {
    |parts| == |starts| && forall k :: 0 <= k < |parts| ==> PartAt(s, cs, parts[k], starts[k])
  }

  /** Each part begins behind the end of the one before. */
  ghost predicate Ascending(parts: seq<string>, starts: seq<nat>) {
    && |parts| == |starts|
    && forall k, m :: 0 <= k < |parts| && m == k + 1 < |parts| ==> starts[k] + |parts[k]| < starts[m]
  }

  lemma PlacedLater(s: string, cs: set<char>, d: nat, parts: seq<string>, starts: seq<nat>)
    requires d < |s| && (s[d] in cs || (d > 0 && s[d - 1] in cs))
    requires Placed(s[d..], cs, parts, starts) && Ascending(parts, starts)
    ensures Placed(s, cs, parts, Shifted(starts, d)) && Ascending(parts, Shifted(starts, d))
  {
    forall k | 0 <= k < |parts| ensures PartAt(s, cs, parts[k], Shifted(starts, d)[k]) {
      PartLater(s, cs, d, parts[k], starts[k]);
    }
  }

  lemma PlacedFirst(s: string, cs: set<char>, part: string, parts: seq<string>, starts: seq<nat>)
    requires PartAt(s, cs, part, 0) && Placed(s, cs, parts, starts)
    requires Ascending(parts, starts) && (parts != [] ==> |part| < starts[0])
    ensures Placed(s, cs, [part] + parts, [0] + starts) && Ascending([part] + parts, [0] + starts)
  {
  }

  /** The k-th part is the k-th stretch: the parts lie one behind the other. */
  lemma {:induction false} SplitInOrder(s: string, cs: set<char>)
    ensures Placed(s, cs, Split(s, cs), Starts(s, cs)) && Ascending(Split(s, cs), Starts(s, cs))
    decreases |s|
  {
    if s != "" {
      if s[0] in cs {
        SkipSeparator(s, cs);
        SplitInOrder(s[1..], cs);
        if |s| > 1 {
          PlacedLater(s, cs, 1, Split(s[1..], cs), Starts(s[1..], cs));
        }
      } else {
        TakePart(s, cs);
        var f := FirstOf(s, cs);
        var parts, starts := Split(s[f..], cs), Starts(s[f..], cs);
        SplitInOrder(s[f..], cs);
        if f < |s| {
          PlacedLater(s, cs, f, parts, starts);
          if parts != [] {
            PartBehind(s, cs, f, parts[0], starts[0]);
          }
        }
        PlacedFirst(s, cs, s[..f], parts, Shifted(starts, f));
      }
    }
  }

  /** A part found behind the first separator lies past it. */
  lemma PartBehind(s: string, cs: set<char>, f: nat, part: string, at: nat)
    requires f < |s| && s[f] in cs && PartAt(s[f..], cs, part, at)
    ensures at > 0 && PartAt(s, cs, part, at + f)
  {
    PartLater(s, cs, f, part, at);
    assert s[f..][0] in cs;
  }
}
