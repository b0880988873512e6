/**
  The order in which the connect loop tries its lines, round after round, while the
  candidates stay the same.
 */
module Failover {
  import opened Wrappers

  datatype Line = Line(id: string, connectable: bool)

  function Connectable(lines: seq<Line>): (r: seq<Line>)
    ensures forall l :: l in r <==> l in lines && l.connectable
  {
    if lines == [] then []
    else
      assert lines == [lines[0]] + lines[1..];
      if lines[0].connectable then [lines[0]] + Connectable(lines[1..]) else Connectable(lines[1..])
  }

  ghost predicate DistinctIds(lines: seq<Line>) {
    forall i, j :: 0 <= i < j < |lines| ==> lines[i].id != lines[j].id
  }

  /** The first place of an id, or the length where it has none. */
  function PlaceOf(lines: seq<Line>, id: string): (i: nat)
    ensures i <= |lines|
    ensures i < |lines| ==> lines[i].id == id
    ensures forall j :: 0 <= j < i ==> lines[j].id != id
  {
    if lines == [] then 0
    else if lines[0].id == id then 0
    else 1 + PlaceOf(lines[1..], id)
  }

  function Last(s: seq<Line>): (l: Line)
    requires s != []
  {
    s[|s| - 1]
  }

  /** The next round starts behind the line the last one ended on. */
  function RotateAfter(cands: seq<Line>, last: string): (r: seq<Line>) {
    var i := PlaceOf(cands, last);
    if i < |cands| then cands[i + 1..] + cands[..i + 1] else cands
  }

  /** The first round starts with the line that was up last, if it is there. */
  function OrderFirst(cands: seq<Line>, lastGood: string): (r: seq<Line>) {
    if cands == [] then []
    else
      var i := 1 + PlaceOf(cands[1..], lastGood);
      if i < |cands| then [cands[i]] + cands[..i] + cands[i + 1..] else cands
  }

  /** The k-th full round over the same candidates. */
  function Round(cands: seq<Line>, lastGood: string, k: nat): (r: seq<Line>)
    ensures |r| == |cands|
  {
    if cands == [] then []
    else if k == 0 then OrderFirst(cands, lastGood)
    else RotateAfter(cands, Last(Round(cands, lastGood, k - 1)).id)
  }

  function Rounds(cands: seq<Line>, lastGood: string): (f: nat -> seq<Line>) {
    (k: nat) => Round(cands, lastGood, k)
  }

  /** Every try of `m` rounds from the k-th on. */
  function Tries(rounds: nat -> seq<Line>, k: nat, m: nat): (t: seq<Line>)
    decreases m
  {
    if m == 0 then [] else rounds(k) + Tries(rounds, k + 1, m - 1)
  }

  lemma RotateIsPermutation(cands: seq<Line>, last: string)
    ensures multiset(RotateAfter(cands, last)) == multiset(cands)
  {
    var i := PlaceOf(cands, last);
    if i < |cands| {
      assert cands == cands[..i + 1] + cands[i + 1..];
    }
  }

  lemma FirstOut(cands: seq<Line>, i: nat)
    requires i < |cands|
    ensures multiset([cands[i]] + cands[..i] + cands[i + 1..]) == multiset(cands)
  {
    assert cands == cands[..i] + [cands[i]] + cands[i + 1..];
  }

  lemma OrderIsPermutation(cands: seq<Line>, lastGood: string)
    ensures multiset(OrderFirst(cands, lastGood)) == multiset(cands)
  {
    if cands != [] {
      var i := 1 + PlaceOf(cands[1..], lastGood);
      if i < |cands| {
        FirstOut(cands, i);
        assert OrderFirst(cands, lastGood) == [cands[i]] + cands[..i] + cands[i + 1..];
      } else {
        assert OrderFirst(cands, lastGood) == cands;
      }
    }
  }

  /** The line that was up last, where it is a candidate, is tried first, and the others
      in the order they have. */
  lemma GoodLineComesFirst(cands: seq<Line>, lastGood: string, i: nat)
    requires DistinctIds(cands) && i < |cands| && cands[i].id == lastGood
    ensures var r := Round(cands, lastGood, 0);
            r[0] == cands[i] && r[1..] == cands[..i] + cands[i + 1..]
  {
    if i > 0 {
      assert cands[1..][i - 1] == cands[i];
      assert PlaceOf(cands[1..], lastGood) == i - 1;
    } else {
      assert forall j :: 0 <= j < |cands| - 1 ==> cands[1..][j] == cands[j + 1];
    }
  }

  lemma {:induction false} NextIsRotation(cands: seq<Line>, lastGood: string, k: nat)
    requires cands != []
    ensures Round(cands, lastGood, k + 1) == RotateAfter(cands, Last(Round(cands, lastGood, k)).id)
  {
  }

  /** Every round tries every candidate, exactly as often as it is listed. */
  lemma {:induction false} RoundTriesEachOnce(cands: seq<Line>, lastGood: string, k: nat)
    requires cands != []
    ensures multiset(Round(cands, lastGood, k)) == multiset(cands)
  {
    if k == 0 {
      OrderIsPermutation(cands, lastGood);
    } else {
      RotateIsPermutation(cands, Last(Round(cands, lastGood, k - 1)).id);
    }
  }

  function CanConnect(): (p: Line -> bool)
    ensures forall l :: p(l) <==> l.connectable
  {
    (l: Line) => l.connectable
  }

  /** The lines that can be connected keep their order. */
  lemma {:induction false} ConnectableInOrder(lines: seq<Line>)
    ensures Connectable(lines) == Filter(lines, CanConnect())
  {
    if lines != [] {
      ConnectableInOrder(lines[1..]);
    }
  }

  /** A later round is the candidates in their order, read round from behind the line the
      last one ended on; and where that is gone, from the start. */
  lemma RotationIs(cands: seq<Line>, last: string, i: nat, k: nat)
    requires DistinctIds(cands) && i < |cands| && cands[i].id == last && k < |cands|
    ensures |RotateAfter(cands, last)| == |cands|
    ensures RotateAfter(cands, last)[k] == cands[(i + 1 + k) % |cands|]
  {
    assert PlaceOf(cands, last) == i;
    OnceRound(i + 1 + k, |cands|);
  }

  lemma OnceRound(x: nat, n: nat)
    requires 0 < n && x < 2 * n
    ensures x % n == if x < n then x else x - n
  {
    if x >= n {
      assert x == n + (x - n);
      assert x / n == 1;
    }
  }

  lemma UnknownLineKeepsOrder(cands: seq<Line>, id: string)
    requires forall i :: 0 <= i < |cands| ==> cands[i].id != id
    ensures RotateAfter(cands, id) == cands && OrderFirst(cands, id) == cands
  {
    if cands != [] {
      var rest := cands[1..];
      assert forall i :: 0 <= i < |rest| ==> rest[i].id != id;
    }
  }

  lemma {:induction false} ConnectableOnce(lines: seq<Line>)
    requires DistinctIds(lines)
    ensures DistinctIds(Connectable(lines))
  {
    if lines != [] {
      var rest := Connectable(lines[1..]);
      ConnectableOnce(lines[1..]);
      assert forall i :: 0 <= i < |rest| ==> rest[i] in rest && rest[i] in lines[1..];
    }
  }

  lemma {:induction false} CountOnce(lines: seq<Line>, l: Line)
    requires DistinctIds(lines)
    ensures multiset(lines)[l] == if l in lines then 1 else 0
  {
    if lines != [] {
      var front, last := lines[..|lines| - 1], lines[|lines| - 1];
      assert lines == front + [last];
      CountOnce(front, l);
      assert last !in front;
    }
  }

  /** Every round tries each line that can be connected once, and no other. */
  lemma RoundTriesTheConnectable(lines: seq<Line>, lastGood: string, k: nat, l: Line)
    requires DistinctIds(lines) && Connectable(lines) != []
    ensures multiset(Round(Connectable(lines), lastGood, k))[l] == if l in lines && l.connectable then 1 else 0
  {
    RoundTriesEachOnce(Connectable(lines), lastGood, k);
    ConnectableOnce(lines);
    CountOnce(Connectable(lines), l);
  }

  lemma RotateEndsOn(cands: seq<Line>, l: Line)
    requires DistinctIds(cands) && l in cands
    ensures RotateAfter(cands, l.id) != [] && Last(RotateAfter(cands, l.id)) == l
  {
    var i :| 0 <= i < |cands| && cands[i] == l;
    assert PlaceOf(cands, l.id) == i;
  }

  /** The line a round ended on is tried last in the next. */
  lemma {:induction false} LastComesLast(cands: seq<Line>, lastGood: string, k: nat)
    requires cands != [] && DistinctIds(cands)
    ensures Last(Round(cands, lastGood, k + 1)) == Last(Round(cands, lastGood, k))
  {
    var before := Round(cands, lastGood, k);
    RoundTriesEachOnce(cands, lastGood, k);
    assert Last(before) in multiset(before);
    RotateEndsOn(cands, Last(before));
    NextIsRotation(cands, lastGood, k);
  }

  lemma {:induction false} RoundRepeats(cands: seq<Line>, lastGood: string, k: nat)
    requires cands != [] && DistinctIds(cands)
    ensures Round(cands, lastGood, k + 2) == Round(cands, lastGood, k + 1)
  {
    LastComesLast(cands, lastGood, k);
    NextIsRotation(cands, lastGood, k);
    NextIsRotation(cands, lastGood, k + 1);
    SameRotation(cands, Round(cands, lastGood, k), Round(cands, lastGood, k + 1), Round(cands, lastGood, k + 2));
  }

  /** From the second round on the order does not change any more. */
  lemma {:induction false} RoundsRepeat(cands: seq<Line>, lastGood: string, k: nat)
    requires cands != [] && DistinctIds(cands) && k >= 1
    ensures Round(cands, lastGood, k) == Round(cands, lastGood, 1)
  {
    if k > 1 {
      RoundsRepeat(cands, lastGood, k - 1);
      RoundRepeats(cands, lastGood, k - 2);
    }
  }

  lemma SameRotation(cands: seq<Line>, a: seq<Line>, b: seq<Line>, c: seq<Line>)
    requires a != [] && b != [] && Last(a) == Last(b)
    requires b == RotateAfter(cands, Last(a).id) && c == RotateAfter(cands, Last(b).id)
    ensures c == b
  {
  }

  /** Of the tries from the i-th on, the next |cands| are every candidate once, and
      then the i-th line has its turn again. */
  ghost predicate TurnsAt(t: seq<Line>, cands: seq<Line>, i: nat) {
    var n := |cands|;
    && i + n <= |t| && multiset(t[i..i + n]) == multiset(cands)
    && (0 < n && i + n < |t| ==> t[i + n] == t[i])
  }

  ghost function Copies(r: seq<Line>, m: nat): (t: seq<Line>) {
    if m == 0 then [] else r + Copies(r, m - 1)
  }

  lemma {:induction false} TriesAreCopies(rounds: nat -> seq<Line>, r: seq<Line>, k: nat, m: nat)
    requires forall j: nat :: j >= k ==> rounds(j) == r
    ensures Tries(rounds, k, m) == Copies(r, m)
    decreases m
  {
    if m > 0 {
      TriesAreCopies(rounds, r, k + 1, m - 1);
    }
  }

  /** A window of one copy's length over copies of `r` holds `r` turned round. */
  lemma {:induction false} CopiesTurn(r: seq<Line>, m: nat, i: nat)
    requires r != [] && i + |r| <= |Copies(r, m)|
    ensures TurnsAt(Copies(r, m), r, i)
    decreases m
  {
    var rest := Copies(r, m - 1);
    if i >= |r| {
      CopiesTurn(r, m - 1, i - |r|);
      WindowBehind(r, rest, i);
    } else {
      WindowOverTwo(r, rest, i);
    }
  }

  lemma WindowBehind(r: seq<Line>, rest: seq<Line>, i: nat)
    requires r != [] && |r| <= i <= |rest|
    ensures (r + rest)[i..i + |r|] == rest[i - |r|..i]
    ensures (r + rest)[i] == rest[i - |r|]
    ensures i < |rest| ==> (r + rest)[i + |r|] == rest[i]
  {
  }

  lemma WindowOverTwo(r: seq<Line>, rest: seq<Line>, i: nat)
    requires i < |r| && i <= |rest|
    requires rest == [] || (|rest| >= |r| && rest[..|r|] == r)
    ensures multiset((r + rest)[i..i + |r|]) == multiset(r)
    ensures i + |r| < |r + rest| ==> (r + rest)[i + |r|] == r[i]
  {
    if rest == [] {
      assert (r + rest)[i..i + |r|] == r;
    } else {
      assert rest[..i] == rest[..|r|][..i];
      assert (r + rest)[i..i + |r|] == r[i..] + r[..i];
      assert r == r[..i] + r[i..];
      assert (r + rest)[i + |r|] == rest[i] == rest[..|r|][i];
    }
  }

  /** Strict round robin from the second round on: a line is tried again exactly
      when every other has been tried once, at every place of the run. */
  lemma RoundRobin(cands: seq<Line>, lastGood: string, k: nat, m: nat, i: nat)
    requires cands != [] && DistinctIds(cands) && k >= 1
    requires i + |cands| <= |Tries(Rounds(cands, lastGood), k, m)|
    ensures TurnsAt(Tries(Rounds(cands, lastGood), k, m), cands, i)
  {
    var rounds := Rounds(cands, lastGood);
    var r := Round(cands, lastGood, 1);
    RoundTriesEachOnce(cands, lastGood, 1);
    forall j: nat | j >= k ensures rounds(j) == r {
      RoundsRepeat(cands, lastGood, j);
    }
    SameRounds(rounds, r, cands, k, m, i);
  }

  lemma SameRounds(rounds: nat -> seq<Line>, r: seq<Line>, cands: seq<Line>, k: nat, m: nat, i: nat)
    requires r != [] && |r| == |cands| && multiset(r) == multiset(cands)
    requires forall j: nat :: j >= k ==> rounds(j) == r
    requires i + |r| <= |Tries(rounds, k, m)|
    ensures TurnsAt(Tries(rounds, k, m), cands, i)
  {
    TriesAreCopies(rounds, r, k, m);
    CopiesTurn(r, m, i);
  }
}
