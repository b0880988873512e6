/**
  The mapped-DNS cache as a value: bindings of names to slots, the least
  recently touched binding first.  `Find` and `Lookup` say what one call does to
  it; the theorems below say what any run of calls does to one name.
 */
module LruCache {
  import opened Wrappers
  import opened Bytes

  datatype Binding = Binding(name: Name, slot: nat)

  /** Least recently touched first. */
  type Cache = seq<Binding>

  datatype Event =
    | FindName(name: Name)
    | LookupSlot(slot: nat)

  ghost predicate DistinctNames(c: Cache) {
    forall i, j :: 0 <= i < j < |c| ==> c[i].name != c[j].name
  }

  ghost predicate DistinctSlots(c: Cache) {
    forall i, j :: 0 <= i < j < |c| ==> c[i].slot != c[j].slot
  }

  /** One bijection between the names and the slots below |c|, within the bound. */
  ghost predicate Valid(c: Cache, max: nat) {
    && |c| <= max
    && DistinctNames(c)
    && DistinctSlots(c)
    && (forall i :: 0 <= i < |c| ==> c[i].slot < |c|)
  }

  ghost predicate Has(c: Cache, name: Name) {
    exists i :: 0 <= i < |c| && c[i].name == name
  }

  ghost predicate HasSlot(c: Cache, slot: nat) {
    exists i :: 0 <= i < |c| && c[i].slot == slot
  }

  ghost function PositionOf(c: Cache, name: Name): (i: nat)
    requires Has(c, name)
    ensures i < |c| && c[i].name == name
  {
    var i :| 0 <= i < |c| && c[i].name == name;
    i
  }

  ghost function PositionOfSlot(c: Cache, slot: nat): (i: nat)
    requires HasSlot(c, slot)
    ensures i < |c| && c[i].slot == slot
  {
    var i :| 0 <= i < |c| && c[i].slot == slot;
    i
  }

  function Touch(c: Cache, i: nat): (r: Cache)
    requires i < |c|
    ensures |r| == |c| && multiset(r) == multiset(c)
  {
    assert c == c[..i] + [c[i]] + c[i + 1..];
    c[..i] + c[i + 1..] + [c[i]]
  }

  ghost function Find(c: Cache, max: nat, name: Name): (r: (Cache, nat))
    requires max > 0
  {
    if Has(c, name) then
      var i := PositionOf(c, name);
      (Touch(c, i), c[i].slot)
    else if |c| < max then
      (c + [Binding(name, |c|)], |c|)
    else
      (c[1..] + [Binding(name, c[0].slot)], c[0].slot)
  }

  ghost function Lookup(c: Cache, slot: nat): (r: (Cache, Option<Name>)) {
    if HasSlot(c, slot) then
      var i := PositionOfSlot(c, slot);
      (Touch(c, i), Some(c[i].name))
    else
      (c, None)
  }

  /** The cache after one event, and the name the event touched, if any. */
  ghost function Step(c: Cache, max: nat, e: Event): (r: (Cache, Option<Name>))
    requires max > 0
  {
    match e
    case FindName(name) => (Find(c, max, name).0, Some(name))
    case LookupSlot(slot) => Lookup(c, slot)
  }

  ghost function Run(c: Cache, max: nat, events: seq<Event>): (r: Cache)
    requires max > 0
    decreases |events|
  {
    if events == [] then c
    else Run(Step(c, max, events[0]).0, max, events[1..])
  }

  /** The names touched in a run. */
  ghost function Touched(c: Cache, max: nat, events: seq<Event>): (names: set<Name>)
    requires max > 0
    decreases |events|
  {
    if events == [] then {}
    else
      var (c', t) := Step(c, max, events[0]);
      Extend(Touched(c', max, events[1..]), t)
  }

  ghost function Extend(t: set<Name>, touched: Option<Name>): set<Name> {
    if touched.Some? then t + {touched.value} else t
  }

  // ---------------------------------------------------------------------
  // Every step keeps the bijection

  lemma TouchAt(c: Cache, i: nat)
    requires i < |c|
    ensures forall k :: 0 <= k < i ==> Touch(c, i)[k] == c[k]
    ensures forall k :: i <= k < |c| - 1 ==> Touch(c, i)[k] == c[k + 1]
    ensures Touch(c, i)[|c| - 1] == c[i]
  {
  }

  lemma TouchKeepsValid(c: Cache, max: nat, i: nat)
    requires i < |c|
    requires Valid(c, max)
    ensures Valid(Touch(c, i), max)
  {
    TouchAt(c, i);
  }

  lemma StepKeepsValid(c: Cache, max: nat, e: Event)
    requires max > 0
    requires Valid(c, max)
    ensures Valid(Step(c, max, e).0, max)
  {
    match e
    case FindName(name) =>
      if Has(c, name) {
        TouchKeepsValid(c, max, PositionOf(c, name));
      }
    case LookupSlot(slot) =>
      if HasSlot(c, slot) {
        TouchKeepsValid(c, max, PositionOfSlot(c, slot));
      }
  }

  /** Over any run the names and the slots stay one bijection within the bound. */
  lemma {:induction false} RunKeepsValid(c: Cache, max: nat, events: seq<Event>)
    requires max > 0
    requires Valid(c, max)
    ensures Valid(Run(c, max, events), max)
    decreases |events|
  {
    if events != [] {
      StepKeepsValid(c, max, events[0]);
      RunKeepsValid(Step(c, max, events[0]).0, max, events[1..]);
    }
  }

  // ---------------------------------------------------------------------
  // How long a name keeps its slot

  ghost function Names(c: Cache): (names: set<Name>) {
    set b | b in c :: b.name
  }

  /** The names touched more recently than the one at position p. */
  ghost function After(c: Cache, p: nat): (names: set<Name>)
    requires p < |c|
  {
    Names(c[p + 1..])
  }

  lemma NamesConcat(a: Cache, b: Cache)
    ensures Names(a + b) == Names(a) + Names(b)
  {
    assert forall x :: x in a + b <==> x in a || x in b;
  }

  lemma NamesTouch(c: Cache, i: nat)
    requires i < |c|
    ensures Names(Touch(c, i)) == Names(c)
  {
    assert forall x :: x in Touch(c, i) <==> x in multiset(Touch(c, i));
    assert forall x :: x in c <==> x in multiset(c);
  }

  lemma {:induction false} NamesCount(c: Cache)
    requires DistinctNames(c)
    ensures |Names(c)| == |c|
  {
    if c == [] {
      assert Names(c) == {};
    } else {
      NamesCount(c[1..]);
      assert c == [c[0]] + c[1..];
      NamesConcat([c[0]], c[1..]);
      assert Names([c[0]]) == {c[0].name};
    }
  }

  lemma AfterCount(c: Cache, p: nat)
    requires p < |c|
    requires DistinctNames(c)
    ensures |After(c, p)| == |c| - p - 1
  {
    NamesCount(c[p + 1..]);
  }

  /** Name `n` is bound to `slot`, and the names more recent than it are exactly `t`. */
  ghost predicate Holds(c: Cache, n: Name, slot: nat, t: set<Name>) {
    exists p :: 0 <= p < |c| && c[p] == Binding(n, slot) && After(c, p) == t
  }

  /** What is known of a name some time after its last touch: it is held with the
      names `t` touched since behind it, or `max` names pushed it out. */
  ghost predicate Tracked(c: Cache, max: nat, n: Name, slot: nat, t: set<Name>) {
    if |t| < max then Holds(c, n, slot, t) else !Has(c, n)
  }

  /** Touching another binding puts its name behind the one at p, and moves that
      one down by one place at most. */
  lemma TouchMoves(c: Cache, i: nat, p: nat)
    requires i < |c| && p < |c| && i != p
    ensures var q := if i < p then p - 1 else p;
            && Touch(c, i)[q] == c[p]
            && After(Touch(c, i), q) == After(c, p) + {c[i].name}
  {
    var d := Touch(c, i);
    TouchAt(c, i);
    assert Names([c[i]]) == {c[i].name};
    if i < p {
      assert d[p..] == c[p + 1..] + [c[i]];
      NamesConcat(c[p + 1..], [c[i]]);
    } else {
      var tail := c[p + 1..];
      var j := i - p - 1;
      assert tail[j] == c[i];
      assert d[p + 1..] == Touch(tail, j);
      NamesTouch(tail, j);
    }
  }

  lemma TouchOther(c: Cache, max: nat, i: nat, n: Name, slot: nat, t: set<Name>)
    requires i < |c|
    requires Valid(c, max)
    requires c[i].name != n
    requires Holds(c, n, slot, t)
    ensures |t + {c[i].name}| < max
    ensures Holds(Touch(c, i), n, slot, t + {c[i].name})
  {
    var p :| 0 <= p < |c| && c[p] == Binding(n, slot) && After(c, p) == t;
    TouchMoves(c, i, p);
    TouchKeepsValid(c, max, i);
    AfterCount(Touch(c, i), if i < p then p - 1 else p);
  }

  lemma TouchGone(c: Cache, i: nat, n: Name)
    requires i < |c|
    requires !Has(c, n)
    ensures !Has(Touch(c, i), n)
  {
    TouchAt(c, i);
    forall k | 0 <= k < |c| ensures Touch(c, i)[k].name != n {
      var d := Touch(c, i)[k];
      assert d == c[if k < i then k else if k < |c| - 1 then k + 1 else i];
    }
  }

  /** A name inserted goes behind the one at p; that one goes only when it is the
      oldest of a full cache. */
  lemma InsertMoves(c: Cache, max: nat, name: Name, p: nat)
    requires max > 0 && |c| <= max
    requires !Has(c, name)
    requires p < |c|
    requires |c| < max || p > 0
    ensures var d := Find(c, max, name).0;
            var q := if |c| < max then p else p - 1;
            && q < |d| && d[q] == c[p]
            && After(d, q) == After(c, p) + {name}
  {
    var d := Find(c, max, name).0;
    var q := if |c| < max then p else p - 1;
    assert d[q + 1..] == c[p + 1..] + [d[|d| - 1]];
    NamesConcat(c[p + 1..], [d[|d| - 1]]);
    assert Names([d[|d| - 1]]) == {name};
  }

  lemma InsertGone(c: Cache, max: nat, name: Name, n: Name)
    requires max > 0 && |c| <= max
    requires name != n && !Has(c, name)
    requires forall i :: 0 <= i < |c| && (i > 0 || |c| < max) ==> c[i].name != n
    ensures !Has(Find(c, max, name).0, n)
  {
    var d := Find(c, max, name).0;
    forall k | 0 <= k < |d| ensures d[k].name != n {
      assert k < |d| - 1 ==> d[k] == c[if |c| < max then k else k + 1];
    }
  }

  lemma InsertHeld(c: Cache, max: nat, name: Name, n: Name, slot: nat, t: set<Name>)
    requires max > 0
    requires Valid(c, max)
    requires name != n && !Has(c, name)
    requires Holds(c, n, slot, t)
    ensures |t + {name}| < max ==> Holds(Find(c, max, name).0, n, slot, t + {name})
    ensures |t + {name}| >= max ==> !Has(Find(c, max, name).0, n)
  {
    var p :| 0 <= p < |c| && c[p] == Binding(n, slot) && After(c, p) == t;
    AfterCount(c, p);
    assert name !in t;
    assert |t + {name}| == |c| - p;
    if |c| < max || p > 0 {
      InsertMoves(c, max, name, p);
      HeldAt(Find(c, max, name).0, if |c| < max then p else p - 1, n, slot, t + {name});
    } else {
      InsertGone(c, max, name, n);
    }
  }

  lemma HeldAt(d: Cache, q: nat, n: Name, slot: nat, t: set<Name>)
    requires q < |d| && d[q] == Binding(n, slot) && After(d, q) == t
    ensures Holds(d, n, slot, t)
  {
  }

  lemma InsertOther(c: Cache, max: nat, name: Name, n: Name, slot: nat, t: set<Name>)
    requires max > 0
    requires Valid(c, max)
    requires name != n && !Has(c, name)
    requires Tracked(c, max, n, slot, t)
    ensures Tracked(Find(c, max, name).0, max, n, slot, t + {name})
  {
    if |t| < max {
      InsertHeld(c, max, name, n, slot, t);
    } else {
      SubsetSize(t, t + {name});
      InsertGone(c, max, name, n);
    }
  }

  /** One event that does not touch `n` keeps what is known of it. */
  lemma StepTracks(c: Cache, max: nat, e: Event, n: Name, slot: nat, t: set<Name>)
    requires max > 0
    requires Valid(c, max)
    requires Tracked(c, max, n, slot, t)
    requires Step(c, max, e).1 != Some(n)
    ensures Tracked(Step(c, max, e).0, max, n, slot, Extend(t, Step(c, max, e).1))
  {
    var touched := Step(c, max, e).1;
    if e.FindName? && !Has(c, e.name) {
      InsertOther(c, max, e.name, n, slot, t);
    } else if touched.Some? {
      var i := if e.FindName? then PositionOf(c, e.name) else PositionOfSlot(c, e.slot);
      assert Step(c, max, e).0 == Touch(c, i);
      if |t| < max {
        TouchOther(c, max, i, n, slot, t);
      } else {
        TouchGone(c, i, n);
        SubsetSize(t, t + {touched.value});
      }
    }
  }

  lemma ExtendEither(t: set<Name>, touched: Option<Name>, rest: set<Name>)
    ensures Extend(t, touched) + rest == t + Extend(rest, touched)
  {
  }

  lemma {:induction false} RunTracks(c: Cache, max: nat, events: seq<Event>, n: Name, slot: nat, t: set<Name>)
    requires max > 0
    requires Valid(c, max)
    requires Tracked(c, max, n, slot, t)
    requires n !in Touched(c, max, events)
    ensures Tracked(Run(c, max, events), max, n, slot, t + Touched(c, max, events))
    decreases |events|
  {
    if events == [] {
      assert t + Touched(c, max, events) == t;
    } else {
      var (c', touched) := Step(c, max, events[0]);
      StepKeepsValid(c, max, events[0]);
      StepTracks(c, max, events[0], n, slot, t);
      RunTracks(c', max, events[1..], n, slot, Extend(t, touched));
      ExtendEither(t, touched, Touched(c', max, events[1..]));
    }
  }

  /** A name just touched, and not touched again in a run, is still bound after the
      run exactly when fewer than `max` other names were touched in it; and then it
      is bound to the slot it had. */
  lemma NameKeepsSlot(c: Cache, max: nat, events: seq<Event>)
    requires max > 0
    requires Valid(c, max)
    requires c != []
    requires c[|c| - 1].name !in Touched(c, max, events)
    ensures var b := c[|c| - 1];
            var after := Run(c, max, events);
            && (Has(after, b.name) <==> |Touched(c, max, events)| < max)
            && (Has(after, b.name) ==> b in after)
  {
    var b := c[|c| - 1];
    assert After(c, |c| - 1) == {};
    assert Holds(c, b.name, b.slot, {});
    RunTracks(c, max, events, b.name, b.slot, {});
    assert {} + Touched(c, max, events) == Touched(c, max, events);
  }

  /** A name found is bound, as the most recent one, to the slot it is given; a
      lookup of that slot gives the name back. */
  lemma FoundThenLookedUp(c: Cache, max: nat, name: Name)
    requires max > 0
    requires Valid(c, max)
    ensures var (d, slot) := Find(c, max, name);
            && d != [] && d[|d| - 1] == Binding(name, slot)
            && slot < max
            && Lookup(d, slot).1 == Some(name)
  {
    var (d, slot) := Find(c, max, name);
    StepKeepsValid(c, max, FindName(name));
    if Has(c, name) {
      TouchAt(c, PositionOf(c, name));
    }
    assert d[|d| - 1] == Binding(name, slot);
  }

  // ---------------------------------------------------------------------
  // Several names found one after the other, as in one query

  ghost function FindAll(c: Cache, max: nat, names: seq<Name>): (r: (Cache, seq<nat>))
    requires max > 0
    ensures |r.1| == |names|
    decreases |names|
  {
    if names == [] then (c, [])
    else
      var (c1, slot) := Find(c, max, names[0]);
      var (c2, slots) := FindAll(c1, max, names[1..]);
      (c2, [slot] + slots)
  }

  lemma FindAllCons(c: Cache, max: nat, n: Name, names: seq<Name>)
    requires max > 0
    ensures var (c1, slot) := Find(c, max, n);
            var (c2, slots) := FindAll(c1, max, names);
            FindAll(c, max, [n] + names) == (c2, [slot] + slots)
  {
    assert ([n] + names)[1..] == names;
  }

  ghost predicate Bound(c: Cache, name: Name, slot: nat) {
    Binding(name, slot) in c
  }

  ghost function NameSet(names: seq<Name>): (r: set<Name>) {
    set m | m in names
  }

  lemma NameSetCons(names: seq<Name>)
    requires names != []
    ensures NameSet(names) == {names[0]} + NameSet(names[1..])
  {
    assert names == [names[0]] + names[1..];
  }

  /** Finding a name the cache holds makes it the most recent, in the same slot. */
  lemma FindHeld(c: Cache, max: nat, n: Name, slot: nat, t: set<Name>)
    requires max > 0
    requires Valid(c, max)
    requires Holds(c, n, slot, t)
    ensures Holds(Find(c, max, n).0, n, slot, {})
  {
    var p :| 0 <= p < |c| && c[p] == Binding(n, slot) && After(c, p) == t;
    assert PositionOf(c, n) == p;
    TouchAt(c, p);
    MostRecent(Find(c, max, n).0);
  }

  lemma MostRecent(c: Cache)
    requires c != []
    ensures Holds(c, c[|c| - 1].name, c[|c| - 1].slot, {})
  {
    assert After(c, |c| - 1) == {};
  }

  /** Finding another name, with room for it beside those found since. */
  lemma FindOther(c: Cache, max: nat, m: Name, n: Name, slot: nat, t: set<Name>)
    requires max > 0
    requires Valid(c, max)
    requires m != n
    requires Holds(c, n, slot, t)
    requires |t + {m}| < max
    ensures Holds(Find(c, max, m).0, n, slot, t + {m})
  {
    HeldCount(c, max, n, slot, t);
    StepTracks(c, max, FindName(m), n, slot, t);
  }

  /** A name found keeps its slot while the names found after it leave it room. */
  lemma {:induction false} FoundStays(c: Cache, max: nat, names: seq<Name>, n: Name, slot: nat, t: set<Name>)
    requires max > 0
    requires Valid(c, max)
    requires Holds(c, n, slot, t)
    requires |t + NameSet(names) - {n}| < max
    ensures Bound(FindAll(c, max, names).0, n, slot)
    decreases |names|
  {
    if names != [] {
      var m := names[0];
      var c1 := Find(c, max, m).0;
      var others := t + NameSet(names) - {n};
      var rest := names[1..];
      StepKeepsValid(c, max, FindName(m));
      NameSetCons(names);
      HeldCount(c, max, n, slot, t);
      var t1 := if m == n then {} else t + {m};
      SubsetSize(t1, others);
      if m == n {
        FindHeld(c, max, n, slot, t);
      } else {
        FindOther(c, max, m, n, slot, t);
      }
      SubsetSize(t1 + NameSet(rest) - {n}, others);
      FoundStays(c1, max, rest, n, slot, t1);
    }
  }

  lemma HeldCount(c: Cache, max: nat, n: Name, slot: nat, t: set<Name>)
    requires Valid(c, max)
    requires Holds(c, n, slot, t)
    ensures |t| < max && n !in t
  {
    var p :| 0 <= p < |c| && c[p] == Binding(n, slot) && After(c, p) == t;
    AfterCount(c, p);
  }

  /** With no more distinct names than the cache has room for, each is bound, after
      the last one, to the slot it was given. */
  lemma {:induction false} AllFoundAreBound(c: Cache, max: nat, names: seq<Name>)
    requires max > 0
    requires Valid(c, max)
    requires |NameSet(names)| <= max
    ensures Valid(FindAll(c, max, names).0, max)
    ensures BoundAll(FindAll(c, max, names).0, names, FindAll(c, max, names).1)
    decreases |names|
  {
    if names != [] {
      var m := names[0];
      var rest := names[1..];
      assert names == [m] + rest;
      var (c1, slot) := Find(c, max, m);
      StepKeepsValid(c, max, FindName(m));
      NameSetCons(names);
      SubsetSize(NameSet(rest), NameSet(names));
      AllFoundAreBound(c1, max, rest);
      FirstIsBound(c, max, m, rest);
      FindAllCons(c, max, m, rest);
      BoundAllCons(FindAll(c1, max, rest).0, m, rest, slot, FindAll(c1, max, rest).1);
    }
  }

  /** The first of some names is bound still after the others. */
  lemma FirstIsBound(c: Cache, max: nat, m: Name, rest: seq<Name>)
    requires max > 0 && Valid(c, max)
    requires |NameSet([m] + rest)| <= max
    ensures var (c1, slot) := Find(c, max, m);
            Bound(FindAll(c1, max, rest).0, m, slot)
  {
    var (c1, slot) := Find(c, max, m);
    StepKeepsValid(c, max, FindName(m));
    NameSetCons([m] + rest);
    assert ([m] + rest)[1..] == rest;
    FoundThenLookedUp(c, max, m);
    MostRecent(c1);
    SubsetSize({} + NameSet(rest) - {m}, NameSet([m] + rest) - {m});
    FoundStays(c1, max, rest, m, slot, {});
  }

  ghost predicate BoundAll(c: Cache, names: seq<Name>, slots: seq<nat>) {
    |slots| == |names| && forall k :: 0 <= k < |names| ==> Bound(c, names[k], slots[k])
  }

  lemma BoundAllCons(c: Cache, m: Name, rest: seq<Name>, slot: nat, slots: seq<nat>)
    requires Bound(c, m, slot) && BoundAll(c, rest, slots)
    ensures BoundAll(c, [m] + rest, [slot] + slots)
  {
  }

  lemma BoundLooksUp(c: Cache, max: nat, name: Name, slot: nat)
    requires Valid(c, max)
    requires Bound(c, name, slot)
    ensures slot < max && Lookup(c, slot).1 == Some(name)
  {
    var i :| 0 <= i < |c| && c[i] == Binding(name, slot);
    assert HasSlot(c, slot) && PositionOfSlot(c, slot) == i;
  }
}
