/**
  The daemon's edits of the kernel's rules and of its own tables: the own-address
  rules, the kill switch, and the cleaning up after a run that crashed.
 */
module RouteManager {
  import opened Wrappers
  import opened PolicyRules

  // ---------------------------------------------------------------------
  // The kernel's rule list as a value

  ghost predicate Distinct(rules: seq<Rule>) {
    forall i, j :: 0 <= i < j < |rules| ==> rules[i] != rules[j]
  }

  /** A new rule goes behind those of its priority. */
  function Inserted(rules: seq<Rule>, r: Rule): (s: seq<Rule>)
    ensures forall x :: x in s <==> x == r || x in rules
  {
    if rules == [] || r.prio < rules[0].prio then [r] + rules
    else
      assert rules == [rules[0]] + rules[1..];
      [rules[0]] + Inserted(rules[1..], r)
  }

  function Removed(rules: seq<Rule>, r: Rule): (s: seq<Rule>) {
    if rules == [] then []
    else if rules[0] == r then rules[1..]
    else [rules[0]] + Removed(rules[1..], r)
  }

  function Keep(rules: seq<Rule>, p: Rule -> bool): (s: seq<Rule>)
    ensures forall x :: x in s <==> x in rules && p(x)
  {
    if rules == [] then []
    else
      assert rules == [rules[0]] + rules[1..];
      if p(rules[0]) then [rules[0]] + Keep(rules[1..], p) else Keep(rules[1..], p)
  }

  predicate InRange(r: Rule, lo: nat, hi: nat) {
    lo <= r.prio <= hi
  }

  predicate IsOwn(r: Rule) {
    r.prio == OWN_ADDRESS && r.src.Some?
  }

  predicate IsSwitch(r: Rule) {
    InRange(r, SWITCH_LAN, SWITCH_DROP)
  }

  predicate IsSingBox(r: Rule) {
    InRange(r, SINGBOX_FIRST, SINGBOX_LAST)
  }

  predicate OurTable(r: TableRoute) {
    r.table == SWITCH_TABLE || r.table == SINGBOX_TABLE
  }

  /** A rule nobody here put in. */
  predicate Foreign(r: Rule) {
    !IsOwn(r) && !IsSwitch(r) && !IsSingBox(r)
  }

  lemma {:induction false} InsertedSorted(rules: seq<Rule>, r: Rule)
    requires Sorted(rules)
    ensures Sorted(Inserted(rules, r))
  {
    if rules != [] && r.prio >= rules[0].prio {
      InsertedSorted(rules[1..], r);
      var tail := Inserted(rules[1..], r);
      assert forall i :: 0 <= i < |tail| ==> tail[i] in tail;
      forall x | x in rules[1..] ensures rules[0].prio <= x.prio {
      }
    }
  }

  lemma {:induction false} InsertedDistinct(rules: seq<Rule>, r: Rule)
    requires Distinct(rules) && r !in rules
    ensures Distinct(Inserted(rules, r))
  {
    if rules != [] && r.prio >= rules[0].prio {
      InsertedDistinct(rules[1..], r);
      var tail := Inserted(rules[1..], r);
      assert forall i :: 0 <= i < |tail| ==> tail[i] in tail;
      assert rules[0] !in rules[1..];
    }
  }

  lemma {:induction false} InsertedKeeps(rules: seq<Rule>, r: Rule, p: Rule -> bool)
    requires !p(r)
    ensures Keep(Inserted(rules, r), p) == Keep(rules, p)
  {
    var s := Inserted(rules, r);
    if rules == [] || r.prio < rules[0].prio {
      assert s[1..] == rules;
    } else {
      InsertedKeeps(rules[1..], r, p);
      assert s[1..] == Inserted(rules[1..], r);
    }
  }

  lemma RestFacts(rules: seq<Rule>)
    requires rules != [] && Sorted(rules) && Distinct(rules)
    ensures Sorted(rules[1..]) && Distinct(rules[1..])
    ensures forall x :: x in rules <==> x == rules[0] || x in rules[1..]
    ensures rules[0] !in rules[1..]
    ensures forall x :: x in rules[1..] ==> rules[0].prio <= x.prio
  {
    assert forall i :: 1 <= i < |rules| ==> rules[i] == rules[1..][i - 1];
  }

  /** A rule in front of some of those it was in front of. */
  lemma FrontFacts(first: Rule, tail: seq<Rule>, rest: seq<Rule>)
    requires Sorted(tail) && Distinct(tail) && first !in rest
    requires forall x :: x in tail ==> x in rest
    requires forall x :: x in rest ==> first.prio <= x.prio
    ensures Sorted([first] + tail) && Distinct([first] + tail)
  {
    assert forall i :: 0 <= i < |tail| ==> tail[i] in tail;
  }

  lemma {:induction false} RemovedFacts(rules: seq<Rule>, r: Rule)
    requires Sorted(rules) && Distinct(rules)
    ensures Sorted(Removed(rules, r)) && Distinct(Removed(rules, r))
    ensures forall x :: x in Removed(rules, r) <==> x in rules && x != r
  {
    if rules != [] {
      RestFacts(rules);
      RemovedFacts(rules[1..], r);
      if rules[0] != r {
        FrontFacts(rules[0], Removed(rules[1..], r), rules[1..]);
      }
    }
  }

  lemma {:induction false} RemovedKeeps(rules: seq<Rule>, r: Rule, p: Rule -> bool)
    requires !p(r)
    ensures Keep(Removed(rules, r), p) == Keep(rules, p)
  {
    if rules != [] && rules[0] != r {
      RemovedKeeps(rules[1..], r, p);
      assert Removed(rules, r)[1..] == Removed(rules[1..], r);
    }
  }

  lemma {:induction false} InsertedInto(rules: seq<Rule>, r: Rule, p: Rule -> bool)
    requires p(r) && Sorted(rules)
    ensures Keep(Inserted(rules, r), p) == Inserted(Keep(rules, p), r)
  {
    if rules == [] {
      assert Keep([r][1..], p) == [];
    } else if r.prio < rules[0].prio {
      assert Inserted(rules, r)[1..] == rules;
      InsertedFirst(Keep(rules, p), r);
    } else {
      InsertedInto(rules[1..], r, p);
      assert Inserted(rules, r)[1..] == Inserted(rules[1..], r);
    }
  }

  lemma InsertedFirst(rules: seq<Rule>, r: Rule)
    requires forall x :: x in rules ==> r.prio < x.prio
    ensures Inserted(rules, r) == [r] + rules
  {
    if rules != [] {
      assert rules[0] in rules;
    }
  }

  lemma {:induction false} RemovedMiddle(a: seq<Rule>, x: Rule, b: seq<Rule>)
    requires x !in a
    ensures Removed(a + [x] + b, x) == a + b
  {
    if a == [] {
      assert (a + [x] + b)[1..] == b;
      assert a + b == b;
    } else {
      RemovedMiddle(a[1..], x, b);
      assert (a + [x] + b)[1..] == a[1..] + [x] + b;
      assert a + b == [a[0]] + (a[1..] + b);
    }
  }

  lemma {:induction false} KeepSnoc(rules: seq<Rule>, x: Rule, p: Rule -> bool)
    ensures Keep(rules + [x], p) == Keep(rules, p) + (if p(x) then [x] else [])
  {
    if rules == [] {
      assert rules + [x] == [x];
      assert Keep([x][1..], p) == [];
    } else {
      KeepSnoc(rules[1..], x, p);
      assert (rules + [x])[0] == rules[0] && (rules + [x])[1..] == rules[1..] + [x];
    }
  }

  lemma {:induction false} KeepAll(rules: seq<Rule>, p: Rule -> bool)
    requires forall i :: 0 <= i < |rules| ==> p(rules[i])
    ensures Keep(rules, p) == rules
  {
    if rules != [] {
      KeepAll(rules[1..], p);
    }
  }

  lemma {:induction false} KeepTwice(rules: seq<Rule>, p: Rule -> bool, q: Rule -> bool, both: Rule -> bool)
    requires forall r :: both(r) <==> p(r) && q(r)
    ensures Keep(Keep(rules, p), q) == Keep(rules, both)
  {
    if rules != [] {
      KeepTwice(rules[1..], p, q, both);
      if p(rules[0]) {
        assert Keep(rules, p) == [rules[0]] + Keep(rules[1..], p);
        assert Keep(rules, p)[1..] == Keep(rules[1..], p);
      }
    }
  }

  // ---------------------------------------------------------------------
  // The edits

  function Addresses(rules: seq<Rule>, f: Family): (r: seq<Addr>)
    ensures forall a :: a in r <==> exists x :: x in rules && IsOwn(x) && x.family == f && x.src == Some(a)
  {
    if rules == [] then []
    else
      assert rules == [rules[0]] + rules[1..];
      (if IsOwn(rules[0]) && rules[0].family == f then [rules[0].src.value] else []) + Addresses(rules[1..], f)
  }

  function NotIn(s: seq<Addr>, t: seq<Addr>): (r: seq<Addr>)
    ensures forall a :: a in r <==> a in s && a !in t
  {
    if s == [] then []
    else
      assert s == s[..|s| - 1] + [s[|s| - 1]];
      if s[|s| - 1] in t then NotIn(s[..|s| - 1], t) else NotIn(s[..|s| - 1], t) + [s[|s| - 1]]
  }

  /** What to add and what to delete; an address repeated in `want` is repeated. */
  method Diff(have: seq<Addr>, want: seq<Addr>) returns (add: seq<Addr>, del: seq<Addr>)
    ensures add == NotIn(want, have) && del == NotIn(have, want)
  {
    var h: set<Addr> := {};
    for i := 0 to |have|
      invariant forall a :: a in h <==> a in have[..i]
    {
      h := h + {have[i]};
    }
    var w: set<Addr> := {};
    add, del := [], [];
    for i := 0 to |want|
      invariant forall a :: a in w <==> a in want[..i]
      invariant add == NotIn(want[..i], have)
    {
      w := w + {want[i]};
      assert want[..i + 1][..i] == want[..i];
      assert have[..|have|] == have;
      if want[i] !in h {
        add := add + [want[i]];
      }
    }
    for i := 0 to |have|
      invariant del == NotIn(have[..i], want)
    {
      assert have[..i + 1][..i] == have[..i];
      assert want[..|want|] == want;
      if have[i] !in w {
        del := del + [have[i]];
      }
    }
    assert want[..|want|] == want && have[..|have|] == have;
  }

  /** The rules while a listing of them is gone through: those kept of the first i, and
      the rest. */
  ghost function Through(listed: seq<Rule>, i: nat, keep: Rule -> bool): (r: seq<Rule>)
    requires i <= |listed|
  {
    Keep(listed[..i], keep) + listed[i..]
  }

  lemma OneListed(listed: seq<Rule>, i: nat, keep: Rule -> bool)
    requires i < |listed|
    ensures var done, rest := Keep(listed[..i], keep), listed[i + 1..];
            && Through(listed, i, keep) == done + [listed[i]] + rest
            && Through(listed, i + 1, keep) == if keep(listed[i]) then done + [listed[i]] + rest else done + rest
  {
    assert listed[i..] == [listed[i]] + listed[i + 1..];
    assert listed[..i + 1] == listed[..i] + [listed[i]];
    KeepSnoc(listed[..i], listed[i], keep);
  }

  lemma AllListed(listed: seq<Rule>, keep: Rule -> bool)
    ensures Through(listed, 0, keep) == listed
    ensures Through(listed, |listed|, keep) == Keep(listed, keep)
  {
    assert listed[..0] == [] && listed[0..] == listed;
    assert listed[..|listed|] == listed && listed[|listed|..] == [];
  }

  lemma NotBefore(a: seq<Rule>, x: Rule, b: seq<Rule>)
    requires Distinct(a + [x] + b)
    ensures x !in a
  {
    var s := a + [x] + b;
    assert s[|a|] == x;
    assert forall i :: 0 <= i < |a| ==> s[i] == a[i];
  }

  /** Priority 8990 is the daemon's: a rule there with a source is one of its own. */
  ghost predicate OursAlone(rules: seq<Rule>) {
    forall r :: r in rules && IsOwn(r) ==> r == OwnRule(r.src.value)
  }

  /** Some address is asked for twice and has no rule yet. */
  ghost predicate RepeatedAnew(addrs: seq<Addr>, rules: seq<Rule>) {
    exists i, j :: 0 <= i < j < |addrs| && addrs[i] == addrs[j] && OwnRule(addrs[i]) !in rules
  }

  ghost predicate NoRepeat(s: seq<Addr>) {
    forall i, j :: 0 <= i < j < |s| ==> s[i] != s[j]
  }

  lemma {:induction false} AddressesOnce(rules: seq<Rule>, f: Family)
    requires Distinct(rules) && OursAlone(rules)
    ensures NoRepeat(Addresses(rules, f))
    ensures forall a :: a in Addresses(rules, f) ==> a.family == f && OwnRule(a) in rules
  {
    if rules != [] {
      var tail := rules[1..];
      assert rules == [rules[0]] + tail;
      AddressesOnce(tail, f);
      if IsOwn(rules[0]) && rules[0].family == f {
        assert rules[0] !in tail by {
          assert forall i :: 0 <= i < |tail| ==> tail[i] == rules[i + 1];
        }
        assert rules[0] == OwnRule(rules[0].src.value);
      }
    }
  }

  /** The addresses that have a rule, each once. */
  lemma ExistingAre(rules: seq<Rule>)
    requires Distinct(rules) && OursAlone(rules)
    ensures var have := Addresses(rules, V4) + Addresses(rules, V6);
            NoRepeat(have) && forall a :: a in have <==> OwnRule(a) in rules
  {
    AddressesOnce(rules, V4);
    AddressesOnce(rules, V6);
    var v4, v6 := Addresses(rules, V4), Addresses(rules, V6);
    var have := v4 + v6;
    forall i, j | 0 <= i < j < |have| ensures have[i] != have[j] {
      if i < |v4| <= j {
        assert have[i] in v4 && have[j] in v6;
      }
    }
    forall a ensures a in have <==> OwnRule(a) in rules {
      if OwnRule(a) in rules {
        assert IsOwn(OwnRule(a)) && OwnRule(a).src == Some(a);
      }
    }
  }

  lemma NoRepeatSnoc(s: seq<Addr>, a: Addr)
    ensures NoRepeat(s + [a]) <==> NoRepeat(s) && a !in s
  {
    var t := s + [a];
    if NoRepeat(t) {
      assert forall i :: 0 <= i < |s| ==> t[i] == s[i] && t[|s|] == a;
    } else {
      var i, j :| 0 <= i < j < |t| && t[i] == t[j];
      assert j < |s| ==> s[i] == s[j];
    }
  }

  /** Every address that comes up twice is in `t`. */
  ghost predicate RepeatsOnly(s: seq<Addr>, t: seq<Addr>) {
    forall i, j :: 0 <= i < j < |s| && s[i] == s[j] ==> s[i] in t
  }

  lemma RepeatsIn(s: seq<Addr>, a: Addr, t: seq<Addr>)
    ensures RepeatsOnly(s + [a], t) <==> RepeatsOnly(s, t) && (a in s ==> a in t)
  {
    var u := s + [a];
    if RepeatsOnly(u, t) {
      assert forall i :: 0 <= i < |s| ==> u[i] == s[i] && u[|s|] == a;
    }
    if RepeatsOnly(s, t) && (a in s ==> a in t) {
      forall i, j | 0 <= i < j < |u| && u[i] == u[j] ensures u[i] in t {
        assert j < |s| ==> s[i] == s[j];
        assert j == |s| ==> s[i] in s;
      }
    }
  }

  lemma {:induction false} NotInRepeats(s: seq<Addr>, t: seq<Addr>)
    ensures NoRepeat(NotIn(s, t)) <==> RepeatsOnly(s, t)
  {
    if s != [] {
      var front, last := s[..|s| - 1], s[|s| - 1];
      NotInRepeats(front, t);
      var r := NotIn(front, t);
      if last !in t {
        NoRepeatSnoc(r, last);
      }
      RepeatsIn(front, last, t);
      assert s == front + [last];
    }
  }

  function Not(p: Rule -> bool): (q: Rule -> bool)
    ensures forall r :: q(r) <==> !p(r)
  {
    (r: Rule) => !p(r)
  }

  function SwitchPart(f: Family): (p: Rule -> bool)
    ensures forall r :: p(r) <==> IsSwitch(r) && r.family == f
  {
    (r: Rule) => IsSwitch(r) && r.family == f
  }

  lemma {:induction false} InsertedLast(rules: seq<Rule>, r: Rule)
    requires forall i :: 0 <= i < |rules| ==> rules[i].prio <= r.prio
    ensures Inserted(rules, r) == rules + [r]
  {
    if rules != [] {
      InsertedLast(rules[1..], r);
    }
  }

  lemma {:induction false} SwitchPartIsRange(rules: seq<Rule>, f: Family)
    ensures Keep(rules, SwitchPart(f)) == OfFamily(Below(From(rules, SWITCH_LAN), SWITCH_DROP + 1), f)
  {
    if rules != [] {
      SwitchPartIsRange(rules[1..], f);
      var from := From(rules[1..], SWITCH_LAN);
      if rules[0].prio >= SWITCH_LAN {
        assert ([rules[0]] + from)[1..] == from;
        var below := Below(from, SWITCH_DROP + 1);
        if rules[0].prio <= SWITCH_DROP {
          assert ([rules[0]] + below)[1..] == below;
        }
      }
    }
  }

  lemma {:induction false} KeepAgain(rules: seq<Rule>, p: Rule -> bool, q: Rule -> bool)
    requires forall r :: q(r) ==> !p(r)
    ensures Keep(Keep(rules, p), p) == Keep(rules, p)
    ensures Keep(Keep(rules, p), q) == []
  {
    if rules != [] {
      KeepAgain(rules[1..], p, q);
      if p(rules[0]) {
        assert ([rules[0]] + Keep(rules[1..], p))[1..] == Keep(rules[1..], p);
      }
    }
  }

  /** One more rule of the switch, behind those that are in. */
  lemma SwitchRuleIn(rules: seq<Rule>, r: Rule, before: seq<Rule>, f: Family, g: Family)
    requires Sorted(rules) && IsSwitch(r) && r.family == f != g
    requires Keep(rules, SwitchPart(f)) == before
    requires r !in before && forall i :: 0 <= i < |before| ==> before[i].prio <= r.prio
    ensures r !in rules
    ensures Keep(Inserted(rules, r), SwitchPart(f)) == before + [r]
    ensures Keep(Inserted(rules, r), SwitchPart(g)) == Keep(rules, SwitchPart(g))
    ensures Keep(Inserted(rules, r), Not(IsSwitch)) == Keep(rules, Not(IsSwitch))
  {
    InsertedInto(rules, r, SwitchPart(f));
    InsertedLast(before, r);
    InsertedKeeps(rules, r, SwitchPart(g));
    InsertedKeeps(rules, r, Not(IsSwitch));
  }

  // ---------------------------------------------------------------------
  // The kernel with the switch and without it

  /** Two kernels that differ in the switch alone: in rules of its priorities and in routes
      of its table. */
  ghost predicate DifferInSwitch(k: Kernel, k': Kernel) {
    && Sorted(k.rules) && Sorted(k'.rules)
    && Keep(k.rules, Not(IsSwitch)) == Keep(k'.rules, Not(IsSwitch))
    && (forall t :: t in k.routes && t.table != SWITCH_TABLE ==> t in k'.routes)
    && (forall t :: t in k'.routes && t.table != SWITCH_TABLE ==> t in k.routes)
  }

  lemma {:induction false} BelowSwitch(rules: seq<Rule>)
    ensures Below(rules, SWITCH_LAN) == Below(Keep(rules, Not(IsSwitch)), SWITCH_LAN)
  {
    if rules != [] {
      BelowSwitch(rules[1..]);
      var tail := Keep(rules[1..], Not(IsSwitch));
      if !IsSwitch(rules[0]) {
        assert ([rules[0]] + tail)[1..] == tail;
      }
    }
  }

  /** A verdict that the rules below a priority come to is the kernel's. */
  lemma DecidedBelow(w: World, k: Kernel, p: Packet)
    requires Sorted(k.rules) && Eval(w, k, Below(k.rules, SWITCH_LAN), p, 0).Decided?
    ensures VerdictOn(w, k, p) == Eval(w, k, Below(k.rules, SWITCH_LAN), p, 0).verdict
  {
    SortedSplits(k.rules, SWITCH_LAN);
    EvalAppend(w, k, Below(k.rules, SWITCH_LAN), From(k.rules, SWITCH_LAN), p, 0);
  }

  /** A packet that the rules below the switch's decide, sing-box's with their gotos among
      them, gets the same verdict with the switch in as without it; table 2023 is the
      switch's own, so none of them looks there. */
  lemma SwitchChangesNothingDecided(w: World, k: Kernel, k': Kernel, p: Packet)
    requires DifferInSwitch(k, k')
    requires forall r :: r in k.rules && r.prio < SWITCH_LAN && r.action.Lookup? ==> r.action.table != SWITCH_TABLE
    requires Eval(w, k, Below(k.rules, SWITCH_LAN), p, 0).Decided?
    ensures VerdictOn(w, k, p) == VerdictOn(w, k', p)
  {
    BelowSwitch(k.rules);
    BelowSwitch(k'.rules);
    var low := Below(k.rules, SWITCH_LAN);
    assert low == Below(k'.rules, SWITCH_LAN);
    assert forall i :: 0 <= i < |low| ==> low[i] in low;
    EvalWithoutTable(w, k, k', low, p, 0);
    DecidedBelow(w, k, p);
    DecidedBelow(w, k', p);
  }

  lemma {:induction false} BelowTwice(rules: seq<Rule>, low: nat, high: nat)
    requires low <= high
    ensures Below(Below(rules, high), low) == Below(rules, low)
  {
    if rules != [] {
      BelowTwice(rules[1..], low, high);
      var rest := Below(rules[1..], high);
      if rules[0].prio < high {
        assert ([rules[0]] + rest)[1..] == rest;
      }
    }
  }

  /** So a packet that is decided by the rules up to 9010, which are the kernel's, the
      own addresses' and sing-box's, never meets the switch. */
  lemma TunKeepsItsPackets(w: World, k: Kernel, k': Kernel, p: Packet)
    requires DifferInSwitch(k, k')
    requires forall r :: r in k.rules && r.prio < SWITCH_LAN && r.action.Lookup? ==> r.action.table != SWITCH_TABLE
    requires Eval(w, k, Below(k.rules, 9011), p, 0).Decided?
    ensures VerdictOn(w, k, p) == VerdictOn(w, k', p)
  {
    var low := Below(k.rules, SWITCH_LAN);
    LowIsSorted(k.rules, SWITCH_LAN);
    SortedSplits(low, 9011);
    BelowTwice(k.rules, 9011, SWITCH_LAN);
    EvalAppend(w, k, Below(low, 9011), From(low, 9011), p, 0);
    SwitchChangesNothingDecided(w, k, k', p);
  }

  /** The kernel with everything the daemon and sing-box ever put into it taken out. */
  function Cleaned(k: Kernel): (r: Kernel) {
    Kernel(Keep(k.rules, Foreign), set t | t in k.routes && !OurTable(t))
  }

  /** The rules are those before and one for each of these addresses. */
  ghost predicate Joined(rules: seq<Rule>, before: seq<Rule>, add: seq<Addr>) {
    forall x :: x in rules <==> x in before || exists a :: a in add && x == OwnRule(a)
  }

  lemma JoinedHas(rules: seq<Rule>, before: seq<Rule>, add: seq<Addr>, a: Addr)
    requires Joined(rules, before, add)
    ensures OwnRule(a) in rules <==> OwnRule(a) in before || a in add
  {
  }

  lemma JoinedOneMore(rules: seq<Rule>, middle: seq<Rule>, before: seq<Rule>, add: seq<Addr>, a: Addr)
    requires Joined(middle, before, add)
    requires forall x :: x in rules <==> x in middle || x == OwnRule(a)
    ensures Joined(rules, before, add + [a])
  {
  }

  /** What the kernel will and will not do: whether it has IPv6 at all, the rules it refuses
      and the families whose route it refuses. */
  datatype Host = Host(v6: bool, refused: set<Rule>, unrouted: set<Family>)

  /** The families the switch is put in for: a kernel without IPv6 has nothing to hold there. */
  predicate Tries(h: Host, f: Family) {
    f.V4? || h.v6
  }

  predicate Takes(h: Host, f: Family, uid: nat) {
    f !in h.unrouted && NoneRefused(SwitchRules(f, uid), h.refused)
  }

  /** The switch's default route in place of whatever default its table had. */
  function WithDefault(routes: set<TableRoute>, f: Family): (r: set<TableRoute>) {
    (set t | t in routes && !(t.table == SWITCH_TABLE && t.family == f && t.dst == 0)) + {UnreachableDefault(f)}
  }

  function WithDefaults(routes: set<TableRoute>, v6: bool): (r: set<TableRoute>) {
    var r4 := WithDefault(routes, V4);
    if v6 then WithDefault(r4, V6) else r4
  }

  function WithoutTable(routes: set<TableRoute>): (r: set<TableRoute>) {
    set t | t in routes && t.table != SWITCH_TABLE
  }

  lemma SameButTheSwitch(k: Kernel, k': Kernel)
    requires Sorted(k.rules) && Sorted(k'.rules)
    requires Keep(k.rules, Not(IsSwitch)) == Keep(k'.rules, Not(IsSwitch))
    requires WithoutTable(k.routes) == WithoutTable(k'.routes)
    ensures DifferInSwitch(k, k')
  {
    forall t: TableRoute | t.table != SWITCH_TABLE ensures t in k.routes <==> t in k'.routes {
      assert t in WithoutTable(k.routes) <==> t in k.routes;
      assert t in WithoutTable(k'.routes) <==> t in k'.routes;
    }
  }

  lemma DefaultsRefuse(routes: set<TableRoute>, f: Family)
    ensures Refuses(WithDefault(routes, f), f)
    ensures forall g :: g != f && Refuses(routes, g) ==> Refuses(WithDefault(routes, f), g)
  {
    assert UnreachableDefault(f) in WithDefault(routes, f) && IsDefault(UnreachableDefault(f), f);
    forall g | g != f && Refuses(routes, g) ensures Refuses(WithDefault(routes, f), g) {
      var t :| t in routes && IsDefault(t, g);
      assert t in WithDefault(routes, f);
    }
  }

  lemma TableGone(routes: set<TableRoute>, f: Family)
    ensures WithoutTable(WithDefault(routes, f)) == WithoutTable(routes)
  {
  }

  lemma SwitchRulesSnoc(f: Family, uid: nat, i: nat, refused: set<Rule>)
    requires i < |SwitchRules(f, uid)|
    ensures var wanted := SwitchRules(f, uid);
            && wanted[..i + 1] == wanted[..i] + [wanted[i]]
            && wanted[i] !in wanted[..i] && IsSwitch(wanted[i]) && wanted[i].family == f
            && (forall j :: 0 <= j < i ==> wanted[..i][j].prio <= wanted[i].prio)
            && (NoneRefused(wanted[..i + 1], refused) <==> NoneRefused(wanted[..i], refused) && wanted[i] !in refused)
  {
    var wanted := SwitchRules(f, uid);
    assert forall j :: 0 <= j < i ==> wanted[..i][j] == wanted[j];
    assert forall j :: 0 <= j <= i ==> wanted[..i + 1][j] == wanted[j];
  }

  predicate NoneRefused(rules: seq<Rule>, refused: set<Rule>) {
    forall i :: 0 <= i < |rules| ==> rules[i] !in refused
  }

  class Manager {
    var rules: seq<Rule>
    var routes: set<TableRoute>

    ghost predicate Valid()
      reads this
    {
      Sorted(rules) && Distinct(rules)
    }

    /** Refused where the very same rule is in. */
    method RuleAdd(r: Rule) returns (ok: bool)
      requires Valid()
      modifies this`rules
      ensures Valid()
      ensures ok <==> r !in old(rules)
      ensures rules == if ok then Inserted(old(rules), r) else old(rules)
    {
      ok := r !in rules;
      if ok {
        InsertedSorted(rules, r);
        InsertedDistinct(rules, r);
        rules := Inserted(rules, r);
      }
    }

    method RuleDel(r: Rule) returns (ok: bool)
      requires Valid()
      modifies this`rules
      ensures Valid()
      ensures ok <==> r in old(rules)
      ensures rules == Removed(old(rules), r)
      ensures forall x :: x in rules <==> x in old(rules) && x != r
    {
      RemovedFacts(rules, r);
      ok := r in rules;
      rules := Removed(rules, r);
    }

    /** Lists the rules and deletes those that are to go, one by one. */
    method RemoveWhere(drop: Rule -> bool)
      requires Valid()
      modifies this`rules
      ensures Valid()
      ensures rules == Keep(old(rules), Not(drop))
    {
      var listed := rules;
      ghost var keep := Not(drop);
      AllListed(listed, keep);
      for i := 0 to |listed|
        invariant Valid()
        invariant rules == Through(listed, i, keep)
      {
        var x := listed[i];
        ghost var done := Keep(listed[..i], keep);
        OneListed(listed, i, keep);
        if drop(x) {
          NotBefore(done, x, listed[i + 1..]);
          RemovedMiddle(done, x, listed[i + 1..]);
          var ok := RuleDel(x);
        }
      }
    }

    /** Deletes the rules of these addresses. */
    method DeleteOwn(del: seq<Addr>) returns (ok: bool)
      requires Valid()
      modifies this`rules
      ensures Valid()
      ensures Keep(rules, Not(IsOwn)) == old(Keep(rules, Not(IsOwn)))
      ensures forall x :: x in rules <==>
        x in old(rules) && !(IsOwn(x) && x.src.value in del && x == OwnRule(x.src.value))
      ensures NoRepeat(del) && (forall a :: a in del ==> OwnRule(a) in old(rules)) ==> ok
    {
      ok := true;
      for i := 0 to |del|
        invariant Valid()
        invariant Keep(rules, Not(IsOwn)) == old(Keep(rules, Not(IsOwn)))
        invariant forall x :: x in rules <==>
          x in old(rules) && !(IsOwn(x) && x.src.value in del[..i] && x == OwnRule(x.src.value))
        invariant NoRepeat(del) && (forall a :: a in del ==> OwnRule(a) in old(rules)) ==> ok
      {
        var r := OwnRule(del[i]);
        RemovedKeeps(rules, r, Not(IsOwn));
        assert del[..i + 1] == del[..i] + [del[i]];
        assert del[i] in del;
        var gone := RuleDel(r);
        ok := ok && gone;
      }
      assert del[..|del|] == del;
    }

    method AddOneOwn(a: Addr) returns (put: bool)
      requires Valid()
      modifies this`rules
      ensures Valid()
      ensures Keep(rules, Not(IsOwn)) == old(Keep(rules, Not(IsOwn)))
      ensures forall x :: x in rules <==> x in old(rules) || x == OwnRule(a)
      ensures put <==> OwnRule(a) !in old(rules)
    {
      InsertedKeeps(rules, OwnRule(a), Not(IsOwn));
      put := RuleAdd(OwnRule(a));
    }

    /** Adds a rule for each of these addresses; one that is in already is refused. */
    method AddOwn(add: seq<Addr>) returns (ok: bool)
      requires Valid()
      modifies this`rules
      ensures Valid()
      ensures Keep(rules, Not(IsOwn)) == old(Keep(rules, Not(IsOwn)))
      ensures Joined(rules, old(rules), add)
      ensures (forall a :: a in add ==> OwnRule(a) !in old(rules)) ==> (ok <==> NoRepeat(add))
    {
      ok := true;
      for i := 0 to |add|
        invariant Valid()
        invariant Keep(rules, Not(IsOwn)) == old(Keep(rules, Not(IsOwn)))
        invariant Joined(rules, old(rules), add[..i])
        invariant (forall a :: a in add ==> OwnRule(a) !in old(rules)) ==> (ok <==> NoRepeat(add[..i]))
      {
        assert add[..i + 1] == add[..i] + [add[i]];
        assert add[i] in add;
        NoRepeatSnoc(add[..i], add[i]);
        JoinedHas(rules, old(rules), add[..i], add[i]);
        ghost var before := rules;
        var put := AddOneOwn(add[i]);
        JoinedOneMore(rules, before, old(rules), add[..i], add[i]);
        ok := ok && put;
      }
      assert add[..|add|] == add;
    }

    /** Makes the set of own-address rules the set of these addresses; every other rule
        stays where it is.  The answer is an error exactly when an address that had no
        rule is asked for twice. */
    method Sync(addrs: seq<Addr>) returns (ok: bool)
      requires Valid() && OursAlone(rules)
      modifies this`rules
      ensures Valid() && OursAlone(rules)
      ensures forall a :: OwnRule(a) in rules <==> a in addrs
      ensures Keep(rules, Not(IsOwn)) == old(Keep(rules, Not(IsOwn)))
      ensures ok <==> !RepeatedAnew(addrs, old(rules))
    {
      var have := Addresses(rules, V4) + Addresses(rules, V6);
      ExistingAre(rules);
      var add, del := Diff(have, addrs);
      NotInRepeats(have, addrs);
      NotInRepeats(addrs, have);
      var deleted := DeleteOwn(del);
      assert OursAlone(rules);
      var added := AddOwn(add);
      ok := deleted && added;
      forall a ensures OwnRule(a) in rules <==> a in addrs {
        assert IsOwn(OwnRule(a));
        assert forall b :: OwnRule(a) == OwnRule(b) ==> a == b;
      }
    }

    /** The switch's rules of one family, behind one another, but for those the kernel
        refuses. */
    method AddSwitch(f: Family, uid: nat, refused: set<Rule>) returns (ok: bool)
      requires Valid()
      requires Keep(rules, SwitchPart(f)) == []
      modifies this`rules
      ensures Valid()
      ensures ok <==> NoneRefused(SwitchRules(f, uid), refused)
      ensures ok ==> Keep(rules, SwitchPart(f)) == SwitchRules(f, uid)
      ensures f == V6 ==> Keep(rules, SwitchPart(V4)) == old(Keep(rules, SwitchPart(V4)))
      ensures f == V4 ==> Keep(rules, SwitchPart(V6)) == old(Keep(rules, SwitchPart(V6)))
      ensures Keep(rules, Not(IsSwitch)) == old(Keep(rules, Not(IsSwitch)))
    {
      var wanted := SwitchRules(f, uid);
      ghost var g := if f == V4 then V6 else V4;
      ok := true;
      for i := 0 to |wanted|
        invariant Valid()
        invariant ok <==> NoneRefused(wanted[..i], refused)
        invariant ok ==> Keep(rules, SwitchPart(f)) == wanted[..i]
        invariant Keep(rules, SwitchPart(g)) == old(Keep(rules, SwitchPart(g)))
        invariant Keep(rules, Not(IsSwitch)) == old(Keep(rules, Not(IsSwitch)))
      {
        var r := wanted[i];
        SwitchRulesSnoc(f, uid, i, refused);
        if r in refused {
          ok := false;
        } else {
          AddOneSwitch(r, f, g, wanted[..i], ok);
        }
      }
      assert wanted[..|wanted|] == wanted;
    }

    /** One rule of the switch, behind those of its family that are in where all are. */
    method AddOneSwitch(r: Rule, f: Family, ghost g: Family, ghost before: seq<Rule>, ghost whole: bool)
      requires Valid() && IsSwitch(r) && r.family == f != g
      requires whole ==> Keep(rules, SwitchPart(f)) == before
      requires r !in before && forall i :: 0 <= i < |before| ==> before[i].prio <= r.prio
      modifies this`rules
      ensures Valid()
      ensures whole ==> Keep(rules, SwitchPart(f)) == before + [r]
      ensures Keep(rules, SwitchPart(g)) == old(Keep(rules, SwitchPart(g)))
      ensures Keep(rules, Not(IsSwitch)) == old(Keep(rules, Not(IsSwitch)))
    {
      if whole {
        SwitchRuleIn(rules, r, before, f, g);
      }
      InsertedKeeps(rules, r, SwitchPart(g));
      InsertedKeeps(rules, r, Not(IsSwitch));
      var put := RuleAdd(r);
    }

    /** One family's route and rules, or nothing where the kernel has no such family. */
    method PutFamily(f: Family, uid: nat, h: Host) returns (ok: bool)
      requires Valid()
      requires Keep(rules, SwitchPart(f)) == []
      modifies this
      ensures Valid()
      ensures ok <==> (Tries(h, f) ==> Takes(h, f, uid))
      ensures ok && Tries(h, f) ==> Keep(rules, SwitchPart(f)) == SwitchRules(f, uid) && Refuses(routes, f)
      ensures routes == if Tries(h, f) && f !in h.unrouted then WithDefault(old(routes), f) else old(routes)
      ensures f == V6 ==> Keep(rules, SwitchPart(V4)) == old(Keep(rules, SwitchPart(V4)))
      ensures f == V4 ==> Keep(rules, SwitchPart(V6)) == old(Keep(rules, SwitchPart(V6)))
      ensures Keep(rules, Not(IsSwitch)) == old(Keep(rules, Not(IsSwitch)))
    {
      if !Tries(h, f) {
        return true;
      }
      if f in h.unrouted {
        return false;
      }
      DefaultsRefuse(routes, f);
      routes := WithDefault(routes, f);
      ok := AddSwitch(f, uid, h.refused);
    }

    /** The switch's routes and rules, in place of those that are in. */
    method PutSwitchIn(uid: nat, h: Host) returns (ok: bool)
      requires Valid()
      modifies this
      ensures Valid()
      ensures ok <==> Takes(h, V4, uid) && (h.v6 ==> Takes(h, V6, uid))
      ensures ok ==> SwitchIn(Kernel(rules, routes), V4, uid) && (h.v6 ==> SwitchIn(Kernel(rules, routes), V6, uid))
      ensures ok ==> routes == WithDefaults(old(routes), h.v6)
      ensures WithoutTable(routes) == WithoutTable(old(routes))
      ensures Keep(rules, Not(IsSwitch)) == old(Keep(rules, Not(IsSwitch)))
    {
      KeepAgain(rules, Not(IsSwitch), SwitchPart(V4));
      KeepAgain(rules, Not(IsSwitch), SwitchPart(V6));
      RemoveWhere(IsSwitch);
      TableGone(routes, V4);
      ok := PutFamily(V4, uid, h);
      TableGone(routes, V6);
      DefaultsRefuse(routes, V6);
      var ok6 := PutFamily(V6, uid, h);
      ok := ok && ok6;
      SwitchPartIsRange(rules, V4);
      SwitchPartIsRange(rules, V6);
    }

    /** Puts the switch in for every family the kernel has; where it refuses a route or a
        rule, takes out what went in and errs.  Nothing else changes. */
    method InstallKillSwitch(uid: nat, h: Host) returns (ok: bool)
      requires Valid()
      modifies this
      ensures Valid()
      ensures ok <==> Takes(h, V4, uid) && (h.v6 ==> Takes(h, V6, uid))
      ensures ok ==> SwitchIn(Kernel(rules, routes), V4, uid) && (h.v6 ==> SwitchIn(Kernel(rules, routes), V6, uid))
      ensures ok ==> routes == WithDefaults(old(routes), h.v6)
      ensures !ok ==> rules == Keep(old(rules), Not(IsSwitch)) && routes == WithoutTable(old(routes))
      ensures DifferInSwitch(Kernel(old(rules), old(routes)), Kernel(rules, routes))
    {
      ok := PutSwitchIn(uid, h);
      SameButTheSwitch(Kernel(old(rules), old(routes)), Kernel(rules, routes));
      if !ok {
        KeepAgain(old(rules), Not(IsSwitch), IsSwitch);
        RemoveKillSwitch();
      }
    }

    method RemoveKillSwitch()
      requires Valid()
      modifies this
      ensures Valid()
      ensures rules == Keep(old(rules), Not(IsSwitch))
      ensures routes == WithoutTable(old(routes))
      ensures DifferInSwitch(Kernel(old(rules), old(routes)), Kernel(rules, routes))
    {
      KeepAgain(rules, Not(IsSwitch), IsSwitch);
      RemoveWhere(IsSwitch);
      routes := WithoutTable(routes);
    }

    /** Whatever a crashed run left goes; every other rule and route stays, in its order. */
    method CleanupStale()
      requires Valid() && OursAlone(rules)
      modifies this
      ensures Valid()
      ensures Kernel(rules, routes) == Cleaned(Kernel(old(rules), old(routes)))
    {
      ghost var was := rules;
      var ok := Sync([]);
      forall i | 0 <= i < |rules| ensures Not(IsOwn)(rules[i]) {
        assert rules[i] in rules;
      }
      KeepAll(rules, Not(IsOwn));
      assert rules == Keep(was, Not(IsOwn));
      RemoveKillSwitch();
      RemoveWhere(IsSingBox);
      routes := set t | t in routes && t.table != SINGBOX_TABLE;
      CleanedInSteps(was);
    }
  }

  lemma CleanedInSteps(rules: seq<Rule>)
    ensures Keep(Keep(Keep(rules, Not(IsOwn)), Not(IsSwitch)), Not(IsSingBox)) == Keep(rules, Foreign)
  {
    var two := (r: Rule) => !IsOwn(r) && !IsSwitch(r);
    KeepTwice(rules, Not(IsOwn), Not(IsSwitch), two);
    KeepTwice(rules, two, Not(IsSingBox), Foreign);
  }

  /** What cleaning up leaves, told by number: every rule but those at 8990 with a source,
      those from 9000 to 9010 and those from 9098 to 9100, and every route but those of the
      tables 2022 and 2023. */
  lemma CleanedMeans(k: Kernel, r: Rule, t: TableRoute)
    ensures r in Cleaned(k).rules <==>
            && r in k.rules && !(r.prio == 8990 && r.src.Some?)
            && !(9000 <= r.prio <= 9010) && !(9098 <= r.prio <= 9100)
    ensures t in Cleaned(k).routes <==> t in k.routes && t.table != 2022 && t.table != 2023
  {
  }

  // ---------------------------------------------------------------------
  // A crash at any step

  /** One edit of the kernel by the daemon or by sing-box. */
  datatype Edit = Add(rule: Rule) | Delete(rule: Rule) | PutRoute(route: TableRoute) | DropRoute(route: TableRoute)

  /** An edit of something of theirs. */
  predicate Ours(e: Edit) {
    match e
    case Add(r) => !Foreign(r) && (IsOwn(r) ==> r == OwnRule(r.src.value))
    case Delete(r) => !Foreign(r)
    case PutRoute(t) => OurTable(t)
    case DropRoute(t) => OurTable(t)
  }

  function Apply(k: Kernel, e: Edit): (r: Kernel) {
    match e
    case Add(r) => if r in k.rules then k else k.(rules := Inserted(k.rules, r))
    case Delete(r) => k.(rules := Removed(k.rules, r))
    case PutRoute(t) => k.(routes := k.routes + {t})
    case DropRoute(t) => k.(routes := k.routes - {t})
  }

  function ApplyAll(k: Kernel, edits: seq<Edit>): (r: Kernel)
    decreases |edits|
  {
    if edits == [] then k else ApplyAll(Apply(k, edits[0]), edits[1..])
  }

  ghost predicate KernelOk(k: Kernel) {
    Sorted(k.rules) && Distinct(k.rules) && OursAlone(k.rules)
  }

  /** What an edit does: a rule or a route is there after it exactly when it was there or was
      put in, and was not taken out. */
  lemma EditDoes(k: Kernel, e: Edit, x: Rule, t: TableRoute)
    requires KernelOk(k)
    ensures x in Apply(k, e).rules <==> (x in k.rules || e == Add(x)) && e != Delete(x)
    ensures t in Apply(k, e).routes <==> (t in k.routes || e == PutRoute(t)) && e != DropRoute(t)
  {
    if e.Delete? {
      RemovedFacts(k.rules, e.rule);
    }
  }

  lemma {:induction false} EditsGoOn(k: Kernel, edits: seq<Edit>, e: Edit)
    ensures ApplyAll(k, edits + [e]) == Apply(ApplyAll(k, edits), e)
    decreases |edits|
  {
    if edits == [] {
      assert [e][1..] == [];
    } else {
      assert (edits + [e])[1..] == edits[1..] + [e];
      EditsGoOn(Apply(k, edits[0]), edits[1..], e);
    }
  }

  lemma EditKeepsForeign(k: Kernel, e: Edit)
    requires KernelOk(k) && Ours(e)
    ensures KernelOk(Apply(k, e)) && Cleaned(Apply(k, e)) == Cleaned(k)
  {
    match e
    case Add(r) =>
      if r !in k.rules {
        InsertedSorted(k.rules, r);
        InsertedDistinct(k.rules, r);
        InsertedKeeps(k.rules, r, Foreign);
      }
    case Delete(r) =>
      RemovedFacts(k.rules, r);
      RemovedKeeps(k.rules, r, Foreign);
    case PutRoute(t) =>
    case DropRoute(t) =>
  }

  lemma {:induction false} EditsKeepForeign(k: Kernel, edits: seq<Edit>)
    requires KernelOk(k) && forall e :: e in edits ==> Ours(e)
    ensures KernelOk(ApplyAll(k, edits)) && Cleaned(ApplyAll(k, edits)) == Cleaned(k)
    decreases |edits|
  {
    if edits != [] {
      EditKeepsForeign(k, edits[0]);
      EditsKeepForeign(Apply(k, edits[0]), edits[1..]);
    }
  }

  /** A kernel nobody of ours had touched comes back exactly, whatever edits were made
      to it before the crash and wherever among them it happened. */
  lemma CrashIsCleanedUp(base: Kernel, edits: seq<Edit>)
    requires KernelOk(base) && forall e :: e in edits ==> Ours(e)
    requires (forall r :: r in base.rules ==> Foreign(r)) && (forall t :: t in base.routes ==> !OurTable(t))
    ensures KernelOk(ApplyAll(base, edits)) && Cleaned(ApplyAll(base, edits)) == base
  {
    EditsKeepForeign(base, edits);
    assert forall i :: 0 <= i < |base.rules| ==> base.rules[i] in base.rules;
    KeepAll(base.rules, Foreign);
  }
}
