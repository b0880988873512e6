/**
  The kernel's policy rules as a program, and what it makes of a packet.  Rules are
  tried in order of priority; the first that finds a route it does not suppress
  decides.
 */
module PolicyRules {
  import opened Wrappers

  datatype Family = V4 | V6

  datatype Addr = Addr(family: Family, bits: nat)

  datatype Packet = Packet(src: Addr, uid: nat, dst: nat)

  datatype Action =
    | Lookup(table: nat, suppress: Option<nat>)  // a route no longer than `suppress` does not count
    | Goto(target: nat)
    | Nop

  /** `other` stands for whatever else a rule not of ours looks at; 0 is nothing. */
  datatype Rule = Rule(family: Family, prio: nat, src: Option<Addr>, uid: Option<nat>, other: nat, action: Action)

  datatype Verdict = Via(dev: nat) | Unreachable

  datatype Route = Route(prefixLen: nat, verdict: Verdict)

  /** A route in one of the daemon's own tables. */
  datatype TableRoute = TableRoute(family: Family, table: nat, dst: nat, verdict: Verdict)

  datatype Kernel = Kernel(rules: seq<Rule>, routes: set<TableRoute>)

  const LOCAL: nat := 255
  const MAIN: nat := 254
  const OWN_ADDRESS: nat := 8990
  const SINGBOX_FIRST: nat := 9000
  const SINGBOX_LAST: nat := 9010
  const SINGBOX_TABLE: nat := 2022
  const SWITCH_LAN: nat := 9098
  const SWITCH_SELF: nat := 9099
  const SWITCH_DROP: nat := 9100
  const SWITCH_TABLE: nat := 2023

  function OwnRule(a: Addr): (r: Rule) {
    Rule(a.family, OWN_ADDRESS, Some(a), None, 0, Lookup(MAIN, None))
  }

  function LocalRule(f: Family): (r: Rule) {
    Rule(f, 0, None, None, 0, Lookup(LOCAL, None))
  }

  function SwitchRules(f: Family, uid: nat): (r: seq<Rule>) {
    [Rule(f, SWITCH_LAN, None, None, 0, Lookup(MAIN, Some(0))),
     Rule(f, SWITCH_SELF, None, Some(uid), 0, Lookup(MAIN, None)),
     Rule(f, SWITCH_DROP, None, None, 0, Lookup(SWITCH_TABLE, None))]
  }

  function UnreachableDefault(f: Family): (r: TableRoute) {
    TableRoute(f, SWITCH_TABLE, 0, Unreachable)
  }

  // ---------------------------------------------------------------------
  // What the rules decide

  /** The tables the daemon does not write, and what else a rule may look at. */
  datatype World = World(route: (nat, Packet) -> Option<Route>, looks: (nat, Packet) -> bool)

  predicate Matches(w: World, r: Rule, p: Packet) {
    && r.family == p.src.family
    && (r.src.Some? ==> r.src.value == p.src)
    && (r.uid.Some? ==> r.uid.value == p.uid)
    && (r.other != 0 ==> w.looks(r.other, p))
  }

  /** A default route of the switch's table. */
  predicate IsDefault(t: TableRoute, f: Family) {
    t.family == f && t.table == SWITCH_TABLE && t.dst == 0
  }

  /** Where the switch's table sends what is looked up in it. */
  ghost function DefaultOf(routes: set<TableRoute>, f: Family): (v: Option<Verdict>)
    ensures v.Some? <==> exists t :: t in routes && IsDefault(t, f)
    ensures v.Some? ==> exists t :: t in routes && IsDefault(t, f) && t.verdict == v.value
  {
    if exists t :: t in routes && IsDefault(t, f) then
      var t :| t in routes && IsDefault(t, f);
      Some(t.verdict)
    else None
  }

  ghost function Find(w: World, k: Kernel, table: nat, p: Packet): (r: Option<Route>) {
    if table != SWITCH_TABLE then w.route(table, p)
    else
      var v := DefaultOf(k.routes, p.src.family);
      if v.Some? then Some(Route(0, v.value)) else None
  }

  /** The table has a default route of the family, and every one refuses. */
  ghost predicate Refuses(routes: set<TableRoute>, f: Family) {
    && (exists t :: t in routes && IsDefault(t, f))
    && (forall t :: t in routes && IsDefault(t, f) ==> t.verdict == Unreachable)
  }

  /** What a stretch of the rules comes to: a decision, or falling through with the
      priority below which rules are skipped from here on. */
  datatype Walk = Decided(verdict: Verdict) | Fell(floor: nat)

  ghost function Eval(w: World, k: Kernel, rules: seq<Rule>, p: Packet, floor: nat): (r: Walk)
    decreases |rules|
  {
    if rules == [] then Fell(floor)
    else
      var r, rest := rules[0], rules[1..];
      if r.prio < floor || !Matches(w, r, p) then Eval(w, k, rest, p, floor)
      else
        match r.action
        case Nop => Eval(w, k, rest, p, floor)
        case Goto(target) => Eval(w, k, rest, p, target)
        case Lookup(table, suppress) =>
          var route := Find(w, k, table, p);
          if route.None? || (suppress.Some? && route.value.prefixLen <= suppress.value)
          then Eval(w, k, rest, p, floor)
          else Decided(route.value.verdict)
  }

  /** No rule decides: the packet has nowhere to go either. */
  ghost function VerdictOn(w: World, k: Kernel, p: Packet): (v: Verdict) {
    var walk := Eval(w, k, k.rules, p, 0);
    if walk.Decided? then walk.verdict else Unreachable
  }

  lemma {:induction false} EvalAppend(w: World, k: Kernel, a: seq<Rule>, b: seq<Rule>, p: Packet, floor: nat)
    ensures var first := Eval(w, k, a, p, floor);
            Eval(w, k, a + b, p, floor) == if first.Decided? then first else Eval(w, k, b, p, first.floor)
    decreases |a|
  {
    if a == [] {
      assert a + b == b;
    } else {
      assert (a + b)[0] == a[0] && (a + b)[1..] == a[1..] + b;
      var floor' := if a[0].prio >= floor && Matches(w, a[0], p) && a[0].action.Goto? then a[0].action.target
          else floor;
      EvalAppend(w, k, a[1..], b, p, floor');
    }
  }

  function OfFamily(rules: seq<Rule>, f: Family): (r: seq<Rule>)
    ensures forall x :: x in r <==> x in rules && x.family == f
  {
    if rules == [] then []
    else
      assert rules == [rules[0]] + rules[1..];
      if rules[0].family == f then [rules[0]] + OfFamily(rules[1..], f) else OfFamily(rules[1..], f)
  }

  /** Rules of the other family are not there for a packet. */
  lemma {:induction false} EvalFamily(w: World, k: Kernel, rules: seq<Rule>, p: Packet, floor: nat)
    ensures Eval(w, k, OfFamily(rules, p.src.family), p, floor) == Eval(w, k, rules, p, floor)
    decreases |rules|
  {
    if rules != [] {
      var r := rules[0];
      var rest := OfFamily(rules[1..], p.src.family);
      if r.family == p.src.family {
        assert OfFamily(rules, p.src.family)[0] == r && OfFamily(rules, p.src.family)[1..] == rest;
        var floor' := if r.prio >= floor && Matches(w, r, p) && r.action.Goto? then r.action.target else floor;
        EvalFamily(w, k, rules[1..], p, floor');
      } else {
        assert OfFamily(rules, p.src.family) == rest;
        EvalFamily(w, k, rules[1..], p, floor);
      }
    }
  }

  ghost predicate Sorted(rules: seq<Rule>) {
    forall i, j :: 0 <= i < j < |rules| ==> rules[i].prio <= rules[j].prio
  }

  /** The rules with a priority below a mark, or from it on. */
  function Below(rules: seq<Rule>, mark: nat): (r: seq<Rule>)
    ensures forall x :: x in r <==> x in rules && x.prio < mark
  {
    if rules == [] then []
    else
      assert rules == [rules[0]] + rules[1..];
      if rules[0].prio < mark then [rules[0]] + Below(rules[1..], mark) else Below(rules[1..], mark)
  }

  function From(rules: seq<Rule>, mark: nat): (r: seq<Rule>)
    ensures forall x :: x in r <==> x in rules && x.prio >= mark
  {
    if rules == [] then []
    else
      assert rules == [rules[0]] + rules[1..];
      if rules[0].prio >= mark then [rules[0]] + From(rules[1..], mark) else From(rules[1..], mark)
  }

  lemma {:induction false} AllFrom(rules: seq<Rule>, mark: nat)
    requires forall i :: 0 <= i < |rules| ==> rules[i].prio >= mark
    ensures Below(rules, mark) == [] && From(rules, mark) == rules
  {
    if rules != [] {
      AllFrom(rules[1..], mark);
    }
  }

  lemma {:induction false} SortedSplits(rules: seq<Rule>, mark: nat)
    requires Sorted(rules)
    ensures rules == Below(rules, mark) + From(rules, mark)
    ensures Sorted(From(rules, mark))
  {
    if rules != [] {
      if rules[0].prio >= mark {
        AllFrom(rules, mark);
      } else {
        var tail := rules[1..];
        SortedSplits(tail, mark);
        assert Below(rules, mark) == [rules[0]] + Below(tail, mark);
        assert From(rules, mark) == From(tail, mark);
        Rejoin(rules, Below(tail, mark), From(tail, mark));
      }
    }
  }

  lemma Rejoin(rules: seq<Rule>, a: seq<Rule>, b: seq<Rule>)
    requires rules != [] && rules[1..] == a + b
    ensures rules == [rules[0]] + a + b
  {
    assert rules == [rules[0]] + rules[1..];
  }

  // ---------------------------------------------------------------------
  // The kill switch

  /** Of a family's rules below the switch's there are only the kernel's own and the
      own-address rules of `own`; and the three of the switch are in, with their table. */
  ghost predicate SwitchIn(k: Kernel, f: Family, uid: nat) {
    && OfFamily(Below(From(k.rules, SWITCH_LAN), SWITCH_DROP + 1), f) == SwitchRules(f, uid)
    && Refuses(k.routes, f)
  }

  ghost predicate OnlyOurs(k: Kernel, f: Family, own: set<Addr>) {
    && LocalRule(f) in k.rules
    && (forall a :: a in own && a.family == f ==> OwnRule(a) in k.rules)
    && (forall r :: r in k.rules && r.family == f && r.prio < SWITCH_LAN ==>
          r == LocalRule(f) || exists a :: a in own && r == OwnRule(a))
  }

  /** What is left of the routing while the switch stands and no tun is up: what is the
      host's own, an own address by any route, the rest only by a route of main that is
      not its default, and the daemon by any. */
  function HeldVerdict(w: World, p: Packet, own: set<Addr>, uid: nat): (v: Verdict) {
    var host, main := w.route(LOCAL, p), w.route(MAIN, p);
    if host.Some? then host.value.verdict
    else if main.Some? && (p.src in own || main.value.prefixLen > 0 || p.uid == uid) then main.value.verdict
    else Unreachable
  }

  lemma {:induction false} EvalLocal(w: World, k: Kernel, rules: seq<Rule>, p: Packet)
    requires forall i :: 0 <= i < |rules| ==> rules[i] == LocalRule(p.src.family)
    requires rules != []
    ensures Eval(w, k, rules, p, 0) ==
            if w.route(LOCAL, p).Some? then Decided(w.route(LOCAL, p).value.verdict) else Fell(0)
    decreases |rules|
  {
    if w.route(LOCAL, p).None? {
      if |rules| > 1 {
        EvalLocal(w, k, rules[1..], p);
      }
    }
  }

  lemma {:induction false} EvalOwn(w: World, k: Kernel, rules: seq<Rule>, p: Packet)
    requires forall i :: 0 <= i < |rules| ==> IsOwnRule(rules[i])
    ensures Eval(w, k, rules, p, 0) ==
            if OwnRule(p.src) in rules && w.route(MAIN, p).Some?
            then Decided(w.route(MAIN, p).value.verdict) else Fell(0)
    decreases |rules|
  {
    if rules != [] {
      var a :| rules[0] == OwnRule(a);
      EvalOwn(w, k, rules[1..], p);
      assert rules == [rules[0]] + rules[1..];
      assert OwnRule(p.src) in rules <==> a == p.src || OwnRule(p.src) in rules[1..];
    }
  }

  /** The switch's three rules decide every packet that comes to them. */
  lemma EvalSwitch(w: World, k: Kernel, p: Packet, uid: nat, floor: nat)
    requires Refuses(k.routes, p.src.family) && floor <= SWITCH_LAN
    ensures var main := w.route(MAIN, p);
            Eval(w, k, SwitchRules(p.src.family, uid), p, floor) ==
            if main.Some? && (main.value.prefixLen > 0 || p.uid == uid) then Decided(main.value.verdict)
            else Decided(Unreachable)
  {
    var rules := SwitchRules(p.src.family, uid);
    assert rules[1..] == [rules[1], rules[2]] && rules[1..][1..] == [rules[2]];
    assert Eval(w, k, [rules[2]], p, floor) == Decided(Unreachable);
  }

  /** With the switch in and no tun up, every packet that is not the host's own is
      unreachable unless it comes from an own address, is the daemon's, or main has a
      route for it that is not its default: exactly these go where main sends them. */
  lemma SwitchHolds(w: World, k: Kernel, p: Packet, own: set<Addr>, uid: nat)
    requires Sorted(k.rules)
    requires SwitchIn(k, p.src.family, uid) && OnlyOurs(k, p.src.family, own)
    ensures VerdictOn(w, k, p) == HeldVerdict(w, p, own, uid)
  {
    var f := p.src.family;
    var low, high := Below(k.rules, SWITCH_LAN), From(k.rules, SWITCH_LAN);
    var switched, rest := Below(high, SWITCH_DROP + 1), From(high, SWITCH_DROP + 1);
    SortedSplits(k.rules, SWITCH_LAN);
    SortedSplits(high, SWITCH_DROP + 1);
    EvalLow(w, k, low, p, own);
    EvalAppend(w, k, low, high, p, 0);
    EvalAppend(w, k, switched, rest, p, 0);
    EvalFamily(w, k, switched, p, 0);
    EvalSwitch(w, k, p, uid, 0);
  }

  lemma EvalLow(w: World, k: Kernel, low: seq<Rule>, p: Packet, own: set<Addr>)
    requires Sorted(k.rules) && low == Below(k.rules, SWITCH_LAN)
    requires OnlyOurs(k, p.src.family, own)
    ensures var host, main := w.route(LOCAL, p), w.route(MAIN, p);
            Eval(w, k, low, p, 0) ==
            if host.Some? then Decided(host.value.verdict)
            else if p.src in own && main.Some? then Decided(main.value.verdict)
            else Fell(0)
  {
    var locals, owns := Below(low, 1), From(low, 1);
    LowIsSorted(k.rules, SWITCH_LAN);
    SortedSplits(low, 1);
    EvalAppend(w, k, locals, owns, p, 0);
    EvalFamily(w, k, locals, p, 0);
    EvalFamily(w, k, owns, p, 0);
    LowRules(k, p.src.family, own);
    EvalLocal(w, k, OfFamily(locals, p.src.family), p);
    EvalOwn(w, k, OfFamily(owns, p.src.family), p);
    assert p.src in own <==> OwnRule(p.src) in OfFamily(owns, p.src.family);
  }

  lemma LowIsSorted(rules: seq<Rule>, mark: nat)
    requires Sorted(rules)
    ensures Sorted(Below(rules, mark))
  {
    SortedSplits(rules, mark);
    var low := Below(rules, mark);
    assert forall i :: 0 <= i < |low| ==> low[i] == rules[i];
  }

  lemma LowRules(k: Kernel, f: Family, own: set<Addr>)
    requires OnlyOurs(k, f, own)
    ensures var low := Below(k.rules, SWITCH_LAN);
            var l, o := OfFamily(Below(low, 1), f), OfFamily(From(low, 1), f);
            && l != [] && (forall i :: 0 <= i < |l| ==> l[i] == LocalRule(f))
            && (forall i :: 0 <= i < |o| ==> IsOwnRule(o[i]))
            && (forall a: Addr :: a.family == f ==> (a in own <==> OwnRule(a) in o))
  {
    var low := Below(k.rules, SWITCH_LAN);
    var l, o := OfFamily(Below(low, 1), f), OfFamily(From(low, 1), f);
    LowOnes(k, f, own, low, l, o);
    LocalByPlace(l, f);
    OwnByPlace(o);
  }

  ghost predicate IsOwnRule(r: Rule) {
    exists a :: r == OwnRule(a)
  }

  lemma LocalByPlace(l: seq<Rule>, f: Family)
    requires LocalRule(f) in l && forall r :: r in l ==> r == LocalRule(f)
    ensures l != [] && forall i :: 0 <= i < |l| ==> l[i] == LocalRule(f)
  {
    assert forall i :: 0 <= i < |l| ==> l[i] in l;
  }

  lemma OwnByPlace(o: seq<Rule>)
    requires forall r :: r in o ==> IsOwnRule(r)
    ensures forall i :: 0 <= i < |o| ==> IsOwnRule(o[i])
  {
    assert forall i :: 0 <= i < |o| ==> o[i] in o;
  }

  lemma LowOnes(k: Kernel, f: Family, own: set<Addr>, low: seq<Rule>, l: seq<Rule>, o: seq<Rule>)
    requires OnlyOurs(k, f, own)
    requires forall r :: r in low <==> r in k.rules && r.prio < SWITCH_LAN
    requires forall r :: r in l <==> r in low && r.prio < 1 && r.family == f
    requires forall r :: r in o <==> r in low && r.prio >= 1 && r.family == f
    ensures LocalRule(f) in l
    ensures forall r :: r in l ==> r == LocalRule(f)
    ensures forall r :: r in o ==> IsOwnRule(r)
    ensures forall a: Addr :: a.family == f ==> (a in own <==> OwnRule(a) in o)
  {
  }

  /** What the rules below the switch's leave open, whichever of them are in, the switch
      decides: nothing falls through to the default route behind it. */
  lemma SwitchDecidesTheRest(w: World, k: Kernel, p: Packet, uid: nat)
    requires Sorted(k.rules) && SwitchIn(k, p.src.family, uid)
    requires var low := Eval(w, k, Below(k.rules, SWITCH_LAN), p, 0); low.Fell? && low.floor <= SWITCH_LAN
    ensures var main := w.route(MAIN, p);
            VerdictOn(w, k, p) ==
            if main.Some? && (main.value.prefixLen > 0 || p.uid == uid) then main.value.verdict else Unreachable
  {
    var low, high := Below(k.rules, SWITCH_LAN), From(k.rules, SWITCH_LAN);
    var switched, rest := Below(high, SWITCH_DROP + 1), From(high, SWITCH_DROP + 1);
    var floor := Eval(w, k, low, p, 0).floor;
    SortedSplits(k.rules, SWITCH_LAN);
    SortedSplits(high, SWITCH_DROP + 1);
    EvalAppend(w, k, low, high, p, 0);
    EvalAppend(w, k, switched, rest, p, floor);
    EvalFamily(w, k, switched, p, floor);
    EvalSwitch(w, k, p, uid, floor);
  }

  /** Rules that never look into the switch's table do not depend on what is in it. */
  lemma {:induction false} EvalWithoutTable(w: World, k: Kernel, k': Kernel, rules: seq<Rule>, p: Packet, floor: nat)
    requires forall i :: 0 <= i < |rules| && rules[i].action.Lookup? ==> rules[i].action.table != SWITCH_TABLE
    ensures Eval(w, k, rules, p, floor) == Eval(w, k', rules, p, floor)
    decreases |rules|
  {
    if rules != [] {
      var r := rules[0];
      var floor' := if r.prio >= floor && Matches(w, r, p) && r.action.Goto? then r.action.target else floor;
      EvalWithoutTable(w, k, k', rules[1..], p, floor');
    }
  }

  /** What lies below sing-box's first rule, as a kernel of its own. */
  lemma LowKernel(k: Kernel, f: Family, own: set<Addr>)
    requires Sorted(k.rules) && LocalRule(f) in k.rules
    requires forall a :: a in own && a.family == f ==> OwnRule(a) in k.rules
    requires forall r :: r in k.rules && r.family == f && r.prio < 9000 ==>
      r == LocalRule(f) || exists a :: a in own && r == OwnRule(a)
    ensures var low := Below(k.rules, 9000);
            OnlyOurs(k.(rules := low), f, own) && Sorted(low) && Below(low, SWITCH_LAN) == low
  {
    var low := Below(k.rules, 9000);
    LowIsSorted(k.rules, 9000);
    AllBelow(low, SWITCH_LAN);
  }

  lemma {:induction false} AllBelow(rules: seq<Rule>, mark: nat)
    requires forall r :: r in rules ==> r.prio < mark
    ensures Below(rules, mark) == rules
  {
    if rules != [] {
      assert rules[0] in rules;
      AllBelow(rules[1..], mark);
    }
  }

  /** What comes from an own address goes where main sends it, with sing-box's rules from
      9000 on in as without them: its rule is asked first. */
  lemma OwnAddressGoesByMain(w: World, k: Kernel, p: Packet, own: set<Addr>)
    requires var f := p.src.family;
             && Sorted(k.rules) && LocalRule(f) in k.rules
             && (forall a :: a in own && a.family == f ==> OwnRule(a) in k.rules)
             && (forall r :: r in k.rules && r.family == f && r.prio < 9000 ==>
                   r == LocalRule(f) || exists a :: a in own && r == OwnRule(a))
    requires p.src in own && w.route(LOCAL, p).None? && w.route(MAIN, p).Some?
    ensures VerdictOn(w, k, p) == w.route(MAIN, p).value.verdict
  {
    var low, high := Below(k.rules, 9000), From(k.rules, 9000);
    var k' := k.(rules := low);
    LowKernel(k, p.src.family, own);
    EvalLow(w, k', low, p, own);
    SortedSplits(k.rules, 9000);
    EvalAppend(w, k, low, high, p, 0);
    EvalSameRoutes(w, k, k', low, p, 0);
  }

  lemma {:induction false} EvalSameRoutes(w: World, k: Kernel, k': Kernel, rules: seq<Rule>, p: Packet, floor: nat)
    requires k.routes == k'.routes
    ensures Eval(w, k, rules, p, floor) == Eval(w, k', rules, p, floor)
    decreases |rules|
  {
    if rules != [] {
      var r := rules[0];
      var floor' := if r.prio >= floor && Matches(w, r, p) && r.action.Goto? then r.action.target else floor;
      EvalSameRoutes(w, k, k', rules[1..], p, floor');
    }
  }
}
