/**
  The kill switch of the macOS daemon: the packet filter rules a hold request is turned
  into, and what they let out (desktopApp/tunneldaemon/TrafficHold.swift).
 */
module PacketFilter {
  import opened Wrappers
  import opened Bits

  datatype Family = Inet | Inet6

  datatype Proto = Tcp | Udp | Other(number: nat)

  /** A v4 address is its 32 bits; of a v6 one the first 16 are told from the rest. */
  datatype Address = V4(bits: nat) | V6(top: nat, rest: nat)

  function FamilyOf(a: Address): (f: Family) {
    if a.V4? then Inet else Inet6
  }

  datatype Flow = Flow(proto: Proto, src: Address, sport: nat, dst: Address, dport: nat)

  /** A packet; the group is that of the socket it came from. */
  datatype Packet = Packet(out: bool, on: string, flow: Flow, syn: bool, ack: bool, group: Option<nat>)

  predicate TcpOrUdp(p: Packet) {
    p.flow.proto.Tcp? || p.flow.proto.Udp?
  }

  /** The packet that opens a connection. */
  predicate Opens(p: Packet) {
    p.flow.proto.Tcp? && p.syn && !p.ack
  }

  // ---------------------------------------------------------------------
  // Rules

  /** A network: its first address and how many leading bits count. */
  datatype Net = Net(first: Address, length: nat)

  predicate InNet(a: Address, n: Net) {
    match n.first
    case V4(bits) => a.V4? && n.length <= 32 && a.bits / Pow2(32 - n.length) == bits / Pow2(32 - n.length)
    case V6(top, _) => a.V6? && n.length <= 16 && a.top / Pow2(16 - n.length) == top / Pow2(16 - n.length)
  }

  datatype Target = Any | Hosts(hosts: seq<Address>) | Nets(nets: seq<Net>) | Group(id: nat)

  /** A rule, all of them `quick`: what it asks of a packet, and what it does. Without
      `flags any` it matches a TCP packet only if that opens a connection. */
  datatype Rule = Rule(
    pass: bool,
    outOnly: bool,
    on: Option<string>,
    family: Option<Family>,
    protocols: seq<Proto>,
    sport: Option<nat>,
    target: Target,
    dport: Option<nat>,
    anyFlags: bool,
    state: bool)

  predicate Meets(p: Packet, t: Target) {
    match t
    case Any => true
    case Hosts(hosts) => p.flow.dst in hosts
    case Nets(nets) => exists i :: 0 <= i < |nets| && InNet(p.flow.dst, nets[i])
    case Group(id) => TcpOrUdp(p) && p.group == Some(id)
  }

  predicate Matches(r: Rule, p: Packet) {
    && (r.outOnly ==> p.out)
    && (r.on.Some? ==> p.on == r.on.value)
    && (r.family.Some? ==> FamilyOf(p.flow.dst) == r.family.value)
    && (r.protocols != [] ==> p.flow.proto in r.protocols)
    && (r.sport.Some? ==> p.flow.sport == r.sport.value)
    && Meets(p, r.target)
    && (r.dport.Some? ==> p.flow.dport == r.dport.value)
    && (r.pass && !r.anyFlags && p.flow.proto.Tcp? ==> Opens(p))
  }

  function FirstMatch(rules: seq<Rule>, p: Packet): (r: Option<Rule>) {
    if rules == [] then None
    else if Matches(rules[0], p) then Some(rules[0])
    else FirstMatch(rules[1..], p)
  }

  /** What no rule matches is passed, as pf does. */
  predicate Passed(rules: seq<Rule>, p: Packet) {
    FirstMatch(rules, p).None? || FirstMatch(rules, p).value.pass
  }

  // ---------------------------------------------------------------------
  // The rules of a hold

  datatype HoldRequest = HoldRequest(interface: string, passes: seq<Address>)

  const TUNNEL_GROUP: nat := 7_302_243

  /** What goes to `whom` is let out twice over: as a connection opened under the block,
      and as one that was open before it. */
  function Lets(whom: Target, family: Option<Family>, protocols: seq<Proto>): (rules: seq<Rule>) {
    [Rule(true, true, None, family, protocols, None, whom, None, false, true),
     Rule(true, true, None, family, [Tcp], None, whom, None, true, false)]
  }

  const INSIDE: seq<Rule> := [Rule(true, true, Some("lo0"), None, [], None, Any, None, true, false)]

  function Tunnel(interface: string): (rules: seq<Rule>) {
    [Rule(true, false, Some(interface), None, [], None, Any, None, true, false)]
  }

  const LEASE: seq<Rule> :=
    [Rule(true, true, None, Some(Inet), [Udp], Some(68), Any, Some(67), false, true),
     Rule(true, true, None, Some(Inet6), [Udp], Some(546), Any, Some(547), false, true)]

  function OfFamily(passes: seq<Address>, f: Family): (r: seq<Address>)
    ensures forall a :: a in r <==> a in passes && FamilyOf(a) == f
  {
    if passes == [] then []
    else
      assert passes == [passes[0]] + passes[1..];
      if FamilyOf(passes[0]) == f then [passes[0]] + OfFamily(passes[1..], f) else OfFamily(passes[1..], f)
  }

  function LetsHosts(passes: seq<Address>, f: Family): (rules: seq<Rule>) {
    var hosts := OfFamily(passes, f);
    if hosts == [] then [] else Lets(Hosts(hosts), Some(f), [])
  }

  const NO_NAMES: seq<Rule> := [Rule(false, true, None, None, [Tcp, Udp], None, Any, Some(53), false, false)]

  function Octets(a: nat, b: nat, c: nat, d: nat): (r: Address) {
    V4(0x100_0000 * a + 0x1_0000 * b + 0x100 * c + d)
  }

  const LOCAL_V4: seq<Net> :=
    [Net(Octets(10, 0, 0, 0), 8), Net(Octets(172, 16, 0, 0), 12), Net(Octets(192, 168, 0, 0), 16),
     Net(Octets(169, 254, 0, 0), 16), Net(Octets(224, 0, 0, 0), 4), Net(Octets(255, 255, 255, 255), 32)]

  const LOCAL_V6: seq<Net> := [Net(V6(0xfe80, 0), 10), Net(V6(0xfc00, 0), 7), Net(V6(0xff02, 0), 16)]

  const REFUSE: seq<Rule> := [Rule(false, true, None, None, [], None, Any, None, false, false)]

  function Rules(request: HoldRequest): (rules: seq<Rule>) {
    INSIDE + (Tunnel(request.interface)
    + (Lets(Group(TUNNEL_GROUP), None, [Tcp, Udp])
    + (LEASE
    + (LetsHosts(request.passes, Inet)
    + (LetsHosts(request.passes, Inet6)
    + (NO_NAMES
    + (Lets(Nets(LOCAL_V4), Some(Inet), [])
    + (Lets(Nets(LOCAL_V6), Some(Inet6), [])
    + REFUSE))))))))
  }

  // ---------------------------------------------------------------------
  // What the rules mean

  predicate OnTheLocalNetwork(a: Address) {
    match a
    case V4(bits) =>
      var first, second := bits / 0x100_0000, bits / 0x1_0000 % 0x100;
      || first == 10
      || (first == 172 && 16 <= second <= 31)
      || (first == 192 && second == 168)
      || (first == 169 && second == 254)
      || 224 <= first <= 239
      || bits == 0xFFFF_FFFF
    case V6(top, _) => 0xfe80 <= top <= 0xfebf || 0xfc00 <= top <= 0xfdff || top == 0xff02
  }

  predicate ValidAddress(a: Address) {
    match a
    case V4(bits) => bits < 0x1_0000_0000
    case V6(top, _) => top < 0x1_0000
  }

  lemma PowersUsed()
    ensures Pow2(0) == 1 && Pow2(6) == 64 && Pow2(9) == 512
    ensures Pow2(16) == 0x1_0000 && Pow2(20) == 0x10_0000 && Pow2(24) == 0x100_0000 && Pow2(28) == 0x1000_0000
  {
  }

  /** Leading bits, told by octets. */
  lemma LeadingOctets(x: nat)
    requires x < 0x1_0000_0000
    ensures var first, second := x / 0x100_0000, x / 0x1_0000 % 0x100;
            && (x / 0x10_0000 == 172 * 16 + 1 <==> first == 172 && 16 <= second <= 31)
            && (x / 0x1_0000 == 192 * 256 + 168 <==> first == 192 && second == 168)
            && (x / 0x1_0000 == 169 * 256 + 254 <==> first == 169 && second == 254)
            && (x / 0x1000_0000 == 14 <==> 224 <= first <= 239)
  {
  }

  lemma InLocal4(a: Address)
    requires a.V4? && ValidAddress(a)
    ensures InNet(a, LOCAL_V4[0]) <==> a.bits / 0x100_0000 == 10
    ensures InNet(a, LOCAL_V4[1]) <==> a.bits / 0x10_0000 == 172 * 16 + 1
    ensures InNet(a, LOCAL_V4[2]) <==> a.bits / 0x1_0000 == 192 * 256 + 168
    ensures InNet(a, LOCAL_V4[3]) <==> a.bits / 0x1_0000 == 169 * 256 + 254
    ensures InNet(a, LOCAL_V4[4]) <==> a.bits / 0x1000_0000 == 14
    ensures InNet(a, LOCAL_V4[5]) <==> a.bits == 0xFFFF_FFFF
  {
    PowersUsed();
  }

  lemma LocalV4(a: Address)
    requires a.V4? && ValidAddress(a)
    ensures (exists i :: 0 <= i < |LOCAL_V4| && InNet(a, LOCAL_V4[i])) <==> OnTheLocalNetwork(a)
  {
    InLocal4(a);
    LeadingOctets(a.bits);
    assert (exists i :: 0 <= i < |LOCAL_V4| && InNet(a, LOCAL_V4[i])) <==>
           InNet(a, LOCAL_V4[0]) || InNet(a, LOCAL_V4[1]) || InNet(a, LOCAL_V4[2]) || InNet(a, LOCAL_V4[3]) ||
               InNet(a, LOCAL_V4[4]) || InNet(a, LOCAL_V4[5]);
  }

  lemma LocalV6(a: Address)
    requires a.V6? && ValidAddress(a)
    ensures (exists i :: 0 <= i < |LOCAL_V6| && InNet(a, LOCAL_V6[i])) <==> OnTheLocalNetwork(a)
  {
    PowersUsed();
    assert InNet(a, LOCAL_V6[0]) <==> 0xfe80 <= a.top <= 0xfebf;
    assert InNet(a, LOCAL_V6[1]) <==> 0xfc00 <= a.top <= 0xfdff;
    assert InNet(a, LOCAL_V6[2]) <==> a.top == 0xff02;
  }

  predicate IsLease(p: Packet) {
    && p.flow.proto.Udp?
    && (if FamilyOf(p.flow.dst).Inet? then p.flow.sport == 68 && p.flow.dport == 67
        else p.flow.sport == 546 && p.flow.dport == 547)
  }

  predicate IsName(p: Packet) {
    TcpOrUdp(p) && p.flow.dport == 53
  }

  predicate OfTheTunnel(p: Packet) {
    TcpOrUdp(p) && p.group == Some(7_302_243)
  }

  /** What may leave beside the loopback and the tunnel. */
  predicate Allowed(request: HoldRequest, p: Packet) {
    || OfTheTunnel(p)
    || IsLease(p)
    || p.flow.dst in request.passes
    || (OnTheLocalNetwork(p.flow.dst) && !IsName(p))
  }

  lemma {:induction false} FirstMatchAppend(a: seq<Rule>, b: seq<Rule>, p: Packet)
    ensures FirstMatch(a + b, p) == if FirstMatch(a, p).Some? then FirstMatch(a, p) else FirstMatch(b, p)
  {
    if a == [] {
      assert a + b == b;
    } else {
      FirstMatchAppend(a[1..], b, p);
      assert (a + b)[1..] == a[1..] + b;
    }
  }

  lemma One(r: Rule, p: Packet)
    ensures FirstMatch([r], p) == if Matches(r, p) then Some(r) else None
  {
  }

  lemma Two(r: Rule, s: Rule, p: Packet)
    ensures FirstMatch([r, s], p) == if Matches(r, p) then Some(r) else if Matches(s, p) then Some(s) else None
  {
    assert [r, s] == [r] + [s];
    FirstMatchAppend([r], [s], p);
    One(r, p);
    One(s, p);
  }

  /** How a packet that leaves is decided by some rules: passed and tracked, or passed as
      it came, or refused, or left to the next rules. */
  datatype Say = Track | Let | Deny | Next

  function Says(rules: seq<Rule>, p: Packet): (s: Say) {
    match FirstMatch(rules, p)
    case None => Next
    case Some(r) => if !r.pass then Deny else if r.state then Track else Let
  }

  function Then(s: Say, t: Say): (r: Say) {
    if s.Next? then t else s
  }

  lemma SaysAppend(a: seq<Rule>, b: seq<Rule>, p: Packet)
    ensures Says(a + b, p) == Then(Says(a, p), Says(b, p))
  {
    FirstMatchAppend(a, b, p);
  }

  /** A mid-connection packet is passed wherever an opening one is. */
  function LetAs(p: Packet): (s: Say) {
    if p.flow.proto.Tcp? && !Opens(p) then Let else Track
  }

  lemma LetsSay(whom: Target, family: Option<Family>, protocols: seq<Proto>, p: Packet)
    requires p.out
    requires protocols != [] ==> Tcp in protocols
    ensures Says(Lets(whom, family, protocols), p) ==
            if (family.Some? ==> FamilyOf(p.flow.dst) == family.value)
               && (protocols != [] ==> p.flow.proto in protocols)
               && Meets(p, whom)
            then LetAs(p) else Next
  {
    var rules := Lets(whom, family, protocols);
    Two(rules[0], rules[1], p);
  }

  lemma HostsSay(passes: seq<Address>, f: Family, p: Packet)
    requires p.out
    ensures Says(LetsHosts(passes, f), p) ==
            if p.flow.dst in passes && FamilyOf(p.flow.dst) == f then LetAs(p) else Next
  {
    var hosts := OfFamily(passes, f);
    if hosts != [] {
      LetsSay(Hosts(hosts), Some(f), [], p);
    } else {
      assert p.flow.dst !in hosts;
    }
  }

  /** The first rules of a hold and the last, each as one answer. */
  function Answer(request: HoldRequest, p: Packet): (s: Say) {
    if p.on == "lo0" || p.on == request.interface then Let
    else if Allowed(request, p) then LetAs(p)
    else Deny
  }

  /** The whole list under first match: exactly what is allowed leaves, whether or not it
      opens a connection, and what is tracked is what pf has seen from its start. */
  lemma RulesSay(request: HoldRequest, p: Packet)
    requires p.out && ValidAddress(p.flow.dst)
    ensures Says(Rules(request), p) == Answer(request, p)
  {
    var l9 := REFUSE;
    var l8 := Lets(Nets(LOCAL_V6), Some(Inet6), []);
    var l7 := Lets(Nets(LOCAL_V4), Some(Inet), []);
    var l5, l4 := LetsHosts(request.passes, Inet6), LetsHosts(request.passes, Inet);
    var l2, l1 := Lets(Group(TUNNEL_GROUP), None, [Tcp, Udp]), Tunnel(request.interface);
    LocalSay(p);
    HostsSay(request.passes, Inet, p);
    HostsSay(request.passes, Inet6, p);
    LetsSay(Group(TUNNEL_GROUP), None, [Tcp, Udp], p);
    FixedSay(p);
    One(l1[0], p);
    SaysAppend(NO_NAMES, l7 + (l8 + l9), p);
    SaysAppend(l5, NO_NAMES + (l7 + (l8 + l9)), p);
    SaysAppend(l4, l5 + (NO_NAMES + (l7 + (l8 + l9))), p);
    SaysAppend(LEASE, l4 + (l5 + (NO_NAMES + (l7 + (l8 + l9)))), p);
    SaysAppend(l2, LEASE + (l4 + (l5 + (NO_NAMES + (l7 + (l8 + l9))))), p);
    SaysAppend(l1, l2 + (LEASE + (l4 + (l5 + (NO_NAMES + (l7 + (l8 + l9)))))), p);
    SaysAppend(INSIDE, l1 + (l2 + (LEASE + (l4 + (l5 + (NO_NAMES + (l7 + (l8 + l9))))))), p);
  }

  lemma LocalSay(p: Packet)
    requires p.out && ValidAddress(p.flow.dst)
    ensures Says(Lets(Nets(LOCAL_V4), Some(Inet), []) + (Lets(Nets(LOCAL_V6), Some(Inet6), []) + REFUSE), p) ==
            if OnTheLocalNetwork(p.flow.dst) then LetAs(p) else Deny
  {
    var l7, l8 := Lets(Nets(LOCAL_V4), Some(Inet), []), Lets(Nets(LOCAL_V6), Some(Inet6), []);
    LetsSay(Nets(LOCAL_V4), Some(Inet), [], p);
    LetsSay(Nets(LOCAL_V6), Some(Inet6), [], p);
    One(REFUSE[0], p);
    SaysAppend(l8, REFUSE, p);
    SaysAppend(l7, l8 + REFUSE, p);
    if p.flow.dst.V4? {
      LocalV4(p.flow.dst);
    } else {
      LocalV6(p.flow.dst);
    }
  }

  lemma FixedSay(p: Packet)
    requires p.out
    ensures Says(INSIDE, p) == if p.on == "lo0" then Let else Next
    ensures Says(LEASE, p) == if IsLease(p) then Track else Next
    ensures Says(NO_NAMES, p) == if IsName(p) then Deny else Next
  {
    One(INSIDE[0], p);
    One(NO_NAMES[0], p);
    Two(LEASE[0], LEASE[1], p);
  }

  /** A packet is passed exactly when it stays inside or is allowed. */
  lemma PassedIffAllowed(request: HoldRequest, p: Packet)
    requires p.out && ValidAddress(p.flow.dst)
    ensures Passed(Rules(request), p) <==> p.on == "lo0" || p.on == request.interface || Allowed(request, p)
  {
    RulesSay(request, p);
  }

  /** Where the packet that opens a connection is passed, every later one of that
      connection is too, with no state to go by. */
  lemma OpenBeforeTheBlock(request: HoldRequest, opening: Packet, later: Packet)
    requires opening.out && ValidAddress(opening.flow.dst) && Opens(opening)
    requires later == opening.(syn := later.syn, ack := later.ack)
    requires Passed(Rules(request), opening)
    ensures Passed(Rules(request), later)
  {
    PassedIffAllowed(request, opening);
    PassedIffAllowed(request, later);
  }

  ghost predicate OutOnly(rules: seq<Rule>) {
    forall i :: 0 <= i < |rules| ==> rules[i].outOnly
  }

  lemma BothOutOnly(a: seq<Rule>, b: seq<Rule>)
    requires OutOnly(a) && OutOnly(b)
    ensures OutOnly(a + b)
  {
  }

  lemma {:induction false} NothingInboundMatches(rules: seq<Rule>, p: Packet)
    requires OutOnly(rules) && !p.out
    ensures Says(rules, p) == Next
  {
    if rules != [] {
      NothingInboundMatches(rules[1..], p);
    }
  }

  /** Every rule of a hold but the tunnel's own. */
  function Others(request: HoldRequest): (rules: seq<Rule>)
    ensures OutOnly(rules) && Rules(request) == INSIDE + (Tunnel(request.interface) + rules)
  {
    var end := Lets(Nets(LOCAL_V4), Some(Inet), []) + (Lets(Nets(LOCAL_V6), Some(Inet6), []) + REFUSE);
    var l5, l4 := LetsHosts(request.passes, Inet6), LetsHosts(request.passes, Inet);
    var l2 := Lets(Group(TUNNEL_GROUP), None, [Tcp, Udp]);
    assert OutOnly(end);
    BothOutOnly(NO_NAMES, end);
    BothOutOnly(l5, NO_NAMES + end);
    BothOutOnly(l4, l5 + (NO_NAMES + end));
    BothOutOnly(LEASE, l4 + (l5 + (NO_NAMES + end)));
    BothOutOnly(l2, LEASE + (l4 + (l5 + (NO_NAMES + end))));
    l2 + (LEASE + (l4 + (l5 + (NO_NAMES + end))))
  }

  /** Nothing that comes in is refused, and no rule but the tunnel's is asked of it. */
  lemma InboundPasses(request: HoldRequest, p: Packet)
    requires !p.out
    ensures Passed(Rules(request), p)
    ensures Says(Rules(request), p) == if p.on == request.interface then Let else Next
  {
    var tunnel, others := Tunnel(request.interface), Others(request);
    NothingInboundMatches(INSIDE, p);
    NothingInboundMatches(others, p);
    One(tunnel[0], p);
    SaysAppend(tunnel, others, p);
    SaysAppend(INSIDE, tunnel + others, p);
  }

  // ---------------------------------------------------------------------
  // Runs

  /** The filter at work: what has a state is passed by it, and what a tracking rule
      passes gets one. */
  function StatesAfter(request: HoldRequest, run: seq<Packet>): (states: set<Flow>) {
    if run == [] then {}
    else
      var before, p := StatesAfter(request, run[..|run| - 1]), run[|run| - 1];
      if p.flow !in before && p.out && Says(Rules(request), p).Track? then before + {p.flow} else before
  }

  predicate Leaves(request: HoldRequest, run: seq<Packet>, i: nat)
    requires i < |run|
  {
    run[i].out && (run[i].flow in StatesAfter(request, run[..i]) || Passed(Rules(request), run[i]))
  }

  /** A packet that gives its connection a state: the first of one, allowed out, and on its
      way out by neither the loopback nor the tunnel. */
  predicate Tracks(request: HoldRequest, p: Packet, f: Flow) {
    && p.out && p.flow == f && p.on != "lo0" && p.on != request.interface && Allowed(request, p)
    && (f.proto.Tcp? ==> p.syn && !p.ack)
  }

  ghost predicate HasTracked(request: HoldRequest, run: seq<Packet>, f: Flow) {
    exists j :: 0 <= j < |run| && Tracks(request, run[j], f)
  }

  ghost predicate AllValid(run: seq<Packet>) {
    forall k :: 0 <= k < |run| ==> ValidAddress(run[k].flow.dst)
  }

  lemma TracksIs(request: HoldRequest, p: Packet, f: Flow)
    requires ValidAddress(p.flow.dst)
    ensures Tracks(request, p, f) <==> p.out && p.flow == f && Says(Rules(request), p).Track?
  {
    if p.out {
      RulesSay(request, p);
    }
  }

  /** Exactly the connections that such a packet began have a state. */
  lemma {:induction false} StatesAre(request: HoldRequest, run: seq<Packet>, f: Flow)
    requires AllValid(run)
    ensures f in StatesAfter(request, run) <==> HasTracked(request, run, f)
  {
    if run != [] {
      var front, p := run[..|run| - 1], run[|run| - 1];
      StatesAre(request, front, f);
      TracksIs(request, p, f);
      TrackedSnoc(request, front, p, f);
      assert run == front + [p];
    }
  }

  lemma TrackedSnoc(request: HoldRequest, front: seq<Packet>, p: Packet, f: Flow)
    ensures HasTracked(request, front + [p], f) <==> HasTracked(request, front, f) || Tracks(request, p, f)
  {
    var run := front + [p];
    if j :| 0 <= j < |front| && Tracks(request, front[j], f) {
      assert Tracks(request, run[j], f);
    }
    if Tracks(request, p, f) {
      assert Tracks(request, run[|front|], f);
    }
  }

  /** In every run of packets from the moment the block stands, exactly these leave: what is
      inside, what is allowed, and what goes on a connection whose first packet was. */
  lemma LeavesExactly(request: HoldRequest, run: seq<Packet>, i: nat)
    requires AllValid(run) && i < |run|
    ensures Leaves(request, run, i) <==>
            && run[i].out
            && (|| run[i].on == "lo0" || run[i].on == request.interface || Allowed(request, run[i])
                || HasTracked(request, run[..i], run[i].flow))
  {
    StatesAre(request, run[..i], run[i].flow);
    if run[i].out {
      PassedIffAllowed(request, run[i]);
    }
  }

  /** So whatever leaves by neither the loopback nor the tunnel is allowed itself, or is of a
      connection that the tunnel's own group opened. */
  lemma OnlyAllowedLeaves(request: HoldRequest, run: seq<Packet>, i: nat)
    requires AllValid(run) && i < |run| && Leaves(request, run, i)
    requires run[i].on != "lo0" && run[i].on != request.interface
    ensures Allowed(request, run[i]) || exists j :: 0 <= j < i && run[j].flow == run[i].flow && OfTheTunnel(run[j])
  {
    LeavesExactly(request, run, i);
    if !Allowed(request, run[i]) {
      var j :| 0 <= j < i && Tracks(request, run[..i][j], run[i].flow);
      assert run[j] == run[..i][j];
    }
  }
}
