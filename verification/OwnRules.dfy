/**
  The daemon's sync of its own-address rules, where the connect machine and the kernel's
  rules meet: what its answer says of the rules, and when rules are left without an owner.
 */
module OwnRules {
  import opened Wrappers
  import opened PolicyRules
  import opened RouteManager
  import opened ConnectMachine

  /** Lists the host's addresses and makes the rules theirs; no list where it cannot be
      read.  It errs with rules left in exactly where some are in by then: always when an
      address that had no rule is listed twice. */
  method SyncOwnRules(m: Manager, listed: Option<seq<Addr>>) returns (o: Outcome)
    requires m.Valid() && OursAlone(m.rules)
    modifies m`rules
    ensures m.Valid() && OursAlone(m.rules)
    ensures listed.Some? ==> forall a :: OwnRule(a) in m.rules <==> a in listed.value
    ensures listed.None? ==> m.rules == old(m.rules)
    ensures o.Good? <==> listed.Some? && !RepeatedAnew(listed.value, old(m.rules))
    ensures o.Failed? ==> (o.left <==> exists a :: OwnRule(a) in m.rules)
    ensures listed.Some? && o.Failed? ==> o.left
  {
    if listed.None? {
      var have := Addresses(m.rules, V4) + Addresses(m.rules, V6);
      ExistingAre(m.rules);
      o := Failed(have != []);
      if have != [] {
        assert have[0] in have;
      }
    } else {
      var ok := m.Sync(listed.value);
      o := if ok then Good else Failed(true);
    }
  }

  /** The call that shows it: an address without a rule, given twice, is an error, and its
      rule is in. */
  method RepeatedAddress(m: Manager, a: Addr) returns (ok: bool)
    requires m.Valid() && OursAlone(m.rules) && OwnRule(a) !in m.rules
    modifies m`rules
    ensures !ok && OwnRule(a) in m.rules
  {
    RepeatedTwice(a, m.rules);
    ok := m.Sync([a, a]);
  }

  lemma RepeatedTwice(a: Addr, rules: seq<Rule>)
    requires OwnRule(a) !in rules
    ensures RepeatedAnew([a, a], rules)
  {
    var twice := [a, a];
    assert twice[0] == twice[1] == a;
  }
}
