/** Bitwise operators on natural numbers, and what they come to under a netmask. */
module Bits {

  const WORD: nat := 0x1_0000_0000

  function And(a: nat, b: nat): (r: nat) {
    if a == 0 || b == 0 then 0
    else 2 * And(a / 2, b / 2) + (if a % 2 == 1 && b % 2 == 1 then 1 else 0)
  }

  function Or(a: nat, b: nat): (r: nat)
    decreases a + b
  {
    if a == 0 then b
    else if b == 0 then a
    else 2 * Or(a / 2, b / 2) + (if a % 2 == 1 || b % 2 == 1 then 1 else 0)
  }

  /** `~x` on 32 bits, read as an unsigned number. */
  function Not(x: nat): (r: nat)
    requires x < WORD
  {
    WORD - 1 - x
  }

  function Pow2(k: nat): (r: nat)
    ensures r > 0
  {
    if k == 0 then 1 else 2 * Pow2(k - 1)
  }

  /** A netmask: ones down to some bit, zeros below. */
  ghost predicate IsNetmask(mask: nat) {
    mask < WORD && exists k: nat :: Not(mask) == Pow2(k) - 1
  }

  lemma {:induction false} LowBitsRoundTrip(net: nat, low: nat, k: nat)
    requires And(net, Pow2(k) - 1) == 0
    requires low < Pow2(k)
    ensures And(Or(net, low), Pow2(k) - 1) == low
    decreases k
  {
    if k > 0 {
      assert (Pow2(k) - 1) / 2 == Pow2(k - 1) - 1;
      if net == 0 {
        OrZero(low);
      }
      LowBitsRoundTrip(net / 2, low / 2, k - 1);
      HalfOr(net, low);
    }
  }

  lemma OrZero(a: nat)
    ensures Or(0, a) == a && Or(a, 0) == a
  {
  }

  lemma HalfOr(a: nat, b: nat)
    ensures Or(a, b) / 2 == Or(a / 2, b / 2)
    ensures Or(a, b) % 2 == (if a % 2 == 1 || b % 2 == 1 then 1 else 0)
  {
  }

  lemma HalfAnd(a: nat, b: nat)
    ensures And(a, b) / 2 == And(a / 2, b / 2)
    ensures And(a, b) % 2 == (if a % 2 == 1 && b % 2 == 1 then 1 else 0)
  {
  }

  lemma {:induction false} OrBound(a: nat, b: nat, k: nat)
    requires a < Pow2(k) && b < Pow2(k)
    ensures Or(a, b) < Pow2(k)
  {
    if k > 0 {
      OrBound(a / 2, b / 2, k - 1);
      HalfOr(a, b);
    }
  }

  lemma OrFitsWord(a: nat, b: nat)
    requires a < WORD && b < WORD
    ensures Or(a, b) < WORD
  {
    WordIsPower();
    OrBound(a, b, 32);
  }

  /** Bit i of a number. */
  function Bit(x: nat, i: nat): (b: bool) {
    if i == 0 then x % 2 == 1 else Bit(x / 2, i - 1)
  }

  lemma ZeroBits(i: nat)
    ensures !Bit(0, i)
  {
  }

  /** The operators are what they are bit by bit. */
  lemma {:induction false} AndBit(a: nat, b: nat, i: nat)
    ensures Bit(And(a, b), i) <==> Bit(a, i) && Bit(b, i)
    decreases i
  {
    if a == 0 || b == 0 {
      ZeroBits(i);
    } else if i > 0 {
      AndBit(a / 2, b / 2, i - 1);
    }
  }

  lemma {:induction false} OrBit(a: nat, b: nat, i: nat)
    ensures Bit(Or(a, b), i) <==> Bit(a, i) || Bit(b, i)
    decreases i
  {
    if a == 0 || b == 0 {
      ZeroBits(i);
    } else if i > 0 {
      HalfOr(a, b);
      OrBit(a / 2, b / 2, i - 1);
    }
  }

  /** Under all ones a number is itself. */
  lemma {:induction false} AndOnes(x: nat, m: nat)
    requires x < Pow2(m)
    ensures And(x, Pow2(m) - 1) == x
  {
    if m > 0 {
      HalfAnd(x, Pow2(m) - 1);
      assert (Pow2(m) - 1) / 2 == Pow2(m - 1) - 1;
      AndOnes(x / 2, m - 1);
    }
  }

  lemma PowersGrow(k: nat, m: nat)
    requires k <= m
    ensures Pow2(k) <= Pow2(m)
    decreases m - k
  {
    if k < m {
      PowersGrow(k, m - 1);
    }
  }

  /** A network and a number below it do not share a bit: together they are their sum, and
      above the host's bits there is the network alone. */
  lemma NetPart(net: nat, low: nat, k: nat, m: nat)
    requires k <= m && net < Pow2(m) && low < Pow2(k) && And(net, Pow2(k) - 1) == 0
    ensures Or(net, low) == net + low
    ensures Pow2(k) <= Pow2(m) && And(Or(net, low), Pow2(m) - Pow2(k)) == net
  {
    NetAndHostAdd(net, low, k);
    PowersGrow(k, m);
    NetAboveHost(net, low, k, m);
  }

  lemma {:induction false} NetAndHostAdd(net: nat, low: nat, k: nat)
    requires low < Pow2(k) && And(net, Pow2(k) - 1) == 0
    ensures Or(net, low) == net + low
    decreases k
  {
    if k > 0 {
      HalfAnd(net, Pow2(k) - 1);
      assert (Pow2(k) - 1) / 2 == Pow2(k - 1) - 1;
      NetAndHostAdd(net / 2, low / 2, k - 1);
      HalfOr(net, low);
    } else {
      OrZero(net);
    }
  }

  lemma SameHalves(a: nat, b: nat)
    requires a / 2 == b / 2 && a % 2 == b % 2
    ensures a == b
  {
  }

  lemma {:induction false} NetAboveHost(net: nat, low: nat, k: nat, m: nat)
    requires k <= m && net < Pow2(m) && low < Pow2(k) <= Pow2(m) && And(net, Pow2(k) - 1) == 0
    ensures And(Or(net, low), Pow2(m) - Pow2(k)) == net
    decreases k
  {
    if k == 0 {
      OrZero(net);
      AndOnes(net, m);
    } else {
      var all, mask := Or(net, low), Pow2(m) - Pow2(k);
      HalfAnd(net, Pow2(k) - 1);
      HalfOr(net, low);
      HalfAnd(all, mask);
      assert (Pow2(k) - 1) / 2 == Pow2(k - 1) - 1;
      assert mask / 2 == Pow2(m - 1) - Pow2(k - 1) && mask % 2 == 0;
      NetAboveHost(net / 2, low / 2, k - 1, m - 1);
      SameHalves(And(all, mask), net);
    }
  }

  /** A host number put under a network: the two add up, and both are taken out again,
      with a netmask, no host bits in the network, and a number the host part has room for. */
  lemma HostRoundTrip(net: nat, mask: nat, host: nat)
    requires IsNetmask(mask) && net < WORD
    requires And(net, Not(mask)) == 0
    requires host <= Not(mask)
    ensures Or(net, host) == net + host
    ensures And(Or(net, host), Not(mask)) == host && And(Or(net, host), mask) == net
  {
    var k: nat :| Not(mask) == Pow2(k) - 1;
    WordIsPower();
    if k > 32 {
      PowersGrow(33, k);
    }
    LowBitsRoundTrip(net, host, k);
    NetPart(net, host, k, 32);
    assert mask == WORD - Pow2(k);
  }

  lemma WordIsPower()
    ensures Pow2(32) == WORD && Pow2(33) == 2 * WORD
  {
    assert Pow2(8) == 0x100;
    assert Pow2(16) == 0x1_0000;
    assert Pow2(24) == 0x100_0000;
    assert Pow2(32) == WORD;
  }
}
