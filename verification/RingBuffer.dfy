/**
  The ring buffer under the TCP splice.  A byte is written, then handed on without
  being copied, and its place is free again only when it is released; so the used
  part of the ring is a queue in two pieces, the bytes in flight and, behind them,
  the bytes not yet read.
 */
module RingBuffer {
  import opened Bytes

  /** A stretch of the buffer, as an iovec names one. */
  datatype Region = Region(base: nat, len: nat)

  function Wrap(x: nat, max: nat): (r: nat) {
    if x < max then x else x - max
  }

  /** On positions the ring can reach, the remainder is one turn at most. */
  lemma ModIsWrap(x: nat, max: nat)
    requires x < 2 * max
    ensures x % max == Wrap(x, max)
  {
    if x >= max {
      assert x == max + (x - max);
      assert x / max == 1 by {
        assert x / max >= 1;
      }
    }
  }

  /** `n` bytes from position `from` on, going round. */
  function Ring(data: seq<Byte>, from: nat, n: nat): (s: seq<Byte>)
    requires n <= |data| && (from < |data| || n == 0)
    ensures |s| == n && forall i :: 0 <= i < n ==> s[i] == data[Wrap(from + i, |data|)]
  {
    seq(n, i requires 0 <= i < n => data[Wrap(from + i, |data|)])
  }

  /** A ring is read in two goes as in one. */
  lemma RingSplit(data: seq<Byte>, from: nat, a: nat, b: nat)
    requires from < |data| && a + b <= |data|
    ensures Ring(data, from, a + b) == Ring(data, from, a) + Ring(data, Wrap(from + a, |data|), b)
  {
    var whole, first, rest := Ring(data, from, a + b), Ring(data, from, a), Ring(data, Wrap(from + a, |data|), b);
    forall i | 0 <= i < a + b ensures whole[i] == (first + rest)[i] {
      assert i >= a ==> rest[i - a] == data[Wrap(Wrap(from + a, |data|) + (i - a), |data|)];
    }
  }

  /** Where the oldest byte in flight lies. */
  function Oldest(rp: nat, rda: nat, use: nat, max: nat): (s: nat)
    requires rda <= use <= max
  {
    if max == 0 then 0 else Wrap(rp + max - (use - rda), max)
  }

  /** Moving the read position on leaves the write position and the oldest byte where
      they were. */
  lemma ReadOn(rp: nat, rda: nat, use: nat, size: nat, max: nat)
    requires rp < max && size <= rda <= use <= max
    ensures var next := Wrap(rp + size, max);
            && Wrap(next + (rda - size), max) == Wrap(rp + rda, max)
            && Oldest(next, rda - size, use, max) == Oldest(rp, rda, use, max)
            && Wrap(Oldest(rp, rda, use, max) + (use - rda), max) == rp
  {
  }

  /** And what was read follows what was in flight. */
  lemma ReadBytes(d: seq<Byte>, rp: nat, rda: nat, use: nat, size: nat)
    requires rp < |d| && size <= rda <= use <= |d|
    ensures var next, start := Wrap(rp + size, |d|), Oldest(rp, rda, use, |d|);
            && Ring(d, start, use - (rda - size)) == Ring(d, start, use - rda) + Ring(d, rp, rda)[..size]
            && Ring(d, next, rda - size) == Ring(d, rp, rda)[size..]
  {
    ReadOn(rp, rda, use, size, |d|);
    RingSplit(d, rp, size, rda - size);
    RingSplit(d, Oldest(rp, rda, use, |d|), use - rda, size);
  }

  /** Below the end of the buffer a ring is a stretch of it. */
  lemma RingIsSlice(data: seq<Byte>, from: nat, n: nat)
    requires from + n <= |data| && (from < |data| || n == 0)
    ensures Ring(data, from, n) == data[from..from + n]
  {
    var s := Ring(data, from, n);
    assert forall i :: 0 <= i < n ==> s[i] == data[from..from + n][i];
  }

  function Bytewise(data: seq<Byte>, regions: seq<Region>): (s: seq<Byte>)
    requires forall r :: r in regions ==> r.base + r.len <= |data|
  {
    if regions == [] then []
    else data[regions[0].base..regions[0].base + regions[0].len] + Bytewise(data, regions[1..])
  }

  lemma BytewiseOne(data: seq<Byte>, r: Region)
    requires r.base + r.len <= |data|
    ensures Bytewise(data, [r]) == data[r.base..r.base + r.len]
  {
    assert [r][1..] == [];
  }

  lemma BytewiseTwo(data: seq<Byte>, r: Region, s: Region)
    requires r.base + r.len <= |data| && s.base + s.len <= |data|
    ensures Bytewise(data, [r, s]) == data[r.base..r.base + r.len] + data[s.base..s.base + s.len]
  {
    assert [r, s][1..] == [s];
    BytewiseOne(data, s);
  }

  /** A ring that goes round the end is two stretches. */
  lemma RingIsTwoSlices(data: seq<Byte>, from: nat, n: nat)
    requires from < |data| && |data| - from < n <= |data|
    ensures Ring(data, from, n) == data[from..] + data[..n - (|data| - from)]
  {
    var whole, pieces := Ring(data, from, n), data[from..] + data[..n - (|data| - from)];
    forall i | 0 <= i < n ensures whole[i] == pieces[i] {
    }
  }

  /** The k-th position of some regions, one after the other, as readv and writev take them. */
  function PositionIn(regions: seq<Region>, k: nat): (p: nat) {
    if regions == [] then 0
    else if k < regions[0].len then regions[0].base + k
    else PositionIn(regions[1..], k - regions[0].len)
  }

  class Buffer {
    var rp: nat
    var wp: nat
    var rda: nat
    var use: nat
    const max: nat
    const data: array<Byte>

    ghost predicate Valid()
      reads this
    {
      && data.Length == max
      && rda <= use <= max
      && (if max == 0 then rp == wp == 0 else rp < max && wp == Wrap(rp + rda, max) < max)
    }

    /** Where the oldest byte in flight lies. */
    ghost function Start(): (s: nat)
      requires Valid()
      reads this
      ensures max > 0 ==> s < max
    {
      Oldest(rp, rda, use, max)
    }

    ghost function InFlight(): (s: seq<Byte>)
      requires Valid()
      reads this, data
      ensures |s| == use - rda
    {
      Ring(data[..], Start(), use - rda)
    }

    ghost function Unread(): (s: seq<Byte>)
      requires Valid()
      reads this, data
      ensures |s| == rda
    {
      Ring(data[..], rp, rda)
    }

    /** Position `i` holds a byte written and not yet released. */
    ghost predicate Occupied(i: nat)
      requires Valid()
      reads this
    {
      exists k: nat :: k < use && i == Place(k)
    }

    /** Where the k-th byte lies, counted from the oldest one in flight. */
    ghost function Place(k: nat): (i: nat)
      requires Valid()
      reads this
    {
      Wrap(Start() + k, max)
    }

    /** Where the k-th byte written next goes. */
    ghost function WritePlace(k: nat): (i: nat)
      reads this
    {
      Wrap(wp + k, max)
    }

    constructor (size: nat)
      ensures Valid() && max == size
      ensures InFlight() == [] && Unread() == []
      ensures fresh(data)
    {
      max := size;
      data := new Byte[size](_ => 0);
      rp, wp, rda, use := 0, 0, 0, 0;
    }

    /** The bytes to read next, in at most two stretches. */
    method Reading() returns (regions: seq<Region>)
      requires Valid()
      ensures |regions| <= 2 && (regions == [] <==> rda == 0)
      ensures forall r :: r in regions ==> r.base + r.len <= max
      ensures Bytewise(data[..], regions) == Unread()
    {
      if rda == 0 {
        return [];
      }
      var upper := max - rp;
      if rda <= upper {
        regions := [Region(rp, rda)];
        RingIsSlice(data[..], rp, rda);
        BytewiseOne(data[..], regions[0]);
      } else {
        regions := [Region(rp, upper), Region(0, rda - upper)];
        RingIsTwoSlices(data[..], rp, rda);
        BytewiseTwo(data[..], regions[0], regions[1]);
      }
    }

    method ReadFinish(size: nat)
      requires Valid() && max > 0 && size <= rda
      modifies this
      ensures Valid() && use == old(use)
      ensures InFlight() == old(InFlight()) + old(Unread())[..size]
      ensures Unread() == old(Unread())[size..]
    {
      ghost var d := data[..];
      ModIsWrap(rp + size, max);
      ReadOn(rp, rda, use, size, max);
      ReadBytes(d, rp, rda, use, size);
      rp := (rp + size) % max;
      rda := rda - size;
      assert data[..] == d;
    }

    method ReadRelease(size: nat)
      requires Valid() && size <= use - rda
      modifies this
      ensures Valid() && use == old(use) - size
      ensures InFlight() == old(InFlight())[size..]
      ensures Unread() == old(Unread())
    {
      if max > 0 {
        RingSplit(data[..], Start(), size, use - rda - size);
      }
      use := use - size;
      if use == 0 {
        rp := 0;
        wp := 0;
      }
    }

    /** Where bytes may be written next: the free part, in at most two stretches from
        the write position round to the oldest byte in flight. */
    method Writing() returns (regions: seq<Region>)
      requires Valid()
      ensures |regions| <= 2 && (regions == [] <==> use == max)
      ensures forall r :: r in regions ==> r.base + r.len <= max
      ensures regions == FreeRegions()
    {
      if use == max {
        return [];
      }
      var upper := max - wp;
      var space := max - use;
      if space <= upper {
        regions := [Region(wp, space)];
      } else {
        regions := [Region(wp, upper), Region(0, space - upper)];
      }
    }

    ghost function FreeRegions(): (regions: seq<Region>)
      requires Valid()
      reads this
    {
      if use == max then []
      else if max - use <= max - wp then [Region(wp, max - use)]
      else [Region(wp, max - wp), Region(0, wp - use)]
    }

    /** The writing regions are exactly the positions that are not occupied. */
    lemma WritingIsFree(i: nat)
      requires Valid() && i < max
      ensures Occupied(i) <==> !exists r :: r in FreeRegions() && r.base <= i < r.base + r.len
    {
      var s := Start();
      // the place of i counted from the oldest byte
      var k := if i >= s then i - s else i + max - s;
      assert i == Place(k);
      assert forall j: nat :: j < use && i == Place(j) ==> j == k;
      assert Occupied(i) <==> k < use;
      var regions := FreeRegions();
      if use < max {
        assert regions[0] in regions;
        assert |regions| == 2 ==> regions[1] in regions;
      }
    }

    /** The writing regions, one after the other, go on from the write position round the
        ring. */
    lemma WritingGoesRound(k: nat)
      requires Valid() && k < max - use
      ensures PositionIn(FreeRegions(), k) == WritePlace(k) < max
    {
      var regions := FreeRegions();
      if k >= regions[0].len {
        assert PositionIn(regions, k) == PositionIn(regions[1..], k - regions[0].len);
      }
    }

    method WriteFinish(size: nat)
      requires Valid() && max > 0 && size <= max - use
      modifies this
      ensures Valid() && use == old(use) + size
      ensures InFlight() == old(InFlight())
      ensures Unread() == old(Unread()) + old(Ring(data[..], wp, size))
    {
      ModIsWrap(wp + size, max);
      RingSplit(data[..], rp, rda, size);
      wp := (wp + size) % max;
      use := use + size;
      rda := rda + size;
    }
  }
}
