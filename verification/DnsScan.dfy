/**
  What the mapped DNS makes of a query, as values: the walk over the question
  section, which turns length bytes into dots where they lie, and the reply built
  from what the walk found.  Defined for every buffer, well formed or not.
 */
module DnsScan {
  import opened Wrappers
  import opened Bytes
  import Bits

  import Lru = LruCache

  const HEADER: nat := 12
  const MAX_QUESTIONS: nat := 32
  const DOT: Byte := 46

  /** One answer to give: where its question's name begins, and the slot it got. */
  datatype Hit = Hit(off: nat, slot: nat)

  datatype Walk = Walk(ok: bool, rb: seq<Byte>, off: nat)

  datatype Scan = Scan(ok: bool, rb: seq<Byte>, off: nat, hits: seq<Hit>, cache: Lru.Cache)

  function CString(rb: seq<Byte>, from: nat): (s: Name)
    decreases |rb| - from
  {
    if from >= |rb| || rb[from] == 0 then [] else [rb[from]] + CString(rb, from + 1)
  }

  /** From a name's first length byte to its terminator; every length byte passed
      becomes a dot.  Not ok when a label leaves the message. */
  function WalkName(rb: seq<Byte>, off: nat, qlen: nat): (w: Walk)
    requires off <= qlen < |rb|
    ensures |w.rb| == |rb| && forall i :: 0 <= i < off ==> w.rb[i] == rb[i]
    ensures w.ok ==> off <= w.off <= qlen && w.rb[w.off] == 0
    decreases qlen - off
  {
    if rb[off] == 0 then Walk(true, rb, off)
    else
      var next := off + 1 + rb[off] as nat;
      if next >= qlen then Walk(false, rb, off)
      else WalkName(rb[off := DOT], next, qlen)
  }

  predicate IsAddressQuestion(rb: seq<Byte>, off: nat)
    requires off + 4 <= |rb|
  {
    ReadU16(rb, off) == 1 && ReadU16(rb, off + 2) == 1
  }

  /** A scan that can go on in a message of `qlen` bytes. */
  ghost predicate InMessage(s: Scan, qlen: nat) {
    qlen < |s.rb| && (s.ok ==> s.off <= qlen)
  }

  /** One more question. */
  ghost function ScanOne(s: Scan, qlen: nat, max: nat): (r: Scan)
    requires s.ok && InMessage(s, qlen) && max > 0
    ensures InMessage(r, qlen) && |r.rb| == |s.rb|
    ensures s.off <= r.off && |r.hits| <= |s.hits| + 1
  {
    var w := WalkName(s.rb, s.off, qlen);
    if !w.ok || w.off + 4 >= qlen then s.(ok := false, rb := w.rb)
    else if IsAddressQuestion(w.rb, w.off + 1) then
      var (cache, slot) := Lru.Find(s.cache, max, CString(w.rb, s.off + 1));
      Scan(true, w.rb, w.off + 5, s.hits + [Hit(s.off, slot)], cache)
    else
      s.(rb := w.rb, off := w.off + 5)
  }

  /** `count` more questions, or as far as they can be read. */
  ghost function ScanQuestions(s: Scan, qlen: nat, count: nat, max: nat): (r: Scan)
    requires InMessage(s, qlen) && max > 0
    ensures InMessage(r, qlen) && |r.rb| == |s.rb|
    ensures s.off <= r.off && |r.hits| <= |s.hits| + count
    decreases count
  {
    if count == 0 || !s.ok then s
    else ScanQuestions(ScanOne(s, qlen, max), qlen, count - 1, max)
  }

  lemma ScanUnfold(s: Scan, qlen: nat, count: nat, max: nat)
    requires s.ok && InMessage(s, qlen) && max > 0 && count > 0
    ensures ScanQuestions(s, qlen, count, max) == ScanQuestions(ScanOne(s, qlen, max), qlen, count - 1, max)
  {
  }

  function Address(net: nat, slot: nat): (a: nat)
    ensures a < Bits.WORD
  {
    Bits.Or(net, slot) % Bits.WORD
  }

  /** A pointer to the question's name, type A, class IN, one second to live, and
      the four bytes of the address. */
  function Answer(net: nat, h: Hit): (b: seq<Byte>)
    ensures |b| == 16
  {
    [0xc0, (h.off % 256) as Byte] + U16(1) + U16(1) + U32(1) + U16(4) + U32(Address(net, h.slot))
  }

  function Answers(net: nat, hits: seq<Hit>): (b: seq<Byte>)
    ensures |b| == 16 * |hits|
  {
    if hits == [] then []
    else Answers(net, hits[..|hits| - 1]) + Answer(net, hits[|hits| - 1])
  }

  /** The reply's header: the query's id, its flags marked as a response with
      recursion available where it was desired, its question count, the number of
      answers, and no other records. */
  function ReplyHeader(q: seq<Byte>, answers: nat): (h: seq<Byte>)
    requires |q| >= HEADER && answers < 0x1_0000
    ensures |h| == HEADER
  {
    var hi: Byte := if q[2] < 128 then q[2] + 128 else q[2];
    var lo: Byte := if q[2] % 2 == 1 && q[3] < 128 then q[3] + 128 else q[3];
    q[..2] + [hi, lo] + q[4..6] + U16(answers) + [0, 0, 0, 0]
  }

  /** The query's bytes with the question count turned to the host's byte order
      where it lies. */
  function CountTurned(q: seq<Byte>): (rb: seq<Byte>)
    requires |q| >= HEADER
    ensures |rb| == |q|
  {
    q[4 := q[5]][5 := q[4]]
  }

  /** The reply to `q` after its questions were read as `s`, if it fits. */
  function Reply(q: seq<Byte>, slen: nat, net: nat, s: Scan): (r: Option<seq<Byte>>)
    requires HEADER <= |q| && |s.hits| < 0x1_0000
    requires s.ok ==> HEADER <= s.off <= |q|
  {
    if s.ok && s.off + 16 * |s.hits| <= slen
    then Some(ReplyHeader(q, |s.hits|) + q[HEADER..s.off] + Answers(net, s.hits))
    else None
  }

  ghost function Read(q: seq<Byte>, qlen: nat, max: nat, cache: Lru.Cache): (s: Scan)
    requires HEADER <= qlen < |q| && max > 0
    requires ReadU16(q, 4) <= MAX_QUESTIONS
    ensures |s.hits| <= MAX_QUESTIONS
    ensures HEADER <= s.off && (s.ok ==> s.off <= qlen)
  {
    ScanQuestions(Scan(true, CountTurned(q), HEADER, [], cache), qlen, ReadU16(q, 4), max)
  }

  /** The whole of an answer to query `q`: the cache afterwards, and the reply if
      there is one. */
  ghost function Handled(q: seq<Byte>, qlen: nat, slen: nat, net: nat, max: nat, cache: Lru.Cache)
    : (r: (Lru.Cache, Option<seq<Byte>>))
    requires HEADER <= qlen < |q| && max > 0
  {
    if slen < qlen || ReadU16(q, 4) > MAX_QUESTIONS then (cache, None)
    else
      var s := Read(q, qlen, max, cache);
      (s.cache, Reply(q, slen, net, s))
  }
}
