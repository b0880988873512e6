/**
  The reply to a well-formed query.  Questions are given as labels, type and class,
  and encoded as sections 4.1.1 and 4.1.2 of RFC 1035 have it; the reply is then read
  back field by field.
 */
module DnsQuery {
  import opened Wrappers
  import opened Bytes
  import opened DnsScan
  import Bits
  import Lru = LruCache

  datatype Question = Question(labels: seq<Name>, qtype: nat, qclass: nat)

  /** Labels that are not empty, fit their length byte and hold no NUL. */
  ghost predicate WellFormed(q: Question) {
    && q.qtype < 0x1_0000 && q.qclass < 0x1_0000
    && LabelsOk(q.labels)
  }

  ghost predicate LabelsOk(labels: seq<Name>) {
    forall l: Name :: l in labels ==> 0 < |l| < 256 && 0 !in l
  }

  function EncodeLabels(labels: seq<Name>): (b: seq<Byte>) {
    if labels == [] then [] else [(|labels[0]| % 256) as Byte] + labels[0] + EncodeLabels(labels[1..])
  }

  function Encode(q: Question): (b: seq<Byte>)
    ensures |b| >= 5
  {
    EncodeLabels(q.labels) + [0] + U16(q.qtype % 0x1_0000) + U16(q.qclass % 0x1_0000)
  }

  function EncodeAll(qs: seq<Question>): (b: seq<Byte>) {
    if qs == [] then [] else Encode(qs[0]) + EncodeAll(qs[1..])
  }

  /** The name as it is written with dots, which are byte 46. */
  function Dotted(labels: seq<Name>): (s: Name) {
    if labels == [] then []
    else if |labels| == 1 then labels[0]
    else labels[0] + [46] + Dotted(labels[1..])
  }

  predicate IsAddress(q: Question) {
    q.qtype == 1 && q.qclass == 1
  }

  /** A question that is answered: where it lies in the message, and its name. */
  datatype Asked = Asked(off: nat, name: Name)

  function AskedOne(q: Question, off: nat): (r: seq<Asked>)
    ensures |r| <= 1
  {
    if IsAddress(q) then [Asked(off, Dotted(q.labels))] else []
  }

  function AskedIn(qs: seq<Question>, off: nat): (r: seq<Asked>)
    ensures |r| <= |qs|
  {
    if qs == [] then []
    else AskedOne(qs[0], off) + AskedIn(qs[1..], off + |Encode(qs[0])|)
  }

  ghost function NamesOf(asked: seq<Asked>): (names: seq<Name>)
    ensures |names| == |asked|
  {
    seq(|asked|, i requires 0 <= i < |asked| => asked[i].name)
  }

  /** The bytes `b` lie in `rb` at `off`. */
  ghost predicate At(rb: seq<Byte>, off: nat, b: seq<Byte>) {
    off + |b| <= |rb| && forall i :: off <= i < off + |b| ==> rb[i] == b[i - off]
  }

  ghost predicate SameFrom(rb: seq<Byte>, rb': seq<Byte>, from: nat) {
    |rb| == |rb'| && forall i :: from <= i < |rb| ==> rb[i] == rb'[i]
  }

  // ---------------------------------------------------------------------
  // The walk over one name

  /** What the walk leaves of the labels: a dot before each. */
  ghost function DotLabels(labels: seq<Name>): (b: seq<Byte>)
    ensures |b| == |EncodeLabels(labels)|
  {
    if labels == [] then [] else [DOT] + labels[0] + DotLabels(labels[1..])
  }

  lemma DottedUnfold(labels: seq<Name>)
    requires |labels| > 1
    ensures Dotted(labels) == labels[0] + [46] + Dotted(labels[1..])
    ensures DotLabels(labels) == [DOT] + labels[0] + DotLabels(labels[1..])
  {
  }

  lemma {:induction false} DotLabelsIsDotted(labels: seq<Name>)
    requires LabelsOk(labels)
    ensures DotLabels(labels) == if labels == [] then [] else [DOT] + Dotted(labels)
    ensures 0 !in Dotted(labels)
    decreases |labels|
  {
    if |labels| == 1 {
      assert DotLabels(labels[1..]) == [];
      assert [DOT] + labels[0] + [] == [DOT] + labels[0];
    } else if |labels| > 1 {
      var rest := labels[1..];
      DottedUnfold(labels);
      DotLabelsIsDotted(rest);
      DotBefore(labels[0], Dotted(rest));
    }
  }

  lemma DotBefore(l: Name, rest: Name)
    ensures [DOT] + l + ([DOT] + rest) == [DOT] + (l + [46] + rest)
    ensures 0 !in l && 0 !in rest ==> 0 !in l + [46] + rest
  {
  }

  lemma {:induction false} CStringAt(rb: seq<Byte>, from: nat, s: Name)
    requires At(rb, from, s) && 0 !in s
    requires from + |s| < |rb| && rb[from + |s|] == 0
    ensures CString(rb, from) == s
    decreases |s|
  {
    if s != [] {
      assert rb[from] == s[0];
      assert s[0] in s && forall c :: c in s[1..] ==> c in s;
      CStringAt(rb, from + 1, s[1..]);
    }
  }

  lemma AtSplit(rb: seq<Byte>, off: nat, a: seq<Byte>, b: seq<Byte>)
    requires At(rb, off, a + b)
    ensures At(rb, off, a) && At(rb, off + |a|, b)
  {
    assert forall i :: off <= i < off + |a| ==> rb[i] == (a + b)[i - off];
  }

  lemma AtSame(rb: seq<Byte>, rb': seq<Byte>, from: nat, off: nat, b: seq<Byte>)
    requires At(rb, off, b) && SameFrom(rb', rb, from) && from <= off
    ensures At(rb', off, b)
  {
  }

  lemma AtJoin(rb: seq<Byte>, off: nat, a: seq<Byte>, b: seq<Byte>)
    requires At(rb, off, a) && At(rb, off + |a|, b)
    ensures At(rb, off, a + b)
  {
  }

  /** The walk from `off` passes `n` bytes, leaves `dots` there and the rest as it was. */
  ghost predicate WalksOver(rb: seq<Byte>, off: nat, qlen: nat, dots: seq<Byte>) {
    && off + |dots| <= qlen < |rb|
    && var w := WalkName(rb, off, qlen);
       w.ok && w.off == off + |dots| && At(w.rb, off, dots) && SameFrom(w.rb, rb, off + |dots|)
  }

  lemma WalkOverLabel(rb: seq<Byte>, off: nat, qlen: nat, l: Name, dots: seq<Byte>)
    requires 0 < |l| < 256
    requires off + 1 + |l| + |dots| < qlen < |rb|
    requires At(rb, off, [|l| as Byte] + l)
    requires WalksOver(rb[off := DOT], off + 1 + |l|, qlen, dots)
    ensures WalksOver(rb, off, qlen, [DOT] + l + dots)
  {
    var rb' := rb[off := DOT];
    var next := off + 1 + |l|;
    assert rb[off] as int == |l|;
    var w := WalkName(rb', next, qlen);
    assert WalkName(rb, off, qlen) == w;
    assert At(w.rb, off, [DOT] + l);
    AtJoin(w.rb, off, [DOT] + l, dots);
  }

  lemma LabelsUnfold(labels: seq<Name>)
    requires labels != [] && 0 < |labels[0]| < 256
    ensures var l, tail := labels[0], labels[1..];
            && EncodeLabels(labels) + [0] == [|l| as Byte] + l + (EncodeLabels(tail) + [0])
            && DotLabels(labels) == [DOT] + l + DotLabels(tail)
  {
  }

  /** The first label, and what is behind it once a dot is written over its length. */
  lemma OneLabel(rb: seq<Byte>, off: nat, qlen: nat, l: Name, tail: seq<Byte>)
    requires 0 < |l| < 256
    requires At(rb, off, [|l| as Byte] + l + (tail + [0]))
    requires off + 1 + |l| + |tail| < qlen < |rb|
    ensures At(rb, off, [|l| as Byte] + l)
    ensures At(rb[off := DOT], off + 1 + |l|, tail + [0])
  {
    AtSplit(rb, off, [|l| as Byte] + l, tail + [0]);
    AtBehind(rb, off, DOT, off + 1 + |l|, tail + [0]);
  }

  lemma WalkNothing(rb: seq<Byte>, off: nat, qlen: nat)
    requires At(rb, off, EncodeLabels([]) + [0]) && off < qlen < |rb|
    ensures WalksOver(rb, off, qlen, DotLabels([]))
  {
    assert rb[off] == (EncodeLabels([]) + [0])[0];
  }

  lemma {:induction false} WalkEncoded(rb: seq<Byte>, off: nat, qlen: nat, labels: seq<Name>)
    requires LabelsOk(labels)
    requires At(rb, off, EncodeLabels(labels) + [0])
    requires off + |EncodeLabels(labels)| < qlen < |rb|
    ensures WalksOver(rb, off, qlen, DotLabels(labels))
    decreases |labels|
  {
    if labels != [] {
      LabelsUnfold(labels);
    }
    if labels == [] {
      WalkNothing(rb, off, qlen);
    } else {
      var l, tail := labels[0], labels[1..];
      OneLabel(rb, off, qlen, l, EncodeLabels(tail));
      WalkEncoded(rb[off := DOT], off + 1 + |l|, qlen, tail);
      WalkOverLabel(rb, off, qlen, l, DotLabels(tail));
    }
  }

  lemma AtBehind(rb: seq<Byte>, i: nat, v: Byte, off: nat, b: seq<Byte>)
    requires i < off && At(rb, off, b) && i < |rb|
    ensures At(rb[i := v], off, b)
  {
  }

  // ---------------------------------------------------------------------
  // The scan over the question section

  /** The name a walked buffer holds where the labels were. */
  lemma WalkedName(walked: seq<Byte>, off: nat, labels: seq<Name>)
    requires LabelsOk(labels)
    requires At(walked, off, DotLabels(labels))
    requires var end := off + |DotLabels(labels)|;
             end + 1 < |walked| && walked[end] == 0 && (labels == [] ==> walked[end + 1] == 0)
    ensures CString(walked, off + 1) == Dotted(labels)
  {
    DotLabelsIsDotted(labels);
    if labels != [] {
      AtSplit(walked, off, [DOT], Dotted(labels));
    }
    CStringAt(walked, off + 1, Dotted(labels));
  }

  lemma TypeAndClass(rb: seq<Byte>, at: nat, q: Question)
    requires WellFormed(q)
    requires At(rb, at, U16(q.qtype) + U16(q.qclass))
    ensures ReadU16(rb, at) == q.qtype && ReadU16(rb, at + 2) == q.qclass
    ensures rb[at] as int == q.qtype / 256
  {
    var b := U16(q.qtype) + U16(q.qclass);
    assert rb[at] == b[0] && rb[at + 1] == b[1] && rb[at + 2] == b[2] && rb[at + 3] == b[3];
  }

  /** Behind the labels that were walked over, the type and the class are as they came. */
  lemma WalkedTail(rb: seq<Byte>, off: nat, q: Question, w: Walk)
    requires WellFormed(q)
    requires At(rb, off, EncodeLabels(q.labels) + ([0] + (U16(q.qtype) + U16(q.qclass))))
    requires w.off == off + |EncodeLabels(q.labels)| && SameFrom(w.rb, rb, w.off)
    ensures At(w.rb, w.off, [0]) && At(w.rb, w.off + 1, U16(q.qtype) + U16(q.qclass))
  {
    var tc := U16(q.qtype) + U16(q.qclass);
    AtSplit(rb, off, EncodeLabels(q.labels), [0] + tc);
    AtSame(rb, w.rb, w.off, w.off, [0] + tc);
    AtSplit(w.rb, w.off, [0], tc);
  }

  /** What the type, the class and the name of an encoded question are read as once
      its labels were walked over. */
  lemma WalkedQuestion(rb: seq<Byte>, off: nat, q: Question, w: Walk)
    requires WellFormed(q)
    requires At(rb, off, Encode(q)) && off + |Encode(q)| < |rb|
    requires var dots := DotLabels(q.labels);
             w.off == off + |dots| && At(w.rb, off, dots) && SameFrom(w.rb, rb, off + |dots|)
    ensures w.off + 5 == off + |Encode(q)|
    ensures IsAddressQuestion(w.rb, w.off + 1) <==> IsAddress(q)
    ensures IsAddress(q) ==> CString(w.rb, off + 1) == Dotted(q.labels)
  {
    EncodeParts(q);
    WalkedTail(rb, off, q, w);
    TypeAndClass(w.rb, w.off + 1, q);
    if IsAddress(q) {
      assert w.rb[w.off] == [0 as Byte][0];
      WalkedName(w.rb, off, q.labels);
    }
  }

  lemma EncodeParts(q: Question)
    requires WellFormed(q)
    ensures Encode(q) == EncodeLabels(q.labels) + ([0] + (U16(q.qtype) + U16(q.qclass)))
    ensures Encode(q) == EncodeLabels(q.labels) + [0] + (U16(q.qtype) + U16(q.qclass))
  {
    Regroup(EncodeLabels(q.labels), [0], U16(q.qtype), U16(q.qclass));
  }

  lemma Regroup(a: seq<Byte>, b: seq<Byte>, c: seq<Byte>, d: seq<Byte>)
    ensures a + b + c + d == a + (b + (c + d)) == a + b + (c + d)
  {
  }

  lemma WalkQuestion(rb: seq<Byte>, off: nat, qlen: nat, q: Question)
    requires WellFormed(q)
    requires At(rb, off, Encode(q)) && off + |Encode(q)| <= qlen < |rb|
    ensures WalksOver(rb, off, qlen, DotLabels(q.labels))
  {
    EncodeParts(q);
    AtSplit(rb, off, EncodeLabels(q.labels) + [0], U16(q.qtype) + U16(q.qclass));
    WalkEncoded(rb, off, qlen, q.labels);
  }

  /** One question read: its bytes are passed, those behind it are untouched, and
      an address question is looked up by its dotted name. */
  ghost predicate Took(s: Scan, r: Scan, max: nat, q: Question)
    requires max > 0
  {
    && r.ok && r.off == s.off + |Encode(q)|
    && SameFrom(r.rb, s.rb, r.off)
    && (if IsAddress(q)
        then var (c, slot) := Lru.Find(s.cache, max, Dotted(q.labels));
             r.cache == c && r.hits == s.hits + [Hit(s.off, slot)]
        else r.cache == s.cache && r.hits == s.hits)
  }

  lemma ScanEncoded(s: Scan, qlen: nat, max: nat, q: Question)
    requires s.ok && InMessage(s, qlen) && max > 0
    requires WellFormed(q)
    requires At(s.rb, s.off, Encode(q)) && s.off + |Encode(q)| <= qlen
    ensures Took(s, ScanOne(s, qlen, max), max, q)
  {
    var w := WalkName(s.rb, s.off, qlen);
    WalkQuestion(s.rb, s.off, qlen, q);
    WalkedQuestion(s.rb, s.off, q, w);
    ScanWalked(s, qlen, max, q, w);
  }

  lemma ScanWalked(s: Scan, qlen: nat, max: nat, q: Question, w: Walk)
    requires s.ok && InMessage(s, qlen) && max > 0
    requires w == WalkName(s.rb, s.off, qlen) && w.ok && SameFrom(w.rb, s.rb, w.off)
    requires w.off + 5 == s.off + |Encode(q)| <= qlen
    requires IsAddressQuestion(w.rb, w.off + 1) <==> IsAddress(q)
    requires IsAddress(q) ==> CString(w.rb, s.off + 1) == Dotted(q.labels)
    ensures Took(s, ScanOne(s, qlen, max), max, q)
  {
  }

  ghost function HitsOf(asked: seq<Asked>, slots: seq<nat>): (hits: seq<Hit>)
    requires |asked| == |slots|
    ensures |hits| == |asked|
  {
    seq(|asked|, i requires 0 <= i < |asked| => Hit(asked[i].off, slots[i]))
  }

  /** From `s` to `r` exactly the questions `asked` were looked up and answered. */
  ghost predicate Looked(s: Scan, r: Scan, max: nat, asked: seq<Asked>)
    requires max > 0
  {
    var (c, slots) := Lru.FindAll(s.cache, max, NamesOf(asked));
    r.cache == c && r.hits == s.hits + HitsOf(asked, slots)
  }

  /** From `s` to `r` all these questions were read. */
  ghost predicate Scanned(s: Scan, r: Scan, max: nat, qs: seq<Question>)
    requires max > 0
  {
    r.ok && r.off == s.off + |EncodeAll(qs)| && Looked(s, r, max, AskedIn(qs, s.off))
  }

  lemma ScannedNone(s: Scan, max: nat)
    requires s.ok && max > 0
    ensures Scanned(s, s, max, [])
  {
    assert NamesOf(AskedIn([], s.off)) == [];
    assert s.hits == s.hits + HitsOf([], []);
  }

  lemma ScannedCons(s: Scan, s1: Scan, r: Scan, max: nat, qs: seq<Question>)
    requires max > 0 && qs != [] && Took(s, s1, max, qs[0]) && Scanned(s1, r, max, qs[1..])
    ensures Scanned(s, r, max, qs)
  {
    AskedUnfold(qs, s.off, s1.off);
    LookedCons(s, s1, r, max, qs[0], AskedIn(qs[1..], s1.off));
  }

  /** The first of several questions read, with the others still to come. */
  lemma ScanFirst(s: Scan, qlen: nat, max: nat, q: Question, rest: seq<Byte>)
    requires s.ok && InMessage(s, qlen) && max > 0 && WellFormed(q)
    requires At(s.rb, s.off, Encode(q) + rest) && s.off + |Encode(q) + rest| <= qlen
    ensures var s1 := ScanOne(s, qlen, max);
            Took(s, s1, max, q) && At(s1.rb, s1.off, rest) && s1.off + |rest| <= qlen
  {
    AtSplit(s.rb, s.off, Encode(q), rest);
    ScanEncoded(s, qlen, max, q);
    TookRest(s, ScanOne(s, qlen, max), max, q, rest);
  }

  lemma EncodeAllUnfold(qs: seq<Question>)
    requires qs != []
    ensures EncodeAll(qs) == Encode(qs[0]) + EncodeAll(qs[1..])
  {
  }

  /** The whole question section read: the address questions, in order, are looked
      up by their dotted names, and nothing else is. */
  lemma {:induction false} ScanAll(s: Scan, qlen: nat, max: nat, qs: seq<Question>)
    requires s.ok && InMessage(s, qlen) && max > 0
    requires forall q :: q in qs ==> WellFormed(q)
    requires At(s.rb, s.off, EncodeAll(qs)) && s.off + |EncodeAll(qs)| <= qlen
    ensures Scanned(s, ScanQuestions(s, qlen, |qs|, max), max, qs)
    decreases |qs|
  {
    if qs == [] {
      ScannedNone(s, max);
    } else {
      var s1 := ScanOne(s, qlen, max);
      EncodeAllUnfold(qs);
      ScanFirst(s, qlen, max, qs[0], EncodeAll(qs[1..]));
      ScanAll(s1, qlen, max, qs[1..]);
      ScanUnfold(s, qlen, |qs|, max);
      ScannedCons(s, s1, ScanQuestions(s1, qlen, |qs| - 1, max), max, qs);
    }
  }

  lemma TookRest(s: Scan, s1: Scan, max: nat, q: Question, rest: seq<Byte>)
    requires max > 0 && Took(s, s1, max, q)
    requires At(s.rb, s.off + |Encode(q)|, rest)
    ensures At(s1.rb, s1.off, rest)
  {
  }

  lemma AskedUnfold(qs: seq<Question>, off: nat, next: nat)
    requires qs != [] && next == off + |Encode(qs[0])|
    ensures AskedIn(qs, off) == AskedOne(qs[0], off) + AskedIn(qs[1..], next)
  {
  }

  lemma LookedCons(s: Scan, s1: Scan, r: Scan, max: nat, q: Question, tail: seq<Asked>)
    requires max > 0 && Took(s, s1, max, q)
    requires Looked(s1, r, max, tail)
    ensures Looked(s, r, max, AskedOne(q, s.off) + tail)
  {
    if IsAddress(q) {
      var name := Dotted(q.labels);
      NamesCons(s.off, name, tail);
      Lru.FindAllCons(s.cache, max, name, NamesOf(tail));
      HitsCons(s.hits, s.off, name, tail, Lru.Find(s.cache, max, name).1,
               Lru.FindAll(s1.cache, max, NamesOf(tail)).1);
    } else {
      assert [] + tail == tail;
    }
  }

  lemma NamesCons(off: nat, name: Name, tail: seq<Asked>)
    ensures NamesOf([Asked(off, name)] + tail) == [name] + NamesOf(tail)
  {
  }

  lemma HitsCons(hits: seq<Hit>, off: nat, name: Name, tail: seq<Asked>, slot: nat, slots: seq<nat>)
    requires |slots| == |tail|
    ensures hits + HitsOf([Asked(off, name)] + tail, [slot] + slots) == hits + [Hit(off, slot)] + HitsOf(tail, slots)
  {
    assert HitsOf([Asked(off, name)] + tail, [slot] + slots) == [Hit(off, slot)] + HitsOf(tail, slots);
  }

  // ---------------------------------------------------------------------
  // The reply

  /** What a host makes of its network: a netmask, no host bits in the network, and
      no more slots than there are hosts. */
  ghost predicate Addressable(net: nat, mask: nat, max: nat) {
    && Bits.IsNetmask(mask) && net < Bits.WORD
    && Bits.And(net, Bits.Not(mask)) == 0
    && max <= Bits.Not(mask)
  }

  /** An address given out is the slot-th of the network, and is taken back to the network
      and to the slot it was made of. */
  lemma AddressRoundTrip(net: nat, mask: nat, max: nat, slot: nat)
    requires Addressable(net, mask, max) && slot < max
    ensures Address(net, slot) == net + slot
    ensures Bits.And(Address(net, slot), Bits.Not(mask)) == slot && Bits.And(Address(net, slot), mask) == net
  {
    Bits.OrFitsWord(net, slot);
    Bits.HostRoundTrip(net, mask, slot);
  }

  lemma SliceOfPrefix(a: seq<Byte>, b: seq<Byte>, i: nat, j: nat)
    requires i <= j <= |a|
    ensures (a + b)[i..j] == a[i..j]
    ensures (a + b)[|a|..|a| + |b|] == b
  {
  }

  lemma {:induction false} AnswersAt(net: nat, hits: seq<Hit>, k: nat)
    requires k < |hits|
    ensures Answers(net, hits)[16 * k..16 * k + 16] == Answer(net, hits[k])
    decreases |hits|
  {
    var n := |hits| - 1;
    var before := Answers(net, hits[..n]);
    if k < n {
      AnswersAt(net, hits[..n], k);
      assert hits[..n][k] == hits[k];
      SliceOfPrefix(before, Answer(net, hits[n]), 16 * k, 16 * k + 16);
    } else {
      SliceOfPrefix(before, Answer(net, hits[n]), 0, 0);
    }
  }

  /** One answer of a reply, field by field (section 4.1.3 of RFC 1035). */
  ghost predicate AnswerAt(reply: seq<Byte>, at: nat, pointer: nat, address: nat)
    requires at + 16 <= |reply|
  {
    && ReadU16(reply, at) == 0xc000 + pointer
    && ReadU16(reply, at + 2) == 1 && ReadU16(reply, at + 4) == 1
    && ReadU32(reply, at + 6) == 1
    && ReadU16(reply, at + 10) == 4 && ReadU32(reply, at + 12) == address
  }

  lemma AnswerFields(reply: seq<Byte>, at: nat, net: nat, h: Hit)
    requires at + 16 <= |reply| && reply[at..at + 16] == Answer(net, h)
    ensures AnswerAt(reply, at, h.off % 256, Address(net, h.slot))
  {
    var a := Answer(net, h);
    forall k | 0 <= k < 16 ensures reply[at + k] == a[k] {
      assert reply[at + k] == reply[at..at + 16][k];
    }
    var v := Address(net, h.slot);
    U32RoundTrip(v, [], []);
    assert [] + U32(v) + [] == U32(v);
    assert a[12..] == U32(v);
  }

  /** What is asked: each address question, in order, where it lies in the message and
      by its dotted name. */
  lemma {:induction false} AskedAt(qs: seq<Question>, off: nat, i: nat)
    requires i < |qs| && IsAddress(qs[i])
    ensures var k := |AskedIn(qs[..i], off)|;
            && k < |AskedIn(qs, off)|
            && AskedIn(qs, off)[k] == Asked(off + |EncodeAll(qs[..i])|, Dotted(qs[i].labels))
    decreases i
  {
    if i > 0 {
      var next := off + |Encode(qs[0])|;
      assert qs[..i][1..] == qs[1..][..i - 1];
      AskedAt(qs[1..], next, i - 1);
      AskedUnfold(qs, off, next);
      AskedUnfold(qs[..i], off, next);
    }
  }

  /** A query of these questions, with room for it and for its answers in the reply
      buffer and for its names in the cache. */
  ghost predicate Query(q: seq<Byte>, qlen: nat, slen: nat, max: nat, qs: seq<Question>) {
    var end := HEADER + |EncodeAll(qs)|;
    && HEADER <= qlen < |q| && qlen <= slen && max > 0
    && |qs| <= 32 && (forall x :: x in qs ==> WellFormed(x))
    && ReadU16(q, 4) == |qs| && At(q, HEADER, EncodeAll(qs)) && end <= qlen
    && end + 16 * |AskedIn(qs, HEADER)| <= slen
    && |Lru.NameSet(NamesOf(AskedIn(qs, HEADER)))| <= max
  }

  lemma ReadQuery(q: seq<Byte>, qlen: nat, slen: nat, max: nat, qs: seq<Question>, cache: Lru.Cache)
    requires Query(q, qlen, slen, max, qs)
    ensures var s := Read(q, qlen, max, cache);
            Scanned(Scan(true, CountTurned(q), HEADER, [], cache), s, max, qs)
  {
    ScanAll(Scan(true, CountTurned(q), HEADER, [], cache), qlen, max, qs);
  }

  /** Each answer is of its own question: the address in it is of the network, and is looked
      up, after the reply, as the question's dotted name. */
  ghost predicate Answered(reply: seq<Byte>, start: nat, asked: seq<Asked>, net: nat, mask: nat, cache: Lru.Cache)
    requires mask < Bits.WORD
  {
    && |reply| == start + 16 * |asked|
    && forall k :: 0 <= k < |asked| ==>
         exists address ::
           && AnswerAt(reply, start + 16 * k, asked[k].off % 256, address)
           && Bits.And(address, mask) == net
           && Lru.Lookup(cache, Bits.And(address, Bits.Not(mask))).1 == Some(asked[k].name)
  }

  lemma AnswerIn(head: seq<Byte>, net: nat, hits: seq<Hit>, k: nat)
    requires k < |hits|
    ensures AnswerAt(head + Answers(net, hits), |head| + 16 * k, hits[k].off % 256, Address(net, hits[k].slot))
  {
    AnswersAt(net, hits, k);
    AnswerBehind(head, Answers(net, hits), 16 * k, net, hits[k]);
  }

  lemma AnswerBehind(head: seq<Byte>, tail: seq<Byte>, i: nat, net: nat, h: Hit)
    requires i + 16 <= |tail| && tail[i..i + 16] == Answer(net, h)
    ensures AnswerAt(head + tail, |head| + i, h.off % 256, Address(net, h.slot))
  {
    SliceBehind(head, tail, i, i + 16);
    AnswerFields(head + tail, |head| + i, net, h);
  }

  lemma AddressLooksUp(net: nat, mask: nat, max: nat, slot: nat, name: Name, cache: Lru.Cache)
    requires Addressable(net, mask, max)
    requires Lru.Valid(cache, max) && Lru.Bound(cache, name, slot)
    ensures Lru.Lookup(cache, Bits.And(Address(net, slot), Bits.Not(mask))).1 == Some(name)
    ensures Bits.And(Address(net, slot), mask) == net
  {
    Lru.BoundLooksUp(cache, max, name, slot);
    AddressRoundTrip(net, mask, max, slot);
  }

  lemma LookedAnswers(head: seq<Byte>, net: nat, mask: nat, max: nat, s: Scan, r: Scan, asked: seq<Asked>)
    requires max > 0 && Addressable(net, mask, max)
    requires Lru.Valid(s.cache, max) && s.hits == []
    requires |Lru.NameSet(NamesOf(asked))| <= max
    requires Looked(s, r, max, asked)
    ensures |r.hits| == |asked| && Answered(head + Answers(net, r.hits), |head|, asked, net, mask, r.cache)
  {
    var names := NamesOf(asked);
    var slots := Lru.FindAll(s.cache, max, names).1;
    Lru.AllFoundAreBound(s.cache, max, names);
    forall k | 0 <= k < |asked|
      ensures exists address ::
        && AnswerAt(head + Answers(net, r.hits), |head| + 16 * k, asked[k].off % 256, address)
        && Bits.And(address, mask) == net
        && Lru.Lookup(r.cache, Bits.And(address, Bits.Not(mask))).1 == Some(asked[k].name)
    {
      assert r.hits[k] == Hit(asked[k].off, slots[k]) && Lru.Bound(r.cache, names[k], slots[k]);
      AnswerIn(head, net, r.hits, k);
      AddressLooksUp(net, mask, max, slots[k], names[k], r.cache);
    }
  }

  lemma SliceBehind(a: seq<Byte>, b: seq<Byte>, i: nat, j: nat)
    requires i <= j <= |b|
    ensures (a + b)[|a| + i..|a| + j] == b[i..j]
  {
  }

  /** The flags of a response: marked as one, with recursion available where the query
      desired it, and the query's own flags otherwise. */
  predicate FlagsAnswer(reply: seq<Byte>, q: seq<Byte>)
    requires |q| >= 4 && |reply| >= 4
  {
    && reply[2] == q[2] % 128 + 128
    && (reply[3] >= 128 <==> q[3] >= 128 || q[2] % 2 == 1)
    && reply[3] % 128 == q[3] % 128
  }

  /** A reply to a query of these questions: its id, its questions as they came, counts
      of exactly its questions and its address questions, and one answer to each of
      those, in order. */
  ghost predicate Replies(reply: seq<Byte>, q: seq<Byte>, qs: seq<Question>, net: nat, mask: nat, cache: Lru.Cache)
    requires |q| >= HEADER && mask < Bits.WORD
  {
    var asked := AskedIn(qs, HEADER);
    var end := HEADER + |EncodeAll(qs)|;
    && |reply| == end + 16 * |asked|
    && reply[..2] == q[..2]
    && FlagsAnswer(reply, q)
    && reply[HEADER..end] == EncodeAll(qs)
    && ReadU16(reply, 4) == |qs| && ReadU16(reply, 6) == |asked|
    && ReadU16(reply, 8) == 0 && ReadU16(reply, 10) == 0
    && Answered(reply, end, asked, net, mask, cache)
  }

  lemma ScannedReplies(q: seq<Byte>, qs: seq<Question>, net: nat, mask: nat, max: nat, before: Scan, s: Scan)
    requires HEADER <= |q| && At(q, HEADER, EncodeAll(qs)) && ReadU16(q, 4) == |qs|
    requires max > 0 && Addressable(net, mask, max)
    requires |Lru.NameSet(NamesOf(AskedIn(qs, HEADER)))| <= max
    requires Lru.Valid(before.cache, max) && before.hits == [] && before.off == HEADER
    requires Scanned(before, s, max, qs) && |s.hits| < 0x1_0000
    ensures s.off <= |q| && |s.hits| == |AskedIn(qs, HEADER)|
    ensures Replies(ReplyHeader(q, |s.hits|) + q[HEADER..s.off] + Answers(net, s.hits), q, qs, net, mask, s.cache)
  {
    var asked := AskedIn(qs, HEADER);
    var head := ReplyHeader(q, |s.hits|) + q[HEADER..s.off];
    LookedAnswers(head, net, mask, max, before, s, asked);
    ReplyFields(q, qs, |asked|, head, Answers(net, s.hits));
  }

  /** The reply to a well-formed query. */
  lemma ReplyToQuery(q: seq<Byte>, qlen: nat, slen: nat, net: nat, mask: nat, max: nat,
                     qs: seq<Question>, cache: Lru.Cache)
    requires Query(q, qlen, slen, max, qs)
    requires Addressable(net, mask, max)
    requires Lru.Valid(cache, max)
    ensures var (c, reply) := Handled(q, qlen, slen, net, max, cache);
            reply.Some? && Replies(reply.value, q, qs, net, mask, c)
  {
    ReadQuery(q, qlen, slen, max, qs, cache);
    var before := Scan(true, CountTurned(q), HEADER, [], cache);
    ScannedReplies(q, qs, net, mask, max, before, Read(q, qlen, max, cache));
    HandledIs(q, qlen, slen, net, max, cache);
  }

  lemma HandledIs(q: seq<Byte>, qlen: nat, slen: nat, net: nat, max: nat, cache: Lru.Cache)
    requires HEADER <= qlen < |q| && qlen <= slen && max > 0 && ReadU16(q, 4) <= MAX_QUESTIONS
    requires var s := Read(q, qlen, max, cache); s.ok && s.off + 16 * |s.hits| <= slen
    ensures var s := Read(q, qlen, max, cache);
            Handled(q, qlen, slen, net, max, cache) ==
            (s.cache, Some(ReplyHeader(q, |s.hits|) + q[HEADER..s.off] + Answers(net, s.hits)))
  {
  }

  lemma ReplyFields(q: seq<Byte>, qs: seq<Question>, answers: nat, head: seq<Byte>, tail: seq<Byte>)
    requires answers < 0x1_0000
    requires At(q, HEADER, EncodeAll(qs)) && ReadU16(q, 4) == |qs|
    requires head == ReplyHeader(q, answers) + q[HEADER..HEADER + |EncodeAll(qs)|]
    ensures var reply := head + tail;
            && reply[..2] == q[..2]
            && FlagsAnswer(reply, q)
            && reply[HEADER..|head|] == EncodeAll(qs)
            && ReadU16(reply, 4) == |qs| && ReadU16(reply, 6) == answers
            && ReadU16(reply, 8) == 0 && ReadU16(reply, 10) == 0
  {
    var reply := head + tail;
    var h := ReplyHeader(q, answers);
    assert forall k :: 0 <= k < HEADER ==> reply[k] == h[k];
    assert h[4] == q[4] && h[5] == q[5];
    assert FlagsAnswer(h, q);
    assert h[6] as int == answers / 256 && h[7] as int == answers % 256;
    assert forall i :: HEADER <= i < |head| ==> reply[i] == q[i];
  }

  /** Where the answer to the i-th question lies in a reply. */
  function AnswerOffset(qs: seq<Question>, i: nat): (at: nat)
    requires i < |qs|
  {
    HEADER + |EncodeAll(qs)| + 16 * |AskedIn(qs[..i], HEADER)|
  }

  /** That answer's pointer; nothing where the reply holds none. */
  function PointerAt(reply: seq<Byte>, qs: seq<Question>, i: nat): (word: Option<nat>)
    requires i < |qs|
  {
    var at := AnswerOffset(qs, i);
    if at + 16 <= |reply| then Some(ReadU16(reply, at)) else None
  }

  function OffsetOf(qs: seq<Question>, i: nat): (off: nat)
    requires i <= |qs|
  {
    HEADER + |EncodeAll(qs[..i])|
  }

  lemma RepliesPoint(reply: seq<Byte>, q: seq<Byte>, qs: seq<Question>, net: nat, mask: nat, cache: Lru.Cache, i: nat)
    requires |q| >= HEADER && mask < Bits.WORD && Replies(reply, q, qs, net, mask, cache)
    requires i < |qs| && IsAddress(qs[i])
    ensures PointerAt(reply, qs, i) == Some(0xc000 + OffsetOf(qs, i) % 256)
  {
    AskedAt(qs, HEADER, i);
    var asked, k := AskedIn(qs, HEADER), |AskedIn(qs[..i], HEADER)|;
    var start := HEADER + |EncodeAll(qs)|;
    assert asked[k].off == OffsetOf(qs, i);
    var address :| AnswerAt(reply, start + 16 * k, asked[k].off % 256, address)
                   && Bits.And(address, mask) == net
                   && Lru.Lookup(cache, Bits.And(address, Bits.Not(mask))).1 == Some(asked[k].name);
  }

  /** In the reply to any well-formed query the answer to an address question points at
      that very question exactly when the question lies below offset 256: the pointer's
      second byte is all there is of the offset. */
  lemma PointerReachesQuestion(q: seq<Byte>, qlen: nat, slen: nat, net: nat, mask: nat, max: nat,
                               qs: seq<Question>, cache: Lru.Cache, i: nat)
    requires Query(q, qlen, slen, max, qs) && Addressable(net, mask, max) && Lru.Valid(cache, max)
    requires i < |qs| && IsAddress(qs[i])
    ensures var reply := Handled(q, qlen, slen, net, max, cache).1;
            && reply.Some?
            && PointerAt(reply.value, qs, i).Some?
            && (PointerAt(reply.value, qs, i) == Some(0xc000 + OffsetOf(qs, i)) <==> OffsetOf(qs, i) < 256)
  {
    PointerInReply(q, qlen, slen, net, mask, max, qs, cache, i);
    FitsOneByte(OffsetOf(qs, i));
  }

  lemma FitsOneByte(off: nat)
    ensures off % 256 == off <==> off < 256
  {
  }

  lemma PointerInReply(q: seq<Byte>, qlen: nat, slen: nat, net: nat, mask: nat, max: nat,
                       qs: seq<Question>, cache: Lru.Cache, i: nat)
    requires Query(q, qlen, slen, max, qs) && Addressable(net, mask, max) && Lru.Valid(cache, max)
    requires i < |qs| && IsAddress(qs[i])
    ensures var reply := Handled(q, qlen, slen, net, max, cache).1;
            reply.Some? && PointerAt(reply.value, qs, i) == Some(0xc000 + OffsetOf(qs, i) % 256)
  {
    var result := Handled(q, qlen, slen, net, max, cache);
    ReplyToQuery(q, qlen, slen, net, mask, max, qs, cache);
    RepliesPoint(result.1.value, q, qs, net, mask, result.0, i);
  }

  // ---------------------------------------------------------------------
  // A query whose second answer points elsewhere

  function Letters(n: nat): (l: Name)
    ensures |l| == n && forall i :: 0 <= i < n ==> l[i] == 97
  {
    if n == 0 then [] else [97] + Letters(n - 1)
  }

  /** A name of four labels of 60 letters each. */
  function LongQuestion(): (q: Question) {
    var l := Letters(60);
    Question([l, l, l, l], 1, 1)
  }

  function ShortQuestion(): (q: Question) {
    Question([[98]], 1, 1)
  }

  function TwoQuestions(): (qs: seq<Question>) {
    [LongQuestion(), ShortQuestion()]
  }

  /** Two questions for an address, the first by a name of 243 characters. */
  ghost function LongQuery(): (q: seq<Byte>) {
    [0, 7, 1, 0] + U16(2) + [0, 0, 0, 0, 0, 0] + EncodeAll(TwoQuestions()) + [0]
  }

  lemma LabelsCons(l: Name, rest: seq<Name>)
    ensures EncodeLabels([l] + rest) == [(|l| % 256) as Byte] + l + EncodeLabels(rest)
  {
    assert ([l] + rest)[1..] == rest;
  }

  lemma LongLength()
    ensures |Encode(LongQuestion())| == 249 && |Encode(ShortQuestion())| == 7
    ensures EncodeAll(TwoQuestions()) == Encode(LongQuestion()) + Encode(ShortQuestion())
    ensures OffsetOf(TwoQuestions(), 1) == 261
  {
    var l := Letters(60);
    LabelsCons(l, []);
    LabelsCons(l, [l]);
    LabelsCons(l, [l, l]);
    LabelsCons(l, [l, l, l]);
    assert [l] + [] == [l] && [l] + [l] == [l, l] && [l] + [l, l] == [l, l, l] &&
        [l] + [l, l, l] == LongQuestion().labels;
    LabelsCons([98], []);
    assert [[98 as Byte]] + [] == ShortQuestion().labels;
    assert TwoQuestions()[1..] == [ShortQuestion()] && [ShortQuestion()][1..] == [];
    EncodeAllUnfold([ShortQuestion()]);
    assert TwoQuestions()[..1] == [LongQuestion()] && [LongQuestion()][1..] == [];
    EncodeAllUnfold([LongQuestion()]);
  }

  /** A message of a header and a question section, with one byte behind it. */
  lemma MessageIsQuery(head: seq<Byte>, qs: seq<Question>, slen: nat, max: nat)
    requires |head| == HEADER && ReadU16(head, 4) == |qs| <= MAX_QUESTIONS && |qs| <= max && max > 0
    requires forall x :: x in qs ==> WellFormed(x)
    requires HEADER + |EncodeAll(qs)| + 16 * |qs| <= slen
    ensures Query(head + EncodeAll(qs) + [0], HEADER + |EncodeAll(qs)|, slen, max, qs)
  {
    var q := head + EncodeAll(qs) + [0];
    assert forall i :: HEADER <= i < HEADER + |EncodeAll(qs)| ==> q[i] == EncodeAll(qs)[i - HEADER];
    assert q[4] == head[4] && q[5] == head[5];
    NameSetSize(NamesOf(AskedIn(qs, HEADER)));
  }

  lemma LongQueryIsOne()
    ensures Query(LongQuery(), 268, 300, 2, TwoQuestions())
  {
    LongLength();
    var head := [0, 7, 1, 0] + U16(2) + [0, 0, 0, 0, 0, 0];
    assert head[4] == U16(2)[0] && head[5] == U16(2)[1];
    MessageIsQuery(head, TwoQuestions(), 300, 2);
  }

  lemma {:induction false} NameSetSize(names: seq<Name>)
    ensures |Lru.NameSet(names)| <= |names|
  {
    if names != [] {
      Lru.NameSetCons(names);
      NameSetSize(names[1..]);
    }
  }

  /** The second question lies at 261, and the pointer of its answer says 5: the middle of
      the query's header. */
  lemma SecondAnswerPointsElsewhere(net: nat, mask: nat, cache: Lru.Cache)
    requires Addressable(net, mask, 2) && Lru.Valid(cache, 2)
    ensures var reply := Handled(LongQuery(), 268, 300, net, 2, cache).1;
            && OffsetOf(TwoQuestions(), 1) == 261
            && reply.Some? && PointerAt(reply.value, TwoQuestions(), 1) == Some(0xc000 + 5)
  {
    LongLength();
    LongQueryIsOne();
    PointerInReply(LongQuery(), 268, 300, net, mask, 2, TwoQuestions(), cache, 1);
  }
}
