/**
  The internet checksum of the latency probe and the echo packet that carries it
  (iosApp/iosApp/OlcboxIosApp.swift; section 1 of RFC 1071).
 */
module InternetChecksum {
  import opened Wrappers
  import opened Bytes

  const MAX_U32: nat := 0xFFFF_FFFF

  /** The message as 16-bit big-endian words, a last odd byte as the high half of one,
      added up. */
  function WordSum(b: seq<Byte>): (sum: nat) {
    if b == [] then 0
    else if |b| == 1 then 256 * (b[0] as int)
    else 256 * (b[0] as int) + b[1] as int + WordSum(b[2..])
  }

  /** The one's complement sum a plain sum stands for: the value in 1..65535 it is equal
      to modulo 65535, and zero only for zero. */
  function OnesSum(v: nat): (r: nat)
    ensures r <= 0xFFFF && r % 0xFFFF == v % 0xFFFF && (r == 0 <==> v == 0)
  {
    if v == 0 then 0 else 1 + (v - 1) % 0xFFFF
  }

  lemma OnesSumIs(v: nat, r: nat)
    requires r <= 0xFFFF && r % 0xFFFF == v % 0xFFFF && (r == 0 <==> v == 0)
    ensures r == OnesSum(v)
  {
  }

  /** Folding the carries back in keeps the value modulo 65535 and makes it smaller. */
  lemma FoldStep(total: nat)
    requires total / 0x1_0000 != 0
    ensures var next := total % 0x1_0000 + total / 0x1_0000;
            next < total && next % 0xFFFF == total % 0xFFFF && next != 0
  {
    var hi, lo := total / 0x1_0000, total % 0x1_0000;
    assert total == (lo + hi) + 0xFFFF * hi;
    AddMultiple(lo + hi, hi);
  }

  lemma {:induction false} AddMultiple(a: nat, k: nat)
    ensures (a + 0xFFFF * k) % 0xFFFF == a % 0xFFFF
  {
    if k > 0 {
      AddMultiple(a, k - 1);
      assert (a + 0xFFFF * (k - 1) + 0xFFFF) % 0xFFFF == (a + 0xFFFF * (k - 1)) % 0xFFFF;
    }
  }

  /** The checksum, or nothing where the 32-bit sum overflows and the program stops. */
  method Checksum(bytes: seq<Byte>) returns (r: Option<nat>)
    ensures r.Some? <==> WordSum(bytes) <= MAX_U32
    ensures r.Some? ==> r.value == 0xFFFF - OnesSum(WordSum(bytes))
  {
    var total: nat, index := 0, 0;
    while total <= MAX_U32 && index + 1 < |bytes|
      invariant 0 <= index <= |bytes|
      invariant total + WordSum(bytes[index..]) == WordSum(bytes)
    {
      assert bytes[index..][2..] == bytes[index + 2..];
      total := total + 256 * (bytes[index] as int) + bytes[index + 1] as int;
      index := index + 2;
    }
    if total <= MAX_U32 && index < |bytes| {
      total := total + 256 * (bytes[index] as int);
      index := index + 1;
    }
    if total > MAX_U32 {
      return None;
    }
    assert total == WordSum(bytes);
    while total / 0x1_0000 != 0
      invariant total % 0xFFFF == WordSum(bytes) % 0xFFFF && (total == 0 <==> WordSum(bytes) == 0)
      invariant total <= MAX_U32
      decreases total
    {
      FoldStep(total);
      total := total % 0x1_0000 + total / 0x1_0000;
    }
    OnesSumIs(WordSum(bytes), total);
    r := Some(0xFFFF - total);
  }

  // ---------------------------------------------------------------------
  // The sum fits in 32 bits

  lemma {:induction false} SumBound(b: seq<Byte>)
    ensures WordSum(b) <= (|b| + 1) / 2 * 0xFFFF
  {
    if |b| > 1 {
      SumBound(b[2..]);
    }
  }

  lemma ShortMessageFits(b: seq<Byte>)
    requires |b| <= 131074
    ensures WordSum(b) <= MAX_U32
  {
    SumBound(b);
    assert (|b| + 1) / 2 <= 65537;
  }

  ghost function AllOnes(n: nat): (b: seq<Byte>)
    ensures |b| == n
  {
    seq(n, i => 255)
  }

  lemma {:induction false} AllOnesSum(n: nat)
    ensures WordSum(AllOnes(n)) == n / 2 * 0xFFFF + n % 2 * 0xFF00
  {
    if n > 1 {
      AllOnesSum(n - 2);
      assert AllOnes(n)[2..] == AllOnes(n - 2);
    }
  }

  /** The bound is sharp: of every greater length there is a message whose sum overflows. */
  lemma LongMessageOverflows(n: nat)
    requires n > 131074
    ensures exists b :: |b| == n && WordSum(b) > MAX_U32
  {
    AllOnesSum(n);
    assert n / 2 >= 65537;
    assert n == 131075 ==> n % 2 == 1;
    assert |AllOnes(n)| == n && WordSum(AllOnes(n)) > MAX_U32;
  }

  // ---------------------------------------------------------------------
  // Writing it into the message

  function WithField(b: seq<Byte>, at: nat, v: nat): (r: seq<Byte>)
    requires at + 2 <= |b| && v <= 0xFFFF
  {
    b[at := (v / 256) as Byte][at + 1 := (v % 256) as Byte]
  }

  lemma {:induction false} FieldAdds(b: seq<Byte>, at: nat, v: nat)
    requires at % 2 == 0 && at + 2 <= |b| && v <= 0xFFFF && b[at] == 0 && b[at + 1] == 0
    ensures WordSum(WithField(b, at, v)) == WordSum(b) + v
  {
    if at == 0 {
      assert WithField(b, at, v)[2..] == b[2..];
      assert v == v / 256 * 256 + v % 256;
    } else {
      FieldAdds(b[2..], at - 2, v);
      assert WithField(b, at, v)[2..] == WithField(b[2..], at - 2, v);
    }
  }

  /** A value in a zeroed field makes the message sum to 0xFFFF exactly when it is the
      checksum, or all ones where the checksum is zero. */
  lemma ChecksumCompletes(b: seq<Byte>, at: nat, v: nat)
    requires at % 2 == 0 && at + 2 <= |b| && v <= 0xFFFF && b[at] == 0 && b[at + 1] == 0
    ensures var c := 0xFFFF - OnesSum(WordSum(b));
            OnesSum(WordSum(WithField(b, at, v))) == 0xFFFF <==> v == c || (c == 0 && v == 0xFFFF)
  {
    FieldAdds(b, at, v);
    var s := WordSum(b);
    var c := 0xFFFF - OnesSum(s);
    Complement(s, v);
  }

  lemma Complement(s: nat, v: nat)
    requires v <= 0xFFFF
    ensures var c := 0xFFFF - OnesSum(s);
            OnesSum(s + v) == 0xFFFF <==> v == c || (c == 0 && v == 0xFFFF)
  {
    var o := OnesSum(s);
    if s != 0 {
      var q := (s - 1) / 0xFFFF;
      assert s == 0xFFFF * q + o;
      AddMultiple(o + v, q);
      assert (s + v) % 0xFFFF == (o + v) % 0xFFFF;
    }
  }

  // ---------------------------------------------------------------------
  // The echo packet

  /** "proofkit-latency" */
  const PAYLOAD: seq<Byte> := [112, 114, 111, 111, 102, 107, 105, 116, 45, 108, 97, 116, 101, 110, 99, 121]

  const SIZE: nat := 8 + |PAYLOAD|

  function Header(sequence: nat, v6: bool): (h: seq<Byte>)
    requires sequence <= 0xFFFF
    ensures |h| == 8
  {
    [if v6 then 128 else 8, 0, 0, 0, 0, 0] + U16(sequence)
  }

  /** The packet with its checksum field still zero. */
  method Unsigned(sequence: nat, v6: bool, payload: seq<Byte>) returns (packet: array<Byte>)
    requires sequence <= 0xFFFF
    ensures fresh(packet) && packet[..] == Header(sequence, v6) + payload
  {
    packet := new Byte[8 + |payload|](_ => 0);
    packet[0] := if v6 then 128 else 8;
    packet[1] := 0;
    packet[4] := 0;
    packet[5] := 0;
    packet[6] := (sequence / 256) as Byte;
    packet[7] := (sequence % 256) as Byte;
    assert packet[..8] == Header(sequence, v6);
    for i := 0 to |payload|
      invariant packet[..8] == Header(sequence, v6)
      invariant forall k :: 0 <= k < i ==> packet[8 + k] == payload[k]
    {
      packet[8 + i] := payload[i];
    }
  }

  /** A v4 packet sums to 0xFFFF; a v6 one leaves its checksum to the stack. */
  method EchoPacket(sequence: nat, v6: bool) returns (r: seq<Byte>)
    requires sequence <= 0xFFFF
    ensures |r| == SIZE && r[2 := 0][3 := 0] == Header(sequence, v6) + PAYLOAD
    ensures v6 ==> r[2] == 0 && r[3] == 0
    ensures !v6 ==> OnesSum(WordSum(r)) == 0xFFFF
  {
    var packet := Unsigned(sequence, v6, PAYLOAD);
    r := packet[..];
    if !v6 {
      r := Signed(packet);
    }
  }

  method Signed(packet: array<Byte>) returns (r: seq<Byte>)
    requires 4 <= packet.Length <= 131074 && packet[2] == 0 && packet[3] == 0
    modifies packet
    ensures |r| == packet.Length && r[2 := 0][3 := 0] == old(packet[..])
    ensures OnesSum(WordSum(r)) == 0xFFFF
  {
    ghost var zeroed := packet[..];
    ShortMessageFits(zeroed);
    var sum := Checksum(packet[..]);
    ChecksumCompletes(zeroed, 2, sum.value);
    packet[2] := (sum.value / 256) as Byte;
    packet[3] := (sum.value % 256) as Byte;
    r := packet[..];
    assert r == WithField(zeroed, 2, sum.value);
    assert r[2 := 0][3 := 0] == zeroed;
  }

  // ---------------------------------------------------------------------
  // Telling the answer from somebody else's

  predicate IsEcho(reply: seq<Byte>, offset: nat, sequence: nat, v6: bool) {
    && |reply| >= offset + SIZE
    && reply[offset] == (if v6 then 129 else 0)
    && ReadU16(reply, offset + 6) == sequence
    && reply[offset + 8..offset + SIZE] == PAYLOAD
  }

  function HeaderLength(reply: seq<Byte>): (n: nat)
    requires reply != []
  {
    reply[0] as int % 16 * 4
  }

  predicate Matches(reply: seq<Byte>, sequence: nat, v6: bool) {
    reply != [] && ((!v6 && reply[0] as int / 16 == 4 && IsEcho(reply, HeaderLength(reply), sequence, v6)) ||
        IsEcho(reply, 0, sequence, v6))
  }

  /** A reply in its parts: what comes before, its type, five bytes that may be anything, the
      sequence number, the payload, and whatever follows. */
  function Laid(head: seq<Byte>, kind: Byte, any: seq<Byte>, number: seq<Byte>, payload: seq<Byte>, rest: seq<Byte>)
    : (s: seq<Byte>)
  {
    head + ([kind] + (any + (number + (payload + rest))))
  }

  ghost predicate ReplyAt(reply: seq<Byte>, offset: nat, sequence: nat, v6: bool)
    requires sequence <= 0xFFFF
  {
    exists head, any, rest :: Replied(reply, offset, sequence, v6, head, any, rest)
  }

  ghost predicate Replied(reply: seq<Byte>, offset: nat, sequence: nat, v6: bool,
                          head: seq<Byte>, any: seq<Byte>, rest: seq<Byte>)
    requires sequence <= 0xFFFF
  {
    && |head| == offset && |any| == 5
    && reply == Laid(head, if v6 then 129 else 0, any, U16(sequence), PAYLOAD, rest)
  }

  lemma LaidIs(head: seq<Byte>, kind: Byte, any: seq<Byte>, number: seq<Byte>, payload: seq<Byte>, rest: seq<Byte>)
    requires |any| == 5 && |number| == 2
    ensures var s, at := Laid(head, kind, any, number, payload, rest), |head|;
            && |s| == at + 8 + |payload| + |rest| && s[at] == kind
            && s[at + 6..at + 8] == number && s[at + 8..at + 8 + |payload|] == payload
  {
    var s, at := Laid(head, kind, any, number, payload, rest), |head|;
    var tail := number + (payload + rest);
    assert s[at..] == [kind] + (any + tail);
    assert s[at + 6..] == tail;
    assert tail[2..] == payload + rest;
    assert s[at + 8..] == payload + rest;
  }

  lemma PartsLaid(s: seq<Byte>, at: nat, size: nat)
    requires |s| >= at + 8 + size
    ensures var end := at + 8 + size;
            s == Laid(s[..at], s[at], s[at + 1..at + 6], s[at + 6..at + 8], s[at + 8..end], s[end..])
  {
    assert s[at + 8..] == s[at + 8..at + 8 + size] + s[at + 8 + size..];
    assert s[at + 6..] == s[at + 6..at + 8] + s[at + 8..];
    assert s[at + 1..] == s[at + 1..at + 6] + s[at + 6..];
    assert s[at..] == [s[at]] + s[at + 1..];
    assert s == s[..at] + s[at..];
  }

  lemma EchoIsReply(reply: seq<Byte>, offset: nat, sequence: nat, v6: bool)
    requires sequence <= 0xFFFF && IsEcho(reply, offset, sequence, v6)
    ensures ReplyAt(reply, offset, sequence, v6)
  {
    PartsLaid(reply, offset, |PAYLOAD|);
    assert reply[offset + 6..offset + 8] == U16(sequence);
    assert Replied(reply, offset, sequence, v6, reply[..offset], reply[offset + 1..offset + 6], reply[offset + SIZE..]);
  }

  lemma ReplyIsEcho(reply: seq<Byte>, offset: nat, sequence: nat, v6: bool)
    requires sequence <= 0xFFFF && ReplyAt(reply, offset, sequence, v6)
    ensures IsEcho(reply, offset, sequence, v6)
  {
    var head, any, rest :| Replied(reply, offset, sequence, v6, head, any, rest);
    LaidIs(head, if v6 then 129 else 0, any, U16(sequence), PAYLOAD, rest);
    assert reply[offset + 6] == reply[offset + 6..offset + 8][0];
    assert reply[offset + 7] == reply[offset + 6..offset + 8][1];
  }

  lemma ReplyAtIs(reply: seq<Byte>, offset: nat, sequence: nat, v6: bool)
    requires sequence <= 0xFFFF
    ensures IsEcho(reply, offset, sequence, v6) <==> ReplyAt(reply, offset, sequence, v6)
  {
    if IsEcho(reply, offset, sequence, v6) {
      EchoIsReply(reply, offset, sequence, v6);
    }
    if ReplyAt(reply, offset, sequence, v6) {
      ReplyIsEcho(reply, offset, sequence, v6);
    }
  }

  /** Exactly what is taken for the answer to a probe: an echo reply with its number and its
      payload, at the start, or behind an IPv4 header of the length it gives itself. */
  lemma MatchesMeans(reply: seq<Byte>, sequence: nat, v6: bool)
    requires sequence <= 0xFFFF
    ensures Matches(reply, sequence, v6) <==>
            && reply != []
            && (|| ReplyAt(reply, 0, sequence, v6)
                || (!v6 && reply[0] as int / 16 == 4 && ReplyAt(reply, reply[0] as int % 16 * 4, sequence, v6)))
  {
    ReplyAtIs(reply, 0, sequence, v6);
    if reply != [] {
      ReplyAtIs(reply, HeaderLength(reply), sequence, v6);
    }
  }

  /** What a host sends back: the message with the reply's type, and whatever checksum
      and identifier it or the kernel wrote. */
  function Answer(sent: seq<Byte>, v6: bool, rewritten: seq<Byte>): (a: seq<Byte>)
    requires |sent| == SIZE && |rewritten| == 5
  {
    [if v6 then 129 else 0] + rewritten + sent[6..]
  }

  /** The answer to a probe is taken for the answer to that probe only, with the IPv4
      header in front of it as the header itself gives its length, or without. */
  lemma AnswerMatches(sent: seq<Byte>, sequence: nat, asked: nat, v6: bool, rewritten: seq<Byte>, header: seq<Byte>)
    requires sequence <= 0xFFFF && asked <= 0xFFFF && |rewritten| == 5
    requires |sent| == SIZE && sent[6..] == U16(sequence) + PAYLOAD
    requires header != [] ==> !v6 && header[0] as int / 16 == 4 && |header| == HeaderLength(header)
    ensures Matches(header + Answer(sent, v6, rewritten), asked, v6) <==> asked == sequence
  {
    var a := Answer(sent, v6, rewritten);
    var reply := header + a;
    assert a[6..] == sent[6..];
    assert reply[|header| + 6..] == sent[6..];
    assert reply[|header| + 6] == sent[6..][0] && reply[|header| + 7] == sent[6..][1];
    assert ReadU16(reply, |header| + 6) == sequence;
    assert reply[|header| + 8..|header| + SIZE] == sent[6..][2..];
  }
}
