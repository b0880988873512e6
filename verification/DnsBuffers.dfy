/** The loops of the mapped DNS over the query's and the reply's buffers. */
module DnsBuffers {
  import opened Wrappers
  import opened Bytes

  import opened DnsScan

  method SkipName(req: array<Byte>, start: nat, qlen: nat) returns (ok: bool, off: nat)
    requires start <= qlen < req.Length
    modifies req
    ensures Walk(ok, req[..], off) == WalkName(old(req[..]), start, qlen)
  {
    ghost var rb := req[..];
    off := start;
    while req[off] != 0
      invariant off <= qlen
      invariant WalkName(req[..], off, qlen) == WalkName(rb, start, qlen)
      decreases qlen - off
    {
      var lengthAt := off;
      var next := off + 1 + req[off] as nat;
      if next >= qlen {
        return false, off;
      }
      off := next;
      req[lengthAt] := DOT;
    }
    ok := true;
  }

  method WriteU16(res: array<Byte>, off: nat, v: nat)
    requires v < 0x1_0000 && off + 2 <= res.Length
    modifies res
    ensures res[..off + 2] == old(res[..off]) + U16(v)
  {
    res[off], res[off + 1] := (v / 256) as Byte, (v % 256) as Byte;
  }

  method WriteU32(res: array<Byte>, off: nat, v: nat)
    requires v < 0x1_0000_0000 && off + 4 <= res.Length
    modifies res
    ensures res[..off + 4] == old(res[..off]) + U32(v)
  {
    res[off], res[off + 1] := (v / 0x100_0000) as Byte, (v / 0x1_0000 % 256) as Byte;
    res[off + 2], res[off + 3] := (v / 256 % 256) as Byte, (v % 256) as Byte;
  }

  method WriteAnswer(net: nat, res: array<Byte>, off: nat, h: Hit)
    requires off + 16 <= res.Length
    modifies res
    ensures res[..off + 16] == old(res[..off]) + Answer(net, h)
  {
    ghost var before := res[..off];
    res[off], res[off + 1] := 0xc0, (h.off % 256) as Byte;
    assert res[..off + 2] == before + [0xc0, (h.off % 256) as Byte];
    WriteU16(res, off + 2, 1);
    WriteU16(res, off + 4, 1);
    WriteU32(res, off + 6, 1);
    WriteU16(res, off + 10, 4);
    WriteU32(res, off + 12, Address(net, h.slot));
  }

  lemma AnswersSnoc(before: seq<Byte>, net: nat, hits: seq<Hit>, i: nat)
    requires i < |hits|
    ensures before + Answers(net, hits[..i + 1]) == before + Answers(net, hits[..i]) + Answer(net, hits[i])
  {
    assert hits[..i + 1][..i] == hits[..i];
  }

  /** The loop over the answers, written behind the questions. */
  method WriteAnswers(net: nat, res: array<Byte>, slen: nat, start: nat, hits: seq<Hit>) returns (r: int)
    requires start <= slen <= res.Length
    modifies res
    ensures if start + 16 * |hits| <= slen
            then r == start + 16 * |hits| && res[..r] == old(res[..start]) + Answers(net, hits)
            else r == -1
  {
    ghost var before := res[..start];
    var off := start;
    var i := 0;
    while i < |hits|
      invariant i <= |hits| && off == start + 16 * i <= slen
      invariant res[..off] == before + Answers(net, hits[..i])
    {
      if off + 15 >= slen {
        return -1;
      }
      WriteAnswer(net, res, off, hits[i]);
      AnswersSnoc(before, net, hits, i);
      off := off + 16;
      i := i + 1;
    }
    r := off;
    assert hits[..i] == hits;
  }

  /** The query's bytes as the reply begins, with no records counted. */
  method CopyQuery(req: array<Byte>, qlen: nat, res: array<Byte>)
    requires HEADER <= qlen <= req.Length && qlen <= res.Length && req != res
    modifies res
    ensures res[..qlen] == req[..6] + [0, 0, 0, 0, 0, 0] + req[HEADER..qlen]
  {
    forall k | 0 <= k < qlen {
      res[k] := req[k];
    }
    res[6], res[7], res[8], res[9], res[10], res[11] := 0, 0, 0, 0, 0, 0;
  }

  /** The question count, turned to the host's byte order where it lies. */
  method TurnCount(req: array<Byte>) returns (count: nat)
    requires HEADER <= req.Length
    modifies req
    ensures req[..] == CountTurned(old(req[..]))
    ensures count == ReadU16(old(req[..]), 4)
  {
    count := 256 * (req[4] as int) + req[5] as int;
    req[4], req[5] := req[5], req[4];
  }

  /** What is done to both buffers before the questions are read. */
  method Prepare(req: array<Byte>, qlen: nat, res: array<Byte>) returns (count: nat)
    requires HEADER <= qlen <= req.Length && qlen <= res.Length && req != res
    modifies req, res
    ensures req[..] == CountTurned(old(req[..]))
    ensures count == ReadU16(old(req[..]), 4)
    ensures forall off :: HEADER <= off <= qlen ==>
      res[..off] == old(req[..6]) + [0, 0, 0, 0, 0, 0] + old(req[HEADER..off])
  {
    CopyQuery(req, qlen, res);
    ghost var copied := res[..qlen];
    count := TurnCount(req);
    forall off | HEADER <= off <= qlen
      ensures res[..off] == old(req[..6]) + [0, 0, 0, 0, 0, 0] + old(req[HEADER..off])
    {
      assert res[..off] == copied[..off];
    }
  }

  method FinishHeader(res: array<Byte>, answers: nat, ghost r: nat)
    requires HEADER <= r <= res.Length && answers < 0x1_0000
    requires res[8] == res[9] == res[10] == res[11] == 0
    modifies res
    ensures res[..r] == ReplyHeader(old(res[..r]), answers) + old(res[HEADER..r])
  {
    var lo := if res[2] % 2 == 1 && res[3] < 128 then res[3] + 128 else res[3];
    var hi := if res[2] < 128 then res[2] + 128 else res[2];
    res[2], res[3] := hi, lo;
    res[6], res[7] := (answers / 256) as Byte, (answers % 256) as Byte;
    assert res[..HEADER] == ReplyHeader(old(res[..r]), answers);
    assert res[..r] == res[..HEADER] + res[HEADER..r];
  }

  lemma CopiedRest(q: seq<Byte>, off: nat, copied: seq<Byte>, tail: seq<Byte>)
    requires HEADER <= off <= |q| && copied == q[..6] + [0, 0, 0, 0, 0, 0] + q[HEADER..off]
    ensures (copied + tail)[HEADER..] == q[HEADER..off] + tail
  {
    assert copied[HEADER..] == q[HEADER..off];
  }

  lemma CopiedHeader(q: seq<Byte>, copy: seq<Byte>, answers: nat)
    requires HEADER <= |q| && HEADER <= |copy| && answers < 0x1_0000
    requires forall k :: 0 <= k < 6 ==> copy[k] == q[k]
    ensures ReplyHeader(copy, answers) == ReplyHeader(q, answers)
  {
    assert copy[..2] == q[..2] && copy[4..6] == q[4..6];
  }

  /** The answers behind the copied questions, under a finished header. */
  method WriteReply(net: nat, res: array<Byte>, slen: nat, off: nat, hits: seq<Hit>, ghost q: seq<Byte>, ghost s: Scan)
    returns (r: int)
    requires HEADER <= off <= slen <= res.Length && off <= |q| && |hits| < 0x1_0000
    requires s.ok && s.off == off && s.hits == hits
    requires res[..off] == q[..6] + [0, 0, 0, 0, 0, 0] + q[HEADER..off]
    modifies res
    ensures var reply := Reply(q, slen, net, s);
      if reply.Some? then r == |reply.value| && res[..r] == reply.value else r == -1
  {
    ghost var copied := res[..off];
    r := WriteAnswers(net, res, slen, off, hits);
    if r >= 0 {
      ghost var written := res[..r];
      assert forall k :: 0 <= k < 6 ==> written[k] == copied[k] == q[k];
      assert written == copied + Answers(net, hits);
      assert forall k :: 8 <= k < HEADER ==> res[k] == written[k] == copied[k] == 0;
      FinishHeader(res, |hits|, r);
      CopiedHeader(q, written, |hits|);
      CopiedRest(q, off, copied, Answers(net, hits));
    }
  }
}
