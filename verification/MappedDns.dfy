/**
  The mapped DNS: a bounded cache that gives every name an address of its own
  network.  A tree by name, a recency list and an array by slot describe the same
  bindings; each operation is proved to do to them what `LruCache` says.
 */
module MappedDns {
  import opened Wrappers
  import opened Bytes
  import opened RecencyList
  import Bits
  import opened DnsScan
  import opened DnsBuffers

  import Lru = LruCache

  /** A 32-bit word read as a signed number. */
  function Signed(x: nat): (r: int)
    requires x < Bits.WORD
  {
    if x < Bits.WORD / 2 then x else x - Bits.WORD
  }

  /** A cache, or null where the network has fewer hosts than `max`, or so many that their
      number is read as a negative one. */
  method NewCache(net: nat, mask: nat, max: nat) returns (c: Cache?)
    requires max < Bits.WORD / 2 && net < Bits.WORD && mask < Bits.WORD
    ensures c == null <==> max > Bits.Not(mask) || Bits.Not(mask) >= 0x8000_0000
    ensures c != null ==> fresh(c) && c.Valid() && c.Contents() == []
    ensures c != null ==> c.net == net && c.mask == mask && c.max == max <= Bits.Not(mask)
  {
    if max > Signed(Bits.Not(mask)) {
      return null;
    }
    c := new Cache(net, mask, max);
  }

  class Cache {
    var use: nat
    const max: nat
    const net: nat
    const mask: nat
    const list: List
    var tree: map<Name, Node>
    const records: array<Node?>

    ghost predicate NodeOk(n: Node)
      reads this, records, n
    {
      && n.name in tree && tree[n.name] == n
      && n.slot < use <= records.Length && records[n.slot] == n
    }

    ghost predicate RecordOk(s: nat)
      requires s < records.Length
      reads this, list, list.nodes, records
    {
      if s < use
      then records[s] != null && records[s] in list.nodes && records[s].slot == s
      else records[s] == null
    }

    ghost predicate TreeOk(name: Name)
      requires name in tree
      reads this, list
    {
      tree[name] in list.nodes && tree[name].name == name
    }

    /** Tree, list and array are one bijection, within the bound. */
    ghost predicate Valid()
      reads this, list, list.nodes, records
    {
      && max == records.Length < Bits.WORD
      && net < Bits.WORD && mask < Bits.WORD
      && list.Valid()
      && |list.nodes| == use <= max
      && (forall i :: 0 <= i < |list.nodes| ==> NodeOk(list.nodes[i]))
      && (forall s :: 0 <= s < records.Length ==> RecordOk(s))
      && (forall name :: name in tree ==> TreeOk(name))
    }

    ghost function Contents(): (c: Lru.Cache)
      reads this, list, list.nodes
    {
      seq(|list.nodes|, i requires 0 <= i < |list.nodes| reads this, list, list.nodes =>
        Lru.Binding(list.nodes[i].name, list.nodes[i].slot))
    }

    constructor (net: nat, mask: nat, max: nat)
      requires max < Bits.WORD && net < Bits.WORD && mask < Bits.WORD
      ensures Valid() && Contents() == []
      ensures this.net == net && this.mask == mask && this.max == max
      ensures fresh(list) && fresh(records)
    {
      this.net, this.mask, this.max := net, mask, max;
      use, tree := 0, map[];
      list := new List();
      records := new Node?[max](_ => null);
    }

    lemma ContentsValid()
      requires Valid()
      ensures Lru.Valid(Contents(), max)
    {
      var c := Contents();
      forall i, j | 0 <= i < j < |c| ensures c[i].name != c[j].name && c[i].slot != c[j].slot {
        DistinctAt(list.nodes, i);
        assert NodeOk(list.nodes[i]) && NodeOk(list.nodes[j]);
      }
      forall i | 0 <= i < |c| ensures c[i].slot < |c| {
        assert NodeOk(list.nodes[i]);
      }
    }

    ghost function PlaceOf(node: Node): (i: nat)
      requires node in list.nodes
      reads list
      ensures i < |list.nodes| && list.nodes[i] == node
    {
      var i :| 0 <= i < |list.nodes| && list.nodes[i] == node;
      i
    }

    /** A reordering of the list keeps everything else right. */
    twostate lemma ReorderedValid()
      requires old(Valid())
      requires list.Valid()
      requires unchanged(this) && unchanged(records)
      requires |list.nodes| == |old(list.nodes)|
      requires forall n :: n in list.nodes <==> n in old(list.nodes)
      requires forall n :: n in old(list.nodes) ==> n.slot == old(n.slot)
      ensures Valid()
    {
      forall k | 0 <= k < |list.nodes| ensures NodeOk(list.nodes[k]) {
        var n := list.nodes[k];
        assert n in old(list.nodes);
        var j :| 0 <= j < |old(list.nodes)| && old(list.nodes)[j] == n;
        assert old(NodeOk(list.nodes[j]));
      }
      forall s | 0 <= s < records.Length ensures RecordOk(s) {
        assert old(RecordOk(s));
      }
      forall name | name in tree ensures TreeOk(name) {
        assert old(TreeOk(name));
      }
    }

    twostate lemma TouchedContents(i: nat)
      requires i < |old(list.nodes)|
      requires list.nodes == Without(old(list.nodes), i) + [old(list.nodes)[i]]
      requires forall k :: 0 <= k < |old(list.nodes)| ==> old(list.nodes)[k].slot == old(list.nodes[k].slot)
      ensures Contents() == Lru.Touch(old(Contents()), i)
    {
      Lru.TouchAt(old(Contents()), i);
    }

    /** The touch common to a find that hits and to a lookup. */
    method MoveToTail(node: Node)
      requires Valid()
      requires node in list.nodes
      modifies list, list.nodes`next, list.nodes`prev
      ensures Valid()
      ensures Contents() == Lru.Touch(old(Contents()), old(PlaceOf(node)))
    {
      ghost var i := PlaceOf(node);
      list.MoveToTail(node, i);
      ReorderedValid();
      TouchedContents(i);
    }

    lemma HasMeansInTree(name: Name)
      requires Valid()
      ensures Lru.Has(Contents(), name) <==> name in tree
      ensures name in tree ==>
        && tree[name] in list.nodes
        && Lru.PositionOf(Contents(), name) == PlaceOf(tree[name])
    {
      var c := Contents();
      if Lru.Has(c, name) {
        assert NodeOk(list.nodes[Lru.PositionOf(c, name)]);
      }
      if name in tree {
        assert TreeOk(name);
        var i := PlaceOf(tree[name]);
        assert c[i].name == name;
        ContentsValid();
        assert Lru.PositionOf(c, name) == i;
      }
    }

    lemma HasSlotMeansRecorded(slot: nat)
      requires Valid()
      ensures Lru.HasSlot(Contents(), slot) <==> slot < use
      ensures slot < use ==>
        && records[slot] != null && records[slot] in list.nodes
        && Lru.PositionOfSlot(Contents(), slot) == PlaceOf(records[slot])
    {
      var c := Contents();
      if Lru.HasSlot(c, slot) {
        assert NodeOk(list.nodes[Lru.PositionOfSlot(c, slot)]);
      }
      if slot < use {
        assert RecordOk(slot);
        var i := PlaceOf(records[slot]);
        assert c[i].slot == slot;
        ContentsValid();
        assert Lru.PositionOfSlot(c, slot) == i;
      }
    }

    /** The new node took the place of the `gone` oldest ones (one or none). */
    twostate lemma InsertedValid(new node: Node, gone: nat)
      requires old(Valid()) && 0 < max
      requires list.Valid()
      requires if gone == 0 then old(use) < max && use == old(use) + 1
               else gone == 1 && old(use) == max == use
      requires list.nodes == old(list.nodes)[gone..] + [node]
      requires node.name !in old(tree)
      requires tree == (old(tree) - (set n | n in old(list.nodes)[..gone] :: n.name))[node.name := node]
      requires node.slot == if gone == 0 then old(use) else old(list.nodes[0].slot)
      requires node.slot < max && records[..] == old(records[..])[node.slot := node]
      requires forall n :: n in old(list.nodes) ==> n.slot == old(n.slot)
      ensures Valid()
    {
      var was := old(list.nodes);
      assert forall k :: 0 <= k < |was| ==> old(NodeOk(list.nodes[k]));
      assert forall s :: 0 <= s < max && s != node.slot ==> records[s] == old(records[s]);
      assert records[node.slot] == records[..][node.slot] == node;
      assert list.nodes[|list.nodes| - 1] == node;
      if gone == 1 {
        DistinctAt(was, 0);
      }
      forall k | 0 <= k < |list.nodes| - 1 ensures NodeOk(list.nodes[k]) {
        assert list.nodes[k] == was[k + gone];
        assert old(NodeOk(list.nodes[k + gone]));
      }
      forall s | 0 <= s < records.Length ensures RecordOk(s) {
        assert old(RecordOk(s));
        if s != node.slot && s < use {
          var k :| 0 <= k < |was| && was[k] == records[s];
          assert list.nodes[k - gone] == was[k];
        }
      }
      forall key | key in tree ensures TreeOk(key) {
        if key != node.name {
          assert old(TreeOk(key));
          var k :| 0 <= k < |was| && was[k] == tree[key];
          assert k >= gone;
          assert list.nodes[k - gone] == was[k];
        }
      }
    }

    twostate lemma InsertedContents(new node: Node, gone: nat)
      requires gone <= |old(list.nodes)|
      requires list.nodes == old(list.nodes)[gone..] + [node]
      requires forall n :: n in old(list.nodes) ==> n.slot == old(n.slot)
      ensures Contents() == old(Contents())[gone..] + [Lru.Binding(node.name, node.slot)]
    {
      var c := Contents();
      var d := old(Contents())[gone..] + [Lru.Binding(node.name, node.slot)];
      forall k | 0 <= k < |c| ensures c[k] == d[k] {
        if k < |c| - 1 {
          assert list.nodes[k] == old(list.nodes)[k + gone];
        }
      }
    }

    /** A new node goes into the tree and behind the list; past the bound the oldest
        node goes out of both, and its slot is the one to use. */
    method Place(name: Name) returns (node: Node, slot: nat)
      requires list.Valid() && |list.nodes| == use <= max && 0 < max
      requires forall n :: n in list.nodes ==> n.name != name
      modifies this, list, list.nodes`next, list.nodes`prev
      ensures fresh(node) && node.name == name
      ensures list.Valid()
      ensures var gone := if old(use) < max then 0 else 1;
        && use == old(use) + 1 - gone
        && list.nodes == old(list.nodes)[gone..] + [node]
        && tree == (old(tree) - (set n | n in old(list.nodes)[..gone] :: n.name))[name := node]
        && slot == if gone == 0 then old(use) else old(list.nodes[0].slot)
      ensures forall n :: n in list.nodes ==> n in old(list.nodes) || n == node
    {
      ghost var was, treeWas := list.nodes, tree;
      node := new Node(name);
      tree := tree[name := node];
      list.AddTail(node);
      if use < max {
        slot := use;
        use := use + 1;
      } else {
        var oldest := list.head;
        assert oldest == was[0];
        slot := oldest.slot;
        tree := tree - {oldest.name};
        list.Del(oldest, 0);
        assert was[..1] == [was[0]];
        assert list.nodes == was[1..] + [node];
        assert tree == (treeWas - {was[0].name})[name := node];
      }
    }

    /** A name the cache does not hold. */
    method Insert(name: Name) returns (slot: nat)
      requires Valid() && 0 < max
      requires name !in tree
      modifies this, list, list.nodes, records
      ensures Valid()
      ensures var gone := if old(use) < max then 0 else 1;
        && slot == (if gone == 0 then old(use) else old(list.nodes[0].slot))
        && Contents() == old(Contents())[gone..] + [Lru.Binding(name, slot)]
      ensures (forall n :: n in list.nodes ==> n in old(list.nodes) || fresh(n))
    {
      ghost var gone := if use < max then 0 else 1;
      assert forall k :: 0 <= k < |list.nodes| ==> NodeOk(list.nodes[k]);
      var node;
      node, slot := Place(name);
      records[slot] := node;
      node.slot := slot;
      InsertedValid(node, gone);
      InsertedContents(node, gone);
    }

    method Find(name: Name) returns (slot: nat)
      requires Valid() && 0 < max
      modifies this, list, list.nodes, records
      ensures Valid()
      ensures (Contents(), slot) == Lru.Find(old(Contents()), max, name)
      ensures (forall n :: n in list.nodes ==> n in old(list.nodes) || fresh(n))
    {
      HasMeansInTree(name);
      if name in tree {
        var node := tree[name];
        MoveToTail(node);
        slot := node.slot;
      } else {
        slot := Insert(name);
      }
    }

    /** The name an address of the network was given to, which is touched. */
    method Lookup(ip: nat) returns (name: Option<Name>)
      requires Valid()
      modifies list, list.nodes
      ensures Valid()
      ensures (Contents(), name) == Lru.Lookup(old(Contents()), Bits.And(ip, Bits.Not(mask)))
    {
      var slot := Bits.And(ip, Bits.Not(mask));
      HasSlotMeansRecorded(slot);
      if slot >= max {
        return None;
      }
      assert RecordOk(slot);
      var node := records[slot];
      if node == null {
        return None;
      }
      MoveToTail(node);
      name := Some(node.name);
    }

    /** One turn of the loop over the questions. */
    method Question(req: array<Byte>, start: nat, qlen: nat, sofar: seq<Hit>)
      returns (ok: bool, off: nat, hits: seq<Hit>)
      requires Valid() && 0 < max
      requires start <= qlen < req.Length
      modifies this, list, list.nodes, records, req
      ensures Valid() && (forall n :: n in list.nodes ==> n in old(list.nodes) || fresh(n))
      ensures var s := ScanOne(Scan(true, old(req[..]), start, sofar, old(Contents())), qlen, max);
        ok == s.ok && req[..] == s.rb && off == s.off && hits == s.hits && Contents() == s.cache
    {
      ghost var s := Scan(true, req[..], start, sofar, Contents());
      ghost var t := ScanOne(s, qlen, max);
      var walked, end := SkipName(req, start, qlen);
      assert Contents() == s.cache;
      if !walked || end + 4 >= qlen {
        assert t == s.(ok := false, rb := req[..]);
        return false, start, sofar;
      }
      ok, off, hits := true, end + 5, sofar;
      if IsAddressQuestion(req[..], end + 1) {
        var name := CString(req[..], start + 1);
        ghost var found := Lru.Find(s.cache, max, name);
        assert t == Scan(true, req[..], off, sofar + [Hit(start, found.1)], found.0);
        var slot := Find(name);
        hits := sofar + [Hit(start, slot)];
      }
    }

    /** The loop over the questions. */
    method Questions(req: array<Byte>, qlen: nat, count: nat) returns (ok: bool, off: nat, hits: seq<Hit>)
      requires Valid() && 0 < max
      requires HEADER <= qlen < req.Length
      modifies this, list, list.nodes, records, req
      ensures Valid()
      ensures var s := ScanQuestions(Scan(true, old(req[..]), HEADER, [], old(Contents())), qlen, count, max);
        ok == s.ok && req[..] == s.rb && off == s.off && hits == s.hits && Contents() == s.cache
    {
      ok, off, hits := true, HEADER, [];
      ghost var s := Scan(ok, req[..], off, hits, Contents());
      ghost var whole := ScanQuestions(s, qlen, count, max);
      var i := 0;
      while ok && i < count
        invariant i <= count
        invariant Valid() && (forall n :: n in list.nodes ==> n in old(list.nodes) || fresh(n))
        invariant s == Scan(ok, req[..], off, hits, Contents())
        invariant InMessage(s, qlen) && ScanQuestions(s, qlen, count - i, max) == whole
      {
        ScanUnfold(s, qlen, count - i, max);
        s := ScanOne(s, qlen, max);
        ok, off, hits := Question(req, off, qlen, hits);
        i := i + 1;
      }
    }

    /** Copies the query and reads its questions. */
    method ReadQuery(req: array<Byte>, qlen: nat, res: array<Byte>, ghost q: seq<Byte>)
      returns (tooMany: bool, ok: bool, off: nat, hits: seq<Hit>)
      requires Valid() && 0 < max
      requires HEADER <= qlen < req.Length && qlen <= res.Length && req != res
      requires q == req[..]
      modifies this, list, list.nodes, records, req, res
      ensures Valid()
      ensures tooMany == (ReadU16(q, 4) > MAX_QUESTIONS)
      ensures tooMany ==> Contents() == old(Contents())
      ensures !tooMany ==>
        var s := Read(q, qlen, max, old(Contents()));
        && ok == s.ok && off == s.off && hits == s.hits && Contents() == s.cache
        && (ok ==> res[..off] == q[..6] + [0, 0, 0, 0, 0, 0] + q[HEADER..off])
    {
      var qd := Prepare(req, qlen, res);
      tooMany, ok, off, hits := qd > MAX_QUESTIONS, false, 0, [];
      if !tooMany {
        ok, off, hits := Questions(req, qlen, qd);
      }
    }

    /** Answers a query in `req` with a reply in `res`; -1 where there is none. */
    method Handle(req: array<Byte>, qlen: nat, res: array<Byte>, slen: nat) returns (r: int)
      requires Valid() && 0 < max
      requires HEADER <= qlen < req.Length && slen <= res.Length && req != res
      modifies this, list, list.nodes, records, req, res
      ensures Valid()
      ensures var (c, reply) := Handled(old(req[..]), qlen, slen, net, max, old(Contents()));
        && Contents() == c
        && (if reply.Some? then r == |reply.value| && res[..r] == reply.value else r == -1)
    {
      if slen < qlen {
        return -1;
      }
      ghost var q, c0 := req[..], Contents();
      var tooMany, ok, off, hits := ReadQuery(req, qlen, res, q);
      if tooMany || !ok {
        return -1;
      }
      r := WriteReply(net, res, slen, off, hits, q, Read(q, qlen, max, c0));
    }
  }
}
