/** What every part of the model is written with. */
module Wrappers {

  /** A value that may not be there. */
  datatype Option<+T> = None | Some(value: T)

  lemma {:induction false} SubsetSize<T>(a: set<T>, b: set<T>)
    requires a <= b
    ensures |a| <= |b| && (|a| == |b| ==> a == b)
  {
    if a != {} {
      var x :| x in a;
      SubsetSize(a - {x}, b - {x});
    }
  }

  /** The elements with a property, in their order. */
  function Filter<T>(s: seq<T>, p: T -> bool): (r: seq<T>) {
    if s == [] then [] else if p(s[0]) then [s[0]] + Filter(s[1..], p) else Filter(s[1..], p)
  }

  /** Where they lie. */
  function Places<T>(s: seq<T>, p: T -> bool): (r: seq<nat>)
    ensures |r| == |Filter(s, p)|
  {
    if s == [] then []
    else
      var rest := Places(s[1..], p);
      var later := seq(|rest|, k requires 0 <= k < |rest| => rest[k] + 1);
      if p(s[0]) then [0] + later else later
  }

  /** Each is where it lies, in the order they lie in. */
  lemma {:induction false} FilterAt<T>(s: seq<T>, p: T -> bool, k: nat)
    requires k < |Filter(s, p)|
    ensures Places(s, p)[k] < |s| && Filter(s, p)[k] == s[Places(s, p)[k]] && p(Filter(s, p)[k])
    ensures k > 0 ==> Places(s, p)[k - 1] < Places(s, p)[k]
    decreases |s|
  {
    var first := if p(s[0]) then 1 else 0;
    if k >= first {
      FilterAt(s[1..], p, k - first);
    }
  }

  /** And every place with the property is one of theirs. */
  lemma {:induction false} FilterHas<T>(s: seq<T>, p: T -> bool, i: nat)
    requires i < |s| && p(s[i])
    ensures i in Places(s, p)
    decreases |s|
  {
    if i == 0 {
      assert Places(s, p)[0] == 0;
    } else {
      var rest := Places(s[1..], p);
      FilterHas(s[1..], p, i - 1);
      var k :| 0 <= k < |rest| && rest[k] == i - 1;
      assert Places(s, p)[if p(s[0]) then k + 1 else k] == i;
    }
  }

  lemma {:induction false} FilterSnoc<T>(s: seq<T>, x: T, p: T -> bool)
    ensures Filter(s + [x], p) == if p(x) then Filter(s, p) + [x] else Filter(s, p)
  {
    if s == [] {
      assert s + [x] == [x] && [x][1..] == [];
    } else {
      FilterSnoc(s[1..], x, p);
      assert (s + [x])[1..] == s[1..] + [x];
    }
  }
}
