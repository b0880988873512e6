/**
  Where the first of several markers begins in a file read a chunk at a time
  (iosApp/iosApp/OlcboxIosApp.swift).  Only the end of what was read is carried into
  the next window.  A byte is a character.
 */
module ChunkedSearch {
  import opened Wrappers

  ghost predicate OccursAt(needle: string, text: string, at: int) {
    0 <= at && at + |needle| <= |text| && text[at..at + |needle|] == needle
  }

  ghost predicate SomeAt(needles: seq<string>, text: string, at: int) {
    exists k :: 0 <= k < |needles| && OccursAt(needles[k], text, at)
  }

  /** Nothing when no marker occurs in the text, else the smallest offset at which one
      begins. */
  ghost predicate IsFirst(needles: seq<string>, text: string, r: Option<nat>) {
    match r
    case None => forall i :: !SomeAt(needles, text, i)
    case Some(p) => SomeAt(needles, text, p) && forall i :: i < p ==> !SomeAt(needles, text, i)
  }

  // ---------------------------------------------------------------------
  // One window

  /** The first place one needle is in a window. */
  method Find(needle: string, window: string) returns (r: Option<nat>)
    ensures r.None? ==> forall i :: !OccursAt(needle, window, i)
    ensures r.Some? ==> OccursAt(needle, window, r.value) && forall i :: i < r.value ==> !OccursAt(needle, window, i)
  {
    var i := 0;
    while i + |needle| <= |window|
      invariant forall j :: j < i ==> !OccursAt(needle, window, j)
    {
      if window[i..i + |needle|] == needle {
        return Some(i);
      }
      i := i + 1;
    }
    r := None;
  }

  /** The first place any needle is in a window. */
  method FindAny(needles: seq<string>, window: string) returns (r: Option<nat>)
    ensures IsFirst(needles, window, r)
  {
    r := None;
    for k := 0 to |needles|
      invariant r.None? ==> forall j, i :: 0 <= j < k ==> !OccursAt(needles[j], window, i)
      invariant r.Some? ==> SomeAt(needles, window, r.value)
      invariant r.Some? ==> forall j, i :: 0 <= j < k && i < r.value ==> !OccursAt(needles[j], window, i)
    {
      var hit := Find(needles[k], window);
      if hit.Some? && (r.None? || hit.value < r.value) {
        r := hit;
      }
    }
  }

  // ---------------------------------------------------------------------
  // The file in chunks

  function Concat(chunks: seq<string>): (text: string) {
    if chunks == [] then [] else Concat(chunks[..|chunks| - 1]) + chunks[|chunks| - 1]
  }

  /** What the search answers: the first offset in what had been read when the first
      marker was all there. */
  ghost predicate IsChunkedFirst(needles: seq<string>, chunks: seq<string>, r: Option<nat>) {
    match r
    case None => IsFirst(needles, Concat(chunks), None)
    case Some(_) =>
      exists n :: 0 < n <= |chunks| && IsFirst(needles, Concat(chunks[..n - 1]), None) &&
          IsFirst(needles, Concat(chunks[..n]), r)
  }

  function Overlap(needles: seq<string>): (n: nat)
    requires forall k :: 0 <= k < |needles| ==> needles[k] != []
    ensures forall k :: 0 <= k < |needles| ==> |needles[k]| <= n + 1
  {
    if needles == [] then 0
    else
      var rest := Overlap(needles[..|needles| - 1]);
      var last := |needles[|needles| - 1]| - 1;
      if last > rest then last else rest
  }

  /** The part of what was read that the next window begins with. */
  ghost predicate IsCarried(carried: string, base: nat, read: string, overlap: nat) {
    && |carried| == (if overlap <= |read| then overlap else |read|)
    && base == |read| - |carried|
    && read[base..] == carried
  }

  method FirstOffset(needles: seq<string>, chunks: seq<string>) returns (r: Option<nat>)
    requires forall k :: 0 <= k < |needles| ==> needles[k] != []
    requires forall k :: 0 <= k < |chunks| ==> chunks[k] != []
    ensures r.None? <==> IsFirst(needles, Concat(chunks), None)
    ensures IsChunkedFirst(needles, chunks, r)
  {
    var overlap := Overlap(needles);
    var carried: string, base: nat, n := [], 0, 0;
    r := None;
    while r.None? && n < |chunks|
      invariant 0 <= n <= |chunks|
      invariant r.None? ==> IsCarried(carried, base, Concat(chunks[..n]), overlap)
      invariant IsChunkedFirst(needles, chunks[..n], r)
    {
      var chunk := chunks[n];
      ghost var read := Concat(chunks[..n]);
      OneMore(chunks, n);
      var window := carried + chunk;
      var hit := FindAny(needles, window);
      WindowFinds(needles, read, carried, base, chunk, hit);
      n := n + 1;
      if hit.Some? {
        r := Some(base + hit.value);
        assert chunks[..n][..n] == chunks[..n];
      } else {
        var keep := if overlap <= |window| then overlap else |window|;
        CarryOn(read, carried, base, chunk, overlap, keep);
        carried := window[|window| - keep..];
        base := base + (|window| - keep);
      }
    }
    LaterChunks(needles, chunks, n, r);
    NoneOrSome(needles, chunks, r);
  }

  lemma OneMore(chunks: seq<string>, n: nat)
    requires n < |chunks|
    ensures Concat(chunks[..n + 1]) == Concat(chunks[..n]) + chunks[n]
    ensures chunks[..n + 1][..n] == chunks[..n]
  {
    assert chunks[..n + 1][..n] == chunks[..n];
  }

  /** What was found in the first chunks stands whatever chunks follow. */
  lemma LaterChunks(needles: seq<string>, chunks: seq<string>, n: nat, r: Option<nat>)
    requires n <= |chunks| && IsChunkedFirst(needles, chunks[..n], r)
    requires r.None? ==> n == |chunks|
    ensures IsChunkedFirst(needles, chunks, r)
  {
    if r.Some? {
      var m :| 0 < m <= n && IsFirst(needles, Concat(chunks[..n][..m - 1]), None) &&
          IsFirst(needles, Concat(chunks[..n][..m]), r);
      assert chunks[..n][..m - 1] == chunks[..m - 1] && chunks[..n][..m] == chunks[..m];
    } else {
      assert chunks[..n] == chunks;
    }
  }

  lemma NoneOrSome(needles: seq<string>, chunks: seq<string>, r: Option<nat>)
    requires IsChunkedFirst(needles, chunks, r)
    ensures r.None? <==> IsFirst(needles, Concat(chunks), None)
  {
    if r.Some? {
      var n :| 0 < n <= |chunks| && IsFirst(needles, Concat(chunks[..n - 1]), None) &&
          IsFirst(needles, Concat(chunks[..n]), r);
      PrefixHas(needles, chunks, n, r.value);
    }
  }

  /** A needle that begins before the window was all in what was read. */
  lemma BeforeTheWindow(needle: string, read: string, chunk: string, i: int)
    requires i + |needle| <= |read| && OccursAt(needle, read + chunk, i)
    ensures OccursAt(needle, read, i)
  {
    assert read[i..i + |needle|] == (read + chunk)[i..i + |needle|];
  }

  lemma InTheWindow(needle: string, read: string, chunk: string, base: nat, i: int)
    requires base <= |read| && base <= i
    ensures OccursAt(needle, read + chunk, i) <==> OccursAt(needle, read[base..] + chunk, i - base)
  {
    var text, window := read + chunk, read[base..] + chunk;
    assert text[base..] == window;
    if i + |needle| <= |text| {
      assert text[i..i + |needle|] == text[base..][i - base..i - base + |needle|];
    }
  }

  /** A marker in the window is one in the text; and as none was in what was read, none
      in the text begins before the window. */
  lemma WindowFinds(needles: seq<string>, read: string, carried: string, base: nat, chunk: string, hit: Option<nat>)
    requires forall k :: 0 <= k < |needles| ==> needles[k] != []
    requires IsCarried(carried, base, read, Overlap(needles))
    requires IsFirst(needles, read, None)
    requires IsFirst(needles, carried + chunk, hit)
    ensures IsFirst(needles, read + chunk, if hit.None? then None else Some(base + hit.value))
  {
    var text, window := read + chunk, carried + chunk;
    forall i | i < base ensures !SomeAt(needles, text, i) {
      assert !SomeAt(needles, read, i);
      forall k | 0 <= k < |needles| ensures !OccursAt(needles[k], text, i) {
        if OccursAt(needles[k], text, i) {
          BeforeTheWindow(needles[k], read, chunk, i);
        }
      }
    }
    forall i | i >= base ensures SomeAt(needles, text, i) <==> SomeAt(needles, window, i - base) {
      forall k | 0 <= k < |needles| ensures OccursAt(needles[k], text, i) <==> OccursAt(needles[k], window, i - base) {
        InTheWindow(needles[k], read, chunk, base, i);
      }
    }
    FirstInWindow(needles, text, window, base, hit);
  }

  lemma FirstInWindow(needles: seq<string>, text: string, window: string, base: nat, hit: Option<nat>)
    requires forall i :: i < base ==> !SomeAt(needles, text, i)
    requires forall i :: i >= base ==> (SomeAt(needles, text, i) <==> SomeAt(needles, window, i - base))
    requires IsFirst(needles, window, hit)
    ensures IsFirst(needles, text, if hit.None? then None else Some(base + hit.value))
  {
  }

  lemma CarryOn(read: string, carried: string, base: nat, chunk: string, overlap: nat, keep: nat)
    requires IsCarried(carried, base, read, overlap)
    requires keep == if overlap <= |carried + chunk| then overlap else |carried + chunk|
    ensures var window := carried + chunk;
            IsCarried(window[|window| - keep..], base + (|window| - keep), read + chunk, overlap)
  {
    var text, window := read + chunk, carried + chunk;
    assert text[base..] == window;
    assert text[|text| - keep..] == text[base..][|window| - keep..];
  }

  lemma {:induction false} ConcatPrefix(chunks: seq<string>, n: nat)
    requires n <= |chunks|
    ensures Concat(chunks[..n]) <= Concat(chunks)
    decreases |chunks| - n
  {
    if n == |chunks| {
      assert chunks[..n] == chunks;
    } else {
      assert chunks[..n + 1][..n] == chunks[..n];
      ConcatPrefix(chunks, n + 1);
    }
  }

  lemma PrefixHas(needles: seq<string>, chunks: seq<string>, n: nat, at: nat)
    requires n <= |chunks| && SomeAt(needles, Concat(chunks[..n]), at)
    ensures SomeAt(needles, Concat(chunks), at)
  {
    ConcatPrefix(chunks, n);
    StillAt(needles, Concat(chunks[..n]), Concat(chunks), at);
  }

  lemma StillAt(needles: seq<string>, part: string, text: string, at: nat)
    requires part <= text && SomeAt(needles, part, at)
    ensures SomeAt(needles, text, at)
  {
    var k :| 0 <= k < |needles| && OccursAt(needles[k], part, at);
    assert text[at..at + |needles[k]|] == part[at..at + |needles[k]|];
    assert OccursAt(needles[k], text, at);
  }

  // ---------------------------------------------------------------------
  // When the answer is the first offset of the whole file

  /** No marker ends inside another, past its start, unless one that begins with the
      other is complete by then. */
  ghost predicate Safe(needles: seq<string>) {
    forall l, s, d :: 0 <= l < |needles| && 0 <= s < |needles| && Inside(needles[s], needles[l], d) ==>
      CutShort(needles, needles[l], d + |needles[s]|)
  }

  ghost predicate Inside(inner: string, outer: string, d: int) {
    0 < d && d + |inner| < |outer| && OccursAt(inner, outer, d)
  }

  ghost predicate CutShort(needles: seq<string>, needle: string, end: int) {
    exists k :: 0 <= k < |needles| && |needles[k]| <= end && needles[k] <= needle
  }

  /** Markers none of which contains another are safe. */
  lemma ApartIsSafe(needles: seq<string>)
    requires forall l, s, d :: 0 <= l < |needles| && 0 <= s < |needles| && l != s ==>
        !OccursAt(needles[s], needles[l], d)
    ensures Safe(needles)
  {
  }

  /** The answer is the first offset in the whole file, however it is cut. */
  lemma SafeIsExact(needles: seq<string>, chunks: seq<string>, r: Option<nat>)
    requires Safe(needles) && IsChunkedFirst(needles, chunks, r)
    ensures IsFirst(needles, Concat(chunks), r)
  {
    if r.Some? {
      var n :| 0 < n <= |chunks| && IsFirst(needles, Concat(chunks[..n - 1]), None) &&
          IsFirst(needles, Concat(chunks[..n]), r);
      ConcatPrefix(chunks, n);
      var part, text := Concat(chunks[..n]), Concat(chunks);
      StillAt(needles, part, text, r.value);
      forall i | i < r.value ensures !SomeAt(needles, text, i) {
        if SomeAt(needles, text, i) {
          EarlierIsSeen(needles, part, text, r.value, i);
        }
      }
    }
  }

  lemma SliceOfSlice(text: string, q: nat, outer: string, d: nat, n: nat)
    requires OccursAt(outer, text, q) && d + n <= |outer|
    ensures outer[d..d + n] == text[q + d..q + d + n]
  {
    var a, b := outer[d..d + n], text[q + d..q + d + n];
    forall k | 0 <= k < n ensures a[k] == b[k] {
      assert text[q..q + |outer|][d + k] == text[q + d + k];
    }
  }

  /** Where a marker begins before one that is complete, a marker that is complete
      begins there too. */
  lemma EarlierIsSeen(needles: seq<string>, part: string, text: string, p: nat, q: int)
    requires Safe(needles) && part <= text
    requires SomeAt(needles, part, p) && SomeAt(needles, text, q) && q < p
    ensures SomeAt(needles, part, q)
  {
    var s :| 0 <= s < |needles| && OccursAt(needles[s], part, p);
    var l :| 0 <= l < |needles| && OccursAt(needles[l], text, q);
    var inner, outer, d := needles[s], needles[l], p - q;
    if q + |outer| <= |part| {
      assert part[q..q + |outer|] == text[q..q + |outer|];
      assert OccursAt(outer, part, q);
    } else {
      SliceOfSlice(text, q, outer, d, |inner|);
      assert text[p..p + |inner|] == part[p..p + |inner|];
      assert Inside(inner, outer, d);
      assert CutShort(needles, outer, d + |inner|);
      var k :| 0 <= k < |needles| && |needles[k]| <= d + |inner| && needles[k] <= outer;
      SliceOfSlice(text, q, outer, 0, |needles[k]|);
      assert part[q..q + |needles[k]|] == text[q..q + |needles[k]|];
      assert OccursAt(needles[k], part, q);
    }
  }

  /** The file that shows a set of markers is not safe: the outer marker alone, cut where
      the inner one ends. */
  ghost function Cut(outer: string, at: nat): (chunks: seq<string>)
    requires 0 < at < |outer|
    ensures |chunks| == 2 && chunks[0] != [] && chunks[1] != []
  {
    [outer[..at], outer[at..]]
  }

  lemma CutConcat(outer: string, at: nat)
    requires 0 < at < |outer|
    ensures Concat(Cut(outer, at)[..1]) == outer[..at]
    ensures Concat(Cut(outer, at)[..0]) == []
    ensures Concat(Cut(outer, at)) == outer
  {
    var c := Cut(outer, at);
    assert c[..1][..0] == [] && c[..0] == [];
    assert Concat(c[..1]) == [] + outer[..at];
    assert Concat(c) == Concat(c[..1]) + outer[at..];
  }

  /** On the cut file the search answers from the first piece. */
  lemma FirstPieceAnswers(needles: seq<string>, outer: string, at: nat, d: int, r: Option<nat>)
    requires 0 < at < |outer| && SomeAt(needles, outer[..at], d)
    requires IsChunkedFirst(needles, Cut(outer, at), r)
    ensures r.Some? && SomeAt(needles, outer[..at], r.value)
  {
    var chunks := Cut(outer, at);
    CutConcat(outer, at);
    StillAt(needles, outer[..at], outer, d);
    var n :| 0 < n <= |chunks| && IsFirst(needles, Concat(chunks[..n - 1]), None) &&
        IsFirst(needles, Concat(chunks[..n]), r);
  }

  lemma PieceHas(needles: seq<string>, outer: string, s: nat, d: nat)
    requires s < |needles| && OccursAt(needles[s], outer, d)
    ensures SomeAt(needles, outer[..d + |needles[s]|], d)
  {
    var at := d + |needles[s]|;
    assert outer[..at][d..at] == outer[d..at];
    assert OccursAt(needles[s], outer[..at], d);
  }

  lemma NoneAtTheStart(needles: seq<string>, outer: string, at: nat)
    requires at <= |outer| && !CutShort(needles, outer, at)
    ensures !SomeAt(needles, outer[..at], 0)
  {
    forall k | 0 <= k < |needles| && |needles[k]| <= at ensures outer[..at][0..|needles[k]|] != needles[k] {
      assert outer[..at][0..|needles[k]|] == outer[..|needles[k]|];
    }
  }

  lemma UnsafeIsWrong(needles: seq<string>, l: nat, s: nat, d: nat, r: Option<nat>)
    requires forall k :: 0 <= k < |needles| ==> needles[k] != []
    requires l < |needles| && s < |needles| && Inside(needles[s], needles[l], d)
    requires !CutShort(needles, needles[l], d + |needles[s]|)
    requires IsChunkedFirst(needles, Cut(needles[l], d + |needles[s]|), r)
    ensures !IsFirst(needles, needles[l], r)
  {
    var outer, at := needles[l], d + |needles[s]|;
    PieceHas(needles, outer, s, d);
    FirstPieceAnswers(needles, outer, at, d, r);
    NoneAtTheStart(needles, outer, at);
    assert SomeAt(needles, outer, 0) by {
      assert OccursAt(outer, outer, 0);
    }
  }

  /** The search is exact on every file in every cutting. */
  ghost predicate Exact(needles: seq<string>) {
    forall chunks, r :: Pieces(chunks) && IsChunkedFirst(needles, chunks, r) ==> IsFirst(needles, Concat(chunks), r)
  }

  lemma ExactOnlyIfSafe(needles: seq<string>, l: nat, s: nat, d: nat)
    requires forall k :: 0 <= k < |needles| ==> needles[k] != []
    requires l < |needles| && s < |needles| && Inside(needles[s], needles[l], d)
    requires !CutShort(needles, needles[l], d + |needles[s]|)
    ensures !Exact(needles)
  {
    var outer, at := needles[l], d + |needles[s]|;
    var r := FirstInPieces(needles, outer, at, d, s);
    CutConcat(outer, at);
    UnsafeIsWrong(needles, l, s, d, r);
    assert Pieces(Cut(outer, at));
  }

  /** It is so just when the markers are safe. */
  lemma ExactIffSafe(needles: seq<string>)
    requires forall k :: 0 <= k < |needles| ==> needles[k] != []
    ensures Safe(needles) <==> Exact(needles)
  {
    if Safe(needles) {
      forall chunks, r | Pieces(chunks) && IsChunkedFirst(needles, chunks, r)
          ensures IsFirst(needles, Concat(chunks), r) {
        SafeIsExact(needles, chunks, r);
      }
    } else {
      var l, s, d :| 0 <= l < |needles| && 0 <= s < |needles| && Inside(needles[s], needles[l], d)
        && !CutShort(needles, needles[l], d + |needles[s]|);
      ExactOnlyIfSafe(needles, l, s, d);
    }
  }

  ghost predicate Pieces(chunks: seq<string>) {
    forall k :: 0 <= k < |chunks| ==> chunks[k] != []
  }

  /** What the search answers on the cut file. */
  ghost function FirstInPieces(needles: seq<string>, outer: string, at: nat, d: nat, s: nat): (r: Option<nat>)
    requires forall k :: 0 <= k < |needles| ==> needles[k] != []
    requires s < |needles| && d + |needles[s]| == at < |outer| && OccursAt(needles[s], outer, d)
    ensures IsChunkedFirst(needles, Cut(outer, at), r)
  {
    CutConcat(outer, at);
    PieceHas(needles, outer, s, d);
    var p := Smallest(needles, outer[..at], d);
    assert IsFirst(needles, Concat(Cut(outer, at)[..1 - 1]), None);
    Some(p)
  }

  ghost function Smallest(needles: seq<string>, text: string, p: nat): (q: nat)
    requires SomeAt(needles, text, p)
    ensures IsFirst(needles, text, Some(q))
  {
    if exists i :: i < p && SomeAt(needles, text, i) then
      var i :| i < p && SomeAt(needles, text, i);
      Smallest(needles, text, i)
    else p
  }

  /** A marker in the middle of another answers in its stead when a chunk ends between
      their ends. */
  lemma MarkerInAMarker(r: Option<nat>)
    requires IsChunkedFirst(["abc!", "b"], ["ab", "c!"], r)
    ensures !IsFirst(["abc!", "b"], "abc!", r)
  {
    var needles := ["abc!", "b"];
    assert needles[0][..2] == "ab" && needles[0][2..] == "c!";
    assert Inside(needles[1], needles[0], 1);
    assert !CutShort(needles, needles[0], 2) by {
      assert needles[1][0] != needles[0][0];
    }
    UnsafeIsWrong(needles, 0, 1, 1, r);
  }

  // ---------------------------------------------------------------------
  // The markers in use

  const MARKERS: seq<string> := ["panic:", "fatal error:", "signal SIG", "runtime: out of memory"]

  lemma MarkersAreSafe()
    ensures Safe(MARKERS)
  {
    forall l, s, d | 0 <= l < |MARKERS| && 0 <= s < |MARKERS| && l != s ensures !OccursAt(MARKERS[s], MARKERS[l], d) {
      var inner, outer := MARKERS[s], MARKERS[l];
      if 0 <= d && d + |inner| <= |outer| {
        assert outer[d..d + |inner|][0] == outer[d];
        assert outer[d..d + |inner|][1] == outer[d + 1];
      }
    }
    ApartIsSafe(MARKERS);
  }

  /** Where a crash begins in the log of the run that ended, however the log is read. */
  method CrashOffset(chunks: seq<string>) returns (r: Option<nat>)
    requires forall k :: 0 <= k < |chunks| ==> chunks[k] != []
    ensures IsFirst(["panic:", "fatal error:", "signal SIG", "runtime: out of memory"], Concat(chunks), r)
  {
    r := FirstOffset(MARKERS, chunks);
    MarkersAreSafe();
    SafeIsExact(MARKERS, chunks, r);
  }
}
