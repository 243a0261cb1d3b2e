/** Packing spans into lanes: the sorted container, its two-neighbour overlap test, and the sticky first-fit
    allocator. */
module SpanLayout {

  datatype Interval = Interval(start: int, end: int)

  predicate Less(a: Interval, b: Interval) {
    a.start < b.start || (a.start == b.start && a.end < b.end)
  }

  ghost predicate Sorted(iv: seq<Interval>) {
    forall i, j :: 0 <= i < j < |iv| ==> !Less(iv[j], iv[i])
  }

  /** Each stored interval ends no later than the next begins. */
  ghost predicate Chain(iv: seq<Interval>) {
    forall i, j :: 0 <= i < j < |iv| ==> iv[i].end <= iv[j].start
  }

  /** The insertion point for a start time: before every interval that starts there or later. */
  function BisectStart(iv: seq<Interval>, start: int): (k: nat)
    requires Sorted(iv)
    ensures k <= |iv|
    ensures forall i :: 0 <= i < k ==> iv[i].start < start
    ensures forall i :: k <= i < |iv| ==> iv[i].start >= start
  {
    if iv == [] || iv[|iv| - 1].start < start then |iv| else BisectStart(iv[..|iv| - 1], start)
  }

  /** The leftmost insertion point for an interval in lexicographic order. */
  function BisectLeft(iv: seq<Interval>, x: Interval): (k: nat)
    requires Sorted(iv)
    ensures k <= |iv|
    ensures forall i :: 0 <= i < k ==> Less(iv[i], x)
    ensures forall i :: k <= i < |iv| ==> !Less(iv[i], x)
  {
    if iv == [] || Less(iv[|iv| - 1], x) then |iv| else BisectLeft(iv[..|iv| - 1], x)
  }

  /** The overlap test: it looks at the two neighbours of the insertion point only. */
  predicate CheckOverlap(iv: seq<Interval>, start: int, end: int)
    requires Sorted(iv)
  {
    var k := BisectStart(iv, start);
    (k > 0 && iv[k - 1].end > start) || (k < |iv| && iv[k].start < end)
  }

  /** Put where everything before is smaller and nothing behind, an interval keeps the order. */
  lemma InsertAt(iv: seq<Interval>, x: Interval, k: nat)
    requires Sorted(iv) && k <= |iv|
    requires forall i :: 0 <= i < k ==> Less(iv[i], x)
    requires forall i :: k <= i < |iv| ==> !Less(iv[i], x)
    ensures var r := iv[..k] + [x] + iv[k..];
      Sorted(r) && multiset(r) == multiset(iv) + multiset{x} && forall y :: y in r <==> y == x || y in iv
  {
    var r := iv[..k] + [x] + iv[k..];
    assert iv == iv[..k] + iv[k..];
    forall i, j | 0 <= i < j < |r| ensures !Less(r[j], r[i]) {
      if i < k && j > k { assert !Less(iv[j - 1], iv[i]); }
    }
  }

  function Insort(iv: seq<Interval>, x: Interval): (r: seq<Interval>)
    requires Sorted(iv)
    ensures Sorted(r) && multiset(r) == multiset(iv) + multiset{x}
    ensures forall y :: y in r <==> y == x || y in iv
  {
    var k := BisectLeft(iv, x);
    InsertAt(iv, x, k);
    iv[..k] + [x] + iv[k..]
  }

  /** Half-open overlap. */
  predicate Overlaps(a: Interval, b: Interval) {
    a.start < b.end && b.start < a.end
  }

  predicate Positive(x: Interval) { x.start < x.end }

  /** What one stored interval contributes to the test. */
  predicate Conflicts(x: Interval, start: int, end: int) {
    if x.start < start then x.end > start else x.start < end
  }

  lemma ConflictIsOverlap(x: Interval, start: int, end: int)
    requires Positive(x) && start < end
    ensures Conflicts(x, start, end) <==> Overlaps(x, Interval(start, end))
  {}

  /** On a chain the two neighbours decide for all stored intervals. */
  lemma NeighboursDecide(iv: seq<Interval>, start: int, end: int)
    requires Sorted(iv) && Chain(iv)
    ensures CheckOverlap(iv, start, end) <==> exists i :: 0 <= i < |iv| && Conflicts(iv[i], start, end)
  {
    var k := BisectStart(iv, start);
    if i :| 0 <= i < |iv| && Conflicts(iv[i], start, end) {
      if i >= k {
        assert iv[k].start <= iv[i].start;
      }
    }
    if CheckOverlap(iv, start, end) {
      if k > 0 && iv[k - 1].end > start {
        assert Conflicts(iv[k - 1], start, end);
      } else {
        assert Conflicts(iv[k], start, end);
      }
    }
  }

  /** The fast test agrees with a scan of everything stored, for positive-length spans. */
  lemma CheckRefinesScan(iv: seq<Interval>, start: int, end: int)
    requires Sorted(iv) && Chain(iv) && start < end && forall x :: x in iv ==> Positive(x)
    ensures CheckOverlap(iv, start, end) <==> exists x :: x in iv && Overlaps(x, Interval(start, end))
  {
    NeighboursDecide(iv, start, end);
    if i :| 0 <= i < |iv| && Conflicts(iv[i], start, end) {
      ConflictIsOverlap(iv[i], start, end);
      assert iv[i] in iv;
    }
    if x :| x in iv && Overlaps(x, Interval(start, end)) {
      var i :| 0 <= i < |iv| && iv[i] == x;
      ConflictIsOverlap(iv[i], start, end);
    }
  }

  /** A span the test lets in keeps the chain, whatever its length and whatever is stored. */
  lemma ClearInsertKeepsChain(iv: seq<Interval>, x: Interval)
    requires Sorted(iv) && Chain(iv) && !CheckOverlap(iv, x.start, x.end)
    ensures Chain(Insort(iv, x))
  {
    NeighboursDecide(iv, x.start, x.end);
    var p := BisectLeft(iv, x);
    var r := Insort(iv, x);
    forall i, j | 0 <= i < j < |r| ensures r[i].end <= r[j].start {
      if i < p { assert !Conflicts(iv[i], x.start, x.end); }
      if j > p { assert !Conflicts(iv[j - 1], x.start, x.end); }
    }
  }

  /** A zero-length span inserted without the test keeps the chain exactly when it falls
      strictly inside nothing stored. */
  lemma UntestedInsertKeepsChainIff(iv: seq<Interval>, t: int)
    requires Sorted(iv) && Chain(iv)
    ensures Chain(Insort(iv, Interval(t, t))) <==> !exists i :: 0 <= i < |iv| && iv[i].start < t < iv[i].end
  {
    var x := Interval(t, t);
    NeighboursDecide(iv, t, t);
    if i :| 0 <= i < |iv| && iv[i].start < t < iv[i].end {
      var p := BisectLeft(iv, x);
      var r := Insort(iv, x);
      assert i < p && r[i] == iv[i] && r[p] == x;
    } else {
      ClearInsertKeepsChain(iv, x);
    }
  }
}
