/** The recursive passes over the span forest: the end-time adjustment, the lane number, and the emission. */
module SpanConversion {
  import opened SpanForest

  const ADJUSTMENT := 1000

  /** Shortens the end time of each visited span, once per visit. */
  function Adjust(ends: seq<int>, visits: seq<nat>): (r: seq<int>)
    requires forall i :: 0 <= i < |visits| ==> visits[i] < |ends|
    ensures |r| == |ends|
  {
    if visits == [] then ends else
    var before := Adjust(ends, visits[..|visits| - 1]);
    var v := visits[|visits| - 1];
    before[v := before[v] - ADJUSTMENT]
  }

  lemma {:induction false} AdjustConcat(ends: seq<int>, a: seq<nat>, b: seq<nat>)
    requires forall i :: 0 <= i < |a| ==> a[i] < |ends|
    requires forall i :: 0 <= i < |b| ==> b[i] < |ends|
    ensures Adjust(ends, a + b) == Adjust(Adjust(ends, a), b)
  {
    if b == [] {
      assert a + b == a;
    } else {
      assert (a + b)[..|a + b| - 1] == a + b[..|b| - 1];
      AdjustConcat(ends, a, b[..|b| - 1]);
    }
  }

  /** The adjustment is not idempotent: each visit takes another microsecond off. */
  lemma {:induction false} AdjustCounts(ends: seq<int>, visits: seq<nat>, u: nat)
    requires u < |ends| && forall i :: 0 <= i < |visits| ==> visits[i] < |ends|
    ensures Adjust(ends, visits)[u] == ends[u] - ADJUSTMENT * multiset(visits)[u]
  {
    if visits != [] {
      var n := |visits| - 1;
      AdjustCounts(ends, visits[..n], u);
      assert visits == visits[..n] + [visits[n]];
    }
  }

  /** Gives every visited span the lane number `line`. */
  function Paint(tids: seq<nat>, visits: seq<nat>, line: nat): (r: seq<nat>)
    ensures |r| == |tids|
    ensures forall u :: 0 <= u < |tids| ==> r[u] == if u in visits then line else tids[u]
  {
    seq(|tids|, u requires 0 <= u < |tids| => if u in visits then line else tids[u])
  }

  lemma PaintTwice(tids: seq<nat>, a: seq<nat>, b: seq<nat>, line: nat)
    ensures Paint(Paint(tids, a, line), b, line) == Paint(tids, a + b, line)
  {}

  lemma PaintOne(tids: seq<nat>, v: nat, line: nat)
    requires v < |tids|
    ensures tids[v := line] == Paint(tids, [v], line)
  {}

  /** Every span under one of the first `i` tops has that top's lane. */
  ghost predicate Painted(spans: seq<RawSpan>, order: seq<nat>, lines: seq<nat>, i: nat, tids: seq<nat>)
    requires i <= |order| == |lines|
  {
    forall u, j :: 0 <= j < i && 0 <= u < |tids| && UnderTop(spans, order[j], u) ==> tids[u] == lines[j]
  }

  ghost predicate Fits(spans: seq<RawSpan>, child: seq<seq<nat>>) {
    |child| == |spans| && forall v :: 0 <= v < |spans| ==> child[v] == Kids(spans, v)
  }

  lemma {:induction false} PreorderWithin(spans: seq<RawSpan>, path: seq<nat>)
    requires Anchored(spans, path)
    ensures Within(spans, Preorder(spans, path))
    decreases |spans| - |path|, 1, 0
  {
    PathsAreShort(spans, path);
    PreorderAllWithin(spans, path, Kids(spans, path[|path| - 1]));
  }

  lemma {:induction false} PreorderAllWithin(spans: seq<RawSpan>, path: seq<nat>, kids: seq<nat>)
    requires KidsOf(spans, path, kids)
    ensures Within(spans, PreorderAll(spans, path, kids))
    decreases |spans| - |path|, 0, |kids|
  {
    if kids != [] {
      var k := kids[|kids| - 1];
      assert k in kids;
      ChildPath(spans, path, k);
      PreorderAllWithin(spans, path, kids[..|kids| - 1]);
      PreorderWithin(spans, path + [k]);
    }
  }

  lemma KidsPrefix(spans: seq<RawSpan>, path: seq<nat>, i: nat)
    requires Anchored(spans, path) && i <= |Kids(spans, path[|path| - 1])|
    ensures KidsOf(spans, path, Kids(spans, path[|path| - 1])[..i])
    ensures i > 0 ==> Kids(spans, path[|path| - 1])[i - 1] in Kids(spans, path[|path| - 1])
  {
    var kids := Kids(spans, path[|path| - 1]);
    forall k | k in kids[..i] ensures k < |spans| && Parent(spans, k) == path[|path| - 1] {
      assert k in kids;
    }
  }

  lemma PreorderAllStep(spans: seq<RawSpan>, path: seq<nat>, kids: seq<nat>, i: nat)
    requires i < |kids| && KidsOf(spans, path, kids[..i]) && KidsOf(spans, path, kids[..i + 1])
    requires Anchored(spans, path + [kids[i]])
    ensures PreorderAll(spans, path, kids[..i + 1])
         == PreorderAll(spans, path, kids[..i]) + Preorder(spans, path + [kids[i]])
  {
    assert kids[..i + 1][..i] == kids[..i];
  }

  lemma PreorderOfNone(spans: seq<RawSpan>, path: seq<nat>)
    requires KidsOf(spans, path, [])
    ensures PreorderAll(spans, path, []) == []
  {}

  lemma WalkSnoc(spans: seq<RawSpan>, order: seq<nat>, k: nat)
    requires AllTops(spans, order) && IsTop(spans, k)
    ensures AllTops(spans, order + [k])
    ensures Walk(spans, order + [k]) == Walk(spans, order) + Preorder(spans, TopPath(spans, k))
  {
    assert (order + [k])[..|order|] == order;
  }

  lemma {:induction false} WalkConcat(spans: seq<RawSpan>, a: seq<nat>, b: seq<nat>)
    requires AllTops(spans, a) && AllTops(spans, b)
    ensures AllTops(spans, a + b)
    ensures Walk(spans, a + b) == Walk(spans, a) + Walk(spans, b)
  {
    hide Preorder, Walk, IsTop, TopPath;
    if b == [] {
      assert a + b == a;
      NoVisits(spans, []);
    } else {
      var n := |b| - 1;
      assert b == b[..n] + [b[n]] && a + b == (a + b[..n]) + [b[n]];
      WalkConcat(spans, a, b[..n]);
      WalkSnoc(spans, b[..n], b[n]);
      WalkSnoc(spans, a + b[..n], b[n]);
    }
  }

  lemma {:induction false} WalkWithin(spans: seq<RawSpan>, order: seq<nat>)
    requires AllTops(spans, order)
    ensures Within(spans, Walk(spans, order))
  {
    if order != [] {
      WalkWithin(spans, order[..|order| - 1]);
      PreorderWithin(spans, TopPath(spans, order[|order| - 1]));
    }
  }

  lemma KidsHaveParent(spans: seq<RawSpan>, v: nat)
    ensures forall i :: 0 <= i < |Kids(spans, v)| ==>
      Kids(spans, v)[i] < |spans| && Parent(spans, Kids(spans, v)[i]) == v
  {
    var kids := Kids(spans, v);
    assert forall i :: 0 <= i < |kids| ==> kids[i] in kids;
  }

  class Spans {
    const child: seq<seq<nat>>
    var ends: array<int>
    var tids: array<nat>
    ghost const spans: seq<RawSpan>

    ghost predicate Valid()
      reads this
    {
      Fits(spans, child) && ends.Length == |spans| && tids.Length == |spans| && (ends as object) != (tids as object)
    }

    constructor (ghost spans: seq<RawSpan>, child: seq<seq<nat>>, endTimes: seq<int>)
      requires Fits(spans, child) && |endTimes| == |spans|
      ensures Valid() && this.spans == spans && fresh(ends) && fresh(tids)
      ensures ends[..] == endTimes
    {
      this.child, this.spans := child, spans;
      ends := new int[|endTimes|](i requires 0 <= i < |endTimes| => endTimes[i]);
      tids := new nat[|endTimes|](_ => 0);
      new;
      assert ends[..] == endTimes;
    }

    /** Converts a span and, after it, each of its children in turn. */
    method Convert(span: nat, ghost path: seq<nat>)
      requires Valid() && Anchored(spans, path) && span == path[|path| - 1]
      modifies ends
      ensures Within(spans, Preorder(spans, path)) && ends[..] == Adjust(old(ends[..]), Preorder(spans, path))
      decreases |spans| - |path|
    {
      PreorderWithin(spans, path);
      ghost var before := ends[..];
      ends[span] := ends[span] - ADJUSTMENT;
      assert ends[..] == Adjust(before, [span]) by { assert [span][..0] == []; }
      ghost var kids := Kids(spans, span);
      ghost var start := ends[..];
      KidsPrefix(spans, path, 0);
      for i := 0 to |child[span]|
        invariant KidsOf(spans, path, kids[..i]) && Within(spans, PreorderAll(spans, path, kids[..i]))
        invariant ends[..] == Adjust(start, PreorderAll(spans, path, kids[..i]))
      {
        KidsPrefix(spans, path, i + 1);
        PreorderAllWithin(spans, path, kids[..i + 1]);
        ChildPath(spans, path, kids[i]);
        PreorderWithin(spans, path + [kids[i]]);
        assert kids[..i + 1][..i] == kids[..i];
        Convert(child[span][i], path + [kids[i]]);
        AdjustConcat(start, PreorderAll(spans, path, kids[..i]), Preorder(spans, path + [kids[i]]));
      }
      assert kids[..|kids|] == kids;
      AdjustConcat(before, [span], PreorderAll(spans, path, kids));
    }

    /** Gives a span and everything under it the span's lane. */
    method SetTid(span: nat, line: nat, ghost path: seq<nat>)
      requires Valid() && Anchored(spans, path) && span == path[|path| - 1]
      modifies tids
      ensures tids[..] == Paint(old(tids[..]), Preorder(spans, path), line)
      decreases |spans| - |path|
    {
      hide PreorderAll, Paint;
      PathsAreShort(spans, path);
      PreorderOfNone(spans, path);
      ghost var before := tids[..];
      tids[span] := line;
      PaintOne(before, span, line);
      ghost var kids := Kids(spans, span);
      KidsPrefix(spans, path, 0);
      assert kids[..0] == [] && [span] + [] == [span];
      for i := 0 to |child[span]|
        invariant KidsOf(spans, path, kids[..i])
        invariant tids[..] == Paint(before, [span] + PreorderAll(spans, path, kids[..i]), line)
      {
        KidsPrefix(spans, path, i + 1);
        ChildPath(spans, path, kids[i]);
        PreorderAllStep(spans, path, kids, i);
        ghost var sofar, more := [span] + PreorderAll(spans, path, kids[..i]), Preorder(spans, path + [kids[i]]);
        SetTid(child[span][i], line, path + [kids[i]]);
        PaintTwice(before, sofar, more, line);
        assert sofar + more == [span] + PreorderAll(spans, path, kids[..i + 1]);
      }
      assert kids[..|kids|] == kids;
    }

    /** The conversion of one top span. */
    method ConvertTop(span: nat)
      requires Valid() && IsTop(spans, span)
      modifies ends
      ensures AllTops(spans, [span]) && Within(spans, Walk(spans, [span]))
      ensures ends[..] == Adjust(old(ends[..]), Walk(spans, [span]))
    {
      hide Walk, Preorder, Adjust, TopPath;
      Convert(span, TopPath(spans, span));
      NoVisits(spans, []);
      WalkSnoc(spans, [], span);
      ghost var visits := Preorder(spans, TopPath(spans, span));
      assert [] + [span] == [span] && [] + visits == visits;
      WalkWithin(spans, [span]);
    }

    /** The two inner loops: the threads of a root and the spans of each thread. Returns the root's span list. */
    method ConvertRoot(r: nat) returns (tops: seq<nat>)
      requires Valid() && r < |spans| && spans[r].IsRoot()
      modifies ends
      ensures tops == KidsOfAll(spans, Kids(spans, r)) && AllTops(spans, tops)
      ensures Within(spans, Walk(spans, tops)) && ends[..] == Adjust(old(ends[..]), Walk(spans, tops))
    {
      hide Walk, Adjust;
      ghost var threads := Kids(spans, r);
      tops := [];
      NoVisits(spans, ends[..]);
      KidsHaveParent(spans, r);
      for i := 0 to |child[r]|
        invariant tops == KidsOfAll(spans, threads[..i]) && AllTops(spans, tops)
        invariant Within(spans, Walk(spans, tops)) && ends[..] == Adjust(old(ends[..]), Walk(spans, tops))
      {
        assert threads[..i + 1][..i] == threads[..i];
        ghost var before := ends[..];
        KidsHaveParent(spans, threads[i]);
        var more := ConvertThread(r, child[r][i]);
        AdjustWalks(spans, old(ends[..]), tops, more);
        tops := tops + more;
      }
      assert threads[..|threads|] == threads;
    }

    method ConvertThread(r: nat, thread: nat) returns (tops: seq<nat>)
      requires Valid() && r < |spans| && spans[r].IsRoot() && thread < |spans| && Parent(spans, thread) == r
      modifies ends
      ensures tops == Kids(spans, thread) && AllTops(spans, tops)
      ensures Within(spans, Walk(spans, tops)) && ends[..] == Adjust(old(ends[..]), Walk(spans, tops))
    {
      hide Walk, Adjust;
      ghost var kids := Kids(spans, thread);
      tops := [];
      NoVisits(spans, ends[..]);
      KidsHaveParent(spans, thread);
      for i := 0 to |child[thread]|
        invariant tops == kids[..i] && AllTops(spans, tops)
        invariant Within(spans, Walk(spans, tops)) && ends[..] == Adjust(old(ends[..]), Walk(spans, tops))
      {
        ConvertTop(child[thread][i]);
        AdjustWalks(spans, old(ends[..]), tops, [child[thread][i]]);
        tops := tops + [child[thread][i]];
      }
    }

    /** The outer loop, over the roots: the end times after it are those of the walk from every top. */
    method ConvertRoots(roots: seq<nat>) returns (tops: seq<nat>)
      requires Valid() && roots == Roots(spans, |spans|)
      modifies ends
      ensures tops == Tops(spans) && AllTops(spans, tops)
      ensures Within(spans, Walk(spans, tops)) && ends[..] == Adjust(old(ends[..]), Walk(spans, tops))
    {
      hide Walk, Adjust, AllTops, KidsOfAll, Kids;
      tops := [];
      NoVisits(spans, ends[..]);
      assert roots[..0] == [];
      ghost var threads: seq<nat> := [];
      for i := 0 to |roots|
        invariant threads == KidsOfAll(spans, roots[..i])
        invariant tops == KidsOfAll(spans, threads) && AllTops(spans, tops)
        invariant Within(spans, Walk(spans, tops)) && ends[..] == Adjust(old(ends[..]), Walk(spans, tops))
      {
        assert roots[..i + 1] == roots[..i] + [roots[i]] && roots[i] in roots;
        var more := ConvertRoot(roots[i]);
        KidsOfSnoc(spans, roots[..i], roots[i]);
        AdjustWalks(spans, old(ends[..]), tops, more);
        KidsOfConcat(spans, threads, Kids(spans, roots[i]));
        threads := threads + Kids(spans, roots[i]);
        tops := tops + more;
      }
      assert roots[..|roots|] == roots;
    }

    /** The whole conversion: every span two or more levels below a root loses a microsecond, exactly once, and no other
        span changes. */
    method ConvertAll(roots: seq<nat>) returns (tops: seq<nat>)
      requires Valid() && roots == Roots(spans, |spans|)
      modifies ends
      ensures tops == Tops(spans)
      ensures forall u :: 0 <= u < |spans| ==> ends[u] == old(ends[u]) - ADJUSTMENT * Once(Deep(spans, u))
    {
      hide Walk, Adjust, Deep, Once, Tops, IsTop;
      tops := ConvertRoots(roots);
      forall u | 0 <= u < |spans| ensures ends[u] == old(ends[u]) - ADJUSTMENT * Once(Deep(spans, u)) {
        ConvertedOnce(spans, old(ends[..]), u);
        assert ends[u] == ends[..][u];
      }
    }

    /** Each top's lane goes to everything under it; `order` is the order of the layout. */
    method SetTids(order: seq<nat>, lines: seq<nat>)
      requires Valid() && |order| == |lines| && multiset(order) == multiset(Tops(spans))
      modifies tids
      ensures Painted(spans, order, lines, |order|, tids[..])
    {
      OrdersAreTops(spans, order);
      OrderHasNoRepeat(spans, order);
      hide Painted, Preorder, TopPath, UnderTop, Paint, Tops;
      NothingPainted(spans, order, lines, tids[..]);
      for i := 0 to |order|
        invariant Painted(spans, order, lines, i, tids[..])
      {
        PaintedStep(spans, order, lines, i, tids[..]);
        SetTid(order[i], lines[i], TopPath(spans, order[i]));
      }
    }
  }

  lemma TopPathEnds(spans: seq<RawSpan>, k: nat)
    requires IsTop(spans, k)
    ensures TopPath(spans, k)[|TopPath(spans, k)| - 1] == k
  {}

  lemma NoVisits(spans: seq<RawSpan>, ends: seq<int>)
    ensures AllTops(spans, []) && Walk(spans, []) == []
    ensures Adjust(ends, []) == ends
    ensures KidsOfAll(spans, []) == []
  {}

  lemma AdjustWalks(spans: seq<RawSpan>, ends: seq<int>, a: seq<nat>, b: seq<nat>)
    requires |ends| == |spans| && AllTops(spans, a) && AllTops(spans, b)
    requires Within(spans, Walk(spans, a)) && Within(spans, Walk(spans, b))
    ensures AllTops(spans, a + b) && Within(spans, Walk(spans, a + b))
    ensures Adjust(ends, Walk(spans, a + b)) == Adjust(Adjust(ends, Walk(spans, a)), Walk(spans, b))
  {
    WalkConcat(spans, a, b);
    WalkWithin(spans, a + b);
    AdjustConcat(ends, Walk(spans, a), Walk(spans, b));
  }

  lemma {:induction false} KidsOfConcat(spans: seq<RawSpan>, a: seq<nat>, b: seq<nat>)
    ensures KidsOfAll(spans, a + b) == KidsOfAll(spans, a) + KidsOfAll(spans, b)
  {
    if b == [] {
      assert a + b == a;
    } else {
      hide KidsOfAll, Kids;
      var n := |b| - 1;
      assert b == b[..n] + [b[n]] && a + b == (a + b[..n]) + [b[n]];
      KidsOfConcat(spans, a, b[..n]);
      KidsOfSnoc(spans, b[..n], b[n]);
      KidsOfSnoc(spans, a + b[..n], b[n]);
    }
  }

  lemma CountTwice(xs: seq<nat>, i: nat, j: nat)
    requires i < j < |xs| && xs[i] == xs[j]
    ensures multiset(xs)[xs[i]] >= 2
  {
    assert xs == xs[..j] + xs[j..];
    assert xs[..j][i] in multiset(xs[..j]) && xs[j..][0] in multiset(xs[j..]);
  }

  lemma OrderHasNoRepeat(spans: seq<RawSpan>, order: seq<nat>)
    requires multiset(order) == multiset(Tops(spans))
    ensures forall i, j :: 0 <= i < j < |order| ==> order[i] != order[j]
  {
    hide Tops;
    OrdersAreTops(spans, order);
    forall i, j | 0 <= i < j < |order| ensures order[i] != order[j] {
      TopsCount(spans, order[i]);
      if order[i] == order[j] { CountTwice(order, i, j); }
    }
  }

  /** After the conversion the end time of `u` is its old one less one adjustment, or unchanged. */
  lemma ConvertedOnce(spans: seq<RawSpan>, ends: seq<int>, u: nat)
    requires |ends| == |spans| && u < |spans| && AllTops(spans, Tops(spans)) && Within(spans, Walk(spans, Tops(spans)))
    ensures Adjust(ends, Walk(spans, Tops(spans)))[u] == ends[u] - ADJUSTMENT * Once(Deep(spans, u))
  {
    hide Tops, Walk, Adjust, Deep;
    AdjustCounts(ends, Walk(spans, Tops(spans)), u);
    ExactlyOnce(spans, Tops(spans), u);
  }

  /** Painting one subtree leaves the others alone. */
  lemma PaintIsLocal(spans: seq<RawSpan>, k: nat, top: nat, u: nat, before: seq<nat>, line: nat)
    requires u < |before| && UnderTop(spans, k, u) && IsTop(spans, top)
    ensures Paint(before, Preorder(spans, TopPath(spans, top)), line)[u] == if k == top then line else before[u]
  {
    hide Preorder, TopPath;
    OneWalk(spans, top, k, u);
    assert u in Preorder(spans, TopPath(spans, top)) <==> multiset(Preorder(spans, TopPath(spans, top)))[u] > 0;
  }

  lemma NothingPainted(spans: seq<RawSpan>, order: seq<nat>, lines: seq<nat>, tids: seq<nat>)
    requires |order| == |lines|
    ensures Painted(spans, order, lines, 0, tids)
  {}

  lemma PaintedStep(spans: seq<RawSpan>, order: seq<nat>, lines: seq<nat>, i: nat, before: seq<nat>)
    requires i < |order| == |lines| && AllTops(spans, order) && Painted(spans, order, lines, i, before)
    requires forall a, b :: 0 <= a < b < |order| ==> order[a] != order[b]
    ensures Painted(spans, order, lines, i + 1, Paint(before, Preorder(spans, TopPath(spans, order[i])), lines[i]))
  {
    hide Preorder, TopPath, UnderTop, IsTop;
    var after := Paint(before, Preorder(spans, TopPath(spans, order[i])), lines[i]);
    forall u, j | 0 <= j < i + 1 && 0 <= u < |after| && UnderTop(spans, order[j], u) ensures after[u] == lines[j] {
      PaintIsLocal(spans, order[j], order[i], u, before, lines[i]);
    }
  }
}
