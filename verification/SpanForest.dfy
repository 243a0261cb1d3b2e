/** Parent ids to a forest: building the child lists, and walking them from the roots. */
module SpanForest {

  const REQUEST_MODULE := "sglang::request"
  const TRANSFER_MODULE := "sglang::mooncake"

  /** A span as read from the trace: its id, its parent's id (empty if it names none), and its module. */
  datatype RawSpan = RawSpan(id: string, parentId: string, moduleName: string) {
    /** Requests and transfers are roots whatever their parent id. */
    predicate IsRoot() { moduleName == REQUEST_MODULE || moduleName == TRANSFER_MODULE }
  }

  /** The span found under an id: the last one listed with it. */
  function Lookup(spans: seq<RawSpan>, id: string): (k: int)
    ensures -1 <= k < |spans|
    ensures k >= 0 ==> spans[k].id == id
    ensures forall i :: k < i < |spans| ==> spans[i].id != id
  {
    if spans == [] then -1
    else if spans[|spans| - 1].id == id then |spans| - 1
    else Lookup(spans[..|spans| - 1], id)
  }

  /** The parent a span hangs under; roots and spans with a dangling parent id have none (-1). */
  function Parent(spans: seq<RawSpan>, i: nat): (p: int)
    requires i < |spans|
    ensures -1 <= p < |spans|
  {
    if spans[i].IsRoot() then -1 else Lookup(spans, spans[i].parentId)
  }

  /** The children of `v` among the first `m` spans, in order. */
  function Children(spans: seq<RawSpan>, v: nat, m: nat): (kids: seq<nat>)
    requires m <= |spans|
    ensures forall k: nat :: k in kids <==> k < m && Parent(spans, k) == v
    ensures forall i, j :: 0 <= i < j < |kids| ==> kids[i] < kids[j]
  {
    if m == 0 then [] else
    var before := Children(spans, v, m - 1);
    assert forall i :: 0 <= i < |before| ==> before[i] in before;
    before + if Parent(spans, m - 1) == v then [m - 1] else []
  }

  function Roots(spans: seq<RawSpan>, m: nat): (roots: seq<nat>)
    requires m <= |spans|
    ensures forall r: nat :: r in roots <==> r < m && spans[r].IsRoot()
    ensures forall i, j :: 0 <= i < j < |roots| ==> roots[i] < roots[j]
  {
    if m == 0 then [] else
    var before := Roots(spans, m - 1);
    assert forall i :: 0 <= i < |before| ==> before[i] in before;
    before + if spans[m - 1].IsRoot() then [m - 1] else []
  }

  /** The dictionary from ids to spans; a repeated id keeps the last span. */
  method BuildIdMap(spans: seq<RawSpan>) returns (idMap: map<string, nat>)
    ensures forall id :: id in idMap <==> Lookup(spans, id) >= 0
    ensures forall id :: id in idMap ==> idMap[id] == Lookup(spans, id)
  {
    idMap := map[];
    for i := 0 to |spans|
      invariant forall id :: id in idMap <==> Lookup(spans[..i], id) >= 0
      invariant forall id :: id in idMap ==> idMap[id] == Lookup(spans[..i], id)
    {
      assert spans[..i + 1][..i] == spans[..i];
      idMap := idMap[spans[i].id := i];
    }
    assert spans[..|spans|] == spans;
  }

  /** The child lists and the roots as the first `m` spans make them. */
  ghost predicate FiledUpTo(spans: seq<RawSpan>, m: nat, roots: seq<nat>, child: seq<seq<nat>>)
    requires m <= |spans|
  {
    && |child| == |spans| && roots == Roots(spans, m)
    && forall v :: 0 <= v < |spans| ==> child[v] == Children(spans, v, m)
  }

  lemma NothingFiled(spans: seq<RawSpan>)
    ensures FiledUpTo(spans, 0, [], seq(|spans|, _ => []))
  {}

  lemma OneMoreChild(spans: seq<RawSpan>, i: nat, v: nat)
    requires i < |spans|
    ensures Children(spans, v, i + 1)
         == if Parent(spans, i) == v then Children(spans, v, i) + [i] else Children(spans, v, i)
  {
    assert Children(spans, v, i) + [] == Children(spans, v, i);
  }

  lemma OneMoreRoot(spans: seq<RawSpan>, i: nat)
    requires i < |spans|
    ensures Roots(spans, i + 1) == if spans[i].IsRoot() then Roots(spans, i) + [i] else Roots(spans, i)
  {
    assert Roots(spans, i) + [] == Roots(spans, i);
  }

  /** Filing one more span under its parent, or among the roots, or nowhere. */
  lemma FileOneMore(spans: seq<RawSpan>, i: nat, roots: seq<nat>, child: seq<seq<nat>>)
    requires i < |spans| && FiledUpTo(spans, i, roots, child)
    ensures var p := Parent(spans, i);
      FiledUpTo(spans, i + 1, if spans[i].IsRoot() then roots + [i] else roots,
                if p >= 0 then child[p := child[p] + [i]] else child)
  {
    hide Children, Roots, Parent, RawSpan.IsRoot;
    OneMoreRoot(spans, i);
    var p := Parent(spans, i);
    var child' := if p >= 0 then child[p := child[p] + [i]] else child;
    forall v | 0 <= v < |spans| ensures child'[v] == Children(spans, v, i + 1) { OneMoreChild(spans, i, v); }
  }

  /** The two modules whose spans start a tree. */
  ghost predicate TopLevel(moduleName: string) { moduleName in {"sglang::request", "sglang::mooncake"} }

  /** `v` is the last span listed with that id. */
  ghost predicate LastNamed(spans: seq<RawSpan>, id: string, v: nat) {
    v < |spans| && spans[v].id == id && forall w :: v < w < |spans| ==> spans[w].id != id
  }

  ghost predicate Increasing(xs: seq<nat>) { forall i, j :: 0 <= i < j < |xs| ==> xs[i] < xs[j] }

  lemma ParentMeans(spans: seq<RawSpan>, k: nat, v: nat)
    requires k < |spans|
    ensures Parent(spans, k) == v <==> !TopLevel(spans[k].moduleName) && LastNamed(spans, spans[k].parentId, v)
  {}

  /** What the roots and the child lists are, in terms of the modules and the ids. */
  lemma FiledMeans(spans: seq<RawSpan>)
    ensures forall r: nat :: r in Roots(spans, |spans|) <==> r < |spans| && TopLevel(spans[r].moduleName)
    ensures forall v: nat, k: nat :: v < |spans| ==>
      (k in Children(spans, v, |spans|) <==>
        k < |spans| && !TopLevel(spans[k].moduleName) && LastNamed(spans, spans[k].parentId, v))
    ensures Increasing(Roots(spans, |spans|))
    ensures forall v: nat :: v < |spans| ==> Increasing(Children(spans, v, |spans|))
  {
    forall v: nat, k: nat | v < |spans|
      ensures k in Children(spans, v, |spans|) <==>
        k < |spans| && !TopLevel(spans[k].moduleName) && LastNamed(spans, spans[k].parentId, v)
    {
      hide Children, Parent, LastNamed, TopLevel;
      if k < |spans| { ParentMeans(spans, k, v); }
    }
  }

  /** The single pass that files every span under its parent. */
  method BuildTree(spans: seq<RawSpan>) returns (roots: seq<nat>, child: seq<seq<nat>>)
    ensures roots == Roots(spans, |spans|)
    ensures |child| == |spans| && forall v :: 0 <= v < |spans| ==> child[v] == Children(spans, v, |spans|)
    ensures forall r: nat :: r in roots <==> r < |spans| && TopLevel(spans[r].moduleName)
    ensures forall v: nat, k: nat :: v < |spans| ==>
      (k in child[v] <==> k < |spans| && !TopLevel(spans[k].moduleName) && LastNamed(spans, spans[k].parentId, v))
    ensures Increasing(roots) && forall v :: 0 <= v < |spans| ==> Increasing(child[v])
  {
    FiledMeans(spans);
    hide Children, Roots, RawSpan.IsRoot, Lookup, TopLevel, LastNamed, Increasing;
    var idMap := BuildIdMap(spans);
    roots, child := [], seq(|spans|, _ => []);
    NothingFiled(spans);
    for i := 0 to |spans|
      invariant FiledUpTo(spans, i, roots, child)
    {
      FileOneMore(spans, i, roots, child);
      var parentId := spans[i].parentId;
      if spans[i].IsRoot() {
        roots := roots + [i];
      } else if parentId in idMap {
        var p := idMap[parentId];
        child := child[p := child[p] + [i]];
      }
    }
  }

  // ---- anchored paths -------------------------------------------------------------------------

  /** A path of spans, each the child of the one before, from a span without parent. */
  ghost predicate Anchored(spans: seq<RawSpan>, path: seq<nat>) {
    && path != [] && (forall i :: 0 <= i < |path| ==> path[i] < |spans|)
    && Parent(spans, path[0]) == -1
    && forall i :: 0 < i < |path| ==> Parent(spans, path[i]) == path[i - 1]
  }

  lemma {:induction false} NoRepeat(spans: seq<RawSpan>, path: seq<nat>, i: nat, j: nat)
    requires Anchored(spans, path) && i < j < |path|
    ensures path[i] != path[j]
    decreases i
  {
    assert Parent(spans, path[j]) == path[j - 1];
    if i > 0 {
      assert Parent(spans, path[i]) == path[i - 1];
      NoRepeat(spans, path, i - 1, j - 1);
    }
  }

  /** Two anchored paths to one span are the same path: what hangs under the roots is a forest. */
  lemma {:induction false} OnePath(spans: seq<RawSpan>, p: seq<nat>, q: seq<nat>)
    requires Anchored(spans, p) && Anchored(spans, q) && p[|p| - 1] == q[|q| - 1]
    ensures p == q
    decreases |p|
  {
    var u := p[|p| - 1];
    if |p| > 1 { assert Parent(spans, p[|p| - 1]) == p[|p| - 2]; }
    if |q| > 1 { assert Parent(spans, q[|q| - 1]) == q[|q| - 2]; }
    if Parent(spans, u) == -1 {
      assert p == [u] && q == [u];
    } else {
      OnePath(spans, p[..|p| - 1], q[..|q| - 1]);
      assert p == p[..|p| - 1] + [p[|p| - 1]] && q == q[..|q| - 1] + [q[|q| - 1]];
    }
  }

  lemma {:induction false} DistinctBelow(xs: seq<nat>, n: nat)
    requires forall i :: 0 <= i < |xs| ==> xs[i] < n
    requires forall i, j :: 0 <= i < j < |xs| ==> xs[i] != xs[j]
    ensures |xs| <= n
    decreases n
  {
    if xs != [] {
      if k :| 0 <= k < |xs| && xs[k] == n - 1 {
        var ys := xs[..k] + xs[k + 1..];
        DistinctBelow(ys, n - 1);
      } else {
        assert n > 0 by { assert xs[0] < n; }
        DistinctBelow(xs, n - 1);
      }
    }
  }

  /** No anchored path is longer than the list of spans: every walk from a root ends. */
  lemma PathsAreShort(spans: seq<RawSpan>, path: seq<nat>)
    requires Anchored(spans, path)
    ensures |path| <= |spans|
  {
    forall i, j | 0 <= i < j < |path| ensures path[i] != path[j] { NoRepeat(spans, path, i, j); }
    DistinctBelow(path, |spans|);
  }

  lemma ChildPath(spans: seq<RawSpan>, path: seq<nat>, k: nat)
    requires Anchored(spans, path) && k < |spans| && Parent(spans, k) == path[|path| - 1]
    ensures Anchored(spans, path + [k]) && |path| < |spans|
  {
    assert Anchored(spans, path + [k]);
    PathsAreShort(spans, path + [k]);
  }

  // ---- the walk -------------------------------------------------------------------------------

  ghost predicate KidsOf(spans: seq<RawSpan>, path: seq<nat>, kids: seq<nat>) {
    && Anchored(spans, path)
    && (forall k :: k in kids ==> k < |spans| && Parent(spans, k) == path[|path| - 1])
    && (forall i, j :: 0 <= i < j < |kids| ==> kids[i] != kids[j])
  }

  function Kids(spans: seq<RawSpan>, v: nat): seq<nat> { Children(spans, v, |spans|) }

  /** The order in which the recursive walk visits the span at the end of `path` and everything under it. */
  ghost function Preorder(spans: seq<RawSpan>, path: seq<nat>): (visits: seq<nat>)
    requires Anchored(spans, path)
    decreases |spans| - |path|, 1, 0
  {
    PathsAreShort(spans, path);
    [path[|path| - 1]] + PreorderAll(spans, path, Kids(spans, path[|path| - 1]))
  }

  ghost function PreorderAll(spans: seq<RawSpan>, path: seq<nat>, kids: seq<nat>): (visits: seq<nat>)
    requires KidsOf(spans, path, kids)
    decreases |spans| - |path|, 0, |kids|
  {
    if kids == [] then [] else
    var k := kids[|kids| - 1];
    assert k in kids;
    ChildPath(spans, path, k);
    PreorderAll(spans, path, kids[..|kids| - 1]) + Preorder(spans, path + [k])
  }

  /** `u` lies at or below the end of `path`. */
  ghost predicate Under(spans: seq<RawSpan>, path: seq<nat>, u: nat) {
    exists p :: Anchored(spans, p) && path <= p && p[|p| - 1] == u
  }

  ghost predicate UnderSome(spans: seq<RawSpan>, path: seq<nat>, kids: seq<nat>, u: nat) {
    exists k :: k in kids && Under(spans, path + [k], u)
  }

  ghost function Once(b: bool): nat { if b then 1 else 0 }

  lemma UnderOneKid(spans: seq<RawSpan>, path: seq<nat>, a: nat, b: nat, u: nat)
    requires Under(spans, path + [a], u) && Under(spans, path + [b], u)
    ensures a == b
  {
    var p :| Anchored(spans, p) && path + [a] <= p && p[|p| - 1] == u;
    var q :| Anchored(spans, q) && path + [b] <= q && q[|q| - 1] == u;
    OnePath(spans, p, q);
    assert p[|path|] == a && q[|path|] == b;
  }

  /** The walk visits exactly the spans under its start, each once. */
  lemma {:induction false} VisitsOnce(spans: seq<RawSpan>, path: seq<nat>, u: nat)
    requires Anchored(spans, path)
    ensures multiset(Preorder(spans, path))[u] == Once(Under(spans, path, u))
    decreases |spans| - |path|, 1, 0
  {
    PathsAreShort(spans, path);
    var v := path[|path| - 1];
    var kids := Kids(spans, v);
    VisitsAllOnce(spans, path, kids, u);
    assert Preorder(spans, path) == [v] + PreorderAll(spans, path, kids);
    UnderSplits(spans, path, u);
  }

  lemma UnderSplits(spans: seq<RawSpan>, path: seq<nat>, u: nat)
    requires Anchored(spans, path)
    ensures var kids := Kids(spans, path[|path| - 1]);
      && (Under(spans, path, u) <==> u == path[|path| - 1] || UnderSome(spans, path, kids, u))
      && !(u == path[|path| - 1] && UnderSome(spans, path, kids, u))
  {
    var v := path[|path| - 1];
    var kids := Kids(spans, v);
    if UnderSome(spans, path, kids, u) {
      UnderKidIsUnder(spans, path, kids, u);
    }
    if Under(spans, path, u) && u != v {
      UnderGoesThroughKid(spans, path, kids, u);
    }
  }

  lemma UnderKidIsUnder(spans: seq<RawSpan>, path: seq<nat>, kids: seq<nat>, u: nat)
    requires Anchored(spans, path) && UnderSome(spans, path, kids, u)
    ensures Under(spans, path, u) && u != path[|path| - 1]
  {
    var k :| k in kids && Under(spans, path + [k], u);
    var p :| Anchored(spans, p) && path + [k] <= p && p[|p| - 1] == u;
    assert path <= p && p[|path| - 1] == path[|path| - 1];
    NoRepeat(spans, p, |path| - 1, |p| - 1);
  }

  lemma UnderGoesThroughKid(spans: seq<RawSpan>, path: seq<nat>, kids: seq<nat>, u: nat)
    requires Anchored(spans, path) && Under(spans, path, u) && u != path[|path| - 1]
    requires kids == Kids(spans, path[|path| - 1])
    ensures UnderSome(spans, path, kids, u)
  {
    var p :| Anchored(spans, p) && path <= p && p[|p| - 1] == u;
    var k := p[|path|];
    assert Parent(spans, p[|path|]) == p[|path| - 1];
    assert path + [k] <= p;
    assert k in kids && Under(spans, path + [k], u);
  }

  lemma UnderSomeSplits(spans: seq<RawSpan>, path: seq<nat>, rest: seq<nat>, k: nat, u: nat)
    requires k !in rest
    ensures Once(UnderSome(spans, path, rest + [k], u))
         == Once(UnderSome(spans, path, rest, u)) + Once(Under(spans, path + [k], u))
  {
    hide Under;
    if Under(spans, path + [k], u) {
      assert k in rest + [k];
      if UnderSome(spans, path, rest, u) {
        var a :| a in rest && Under(spans, path + [a], u);
        UnderOneKid(spans, path, a, k, u);
        assert false;
      }
    }
    if UnderSome(spans, path, rest, u) {
      var a :| a in rest && Under(spans, path + [a], u);
      assert a in rest + [k];
    }
  }

  lemma {:induction false} VisitsAllOnce(spans: seq<RawSpan>, path: seq<nat>, kids: seq<nat>, u: nat)
    requires KidsOf(spans, path, kids)
    ensures multiset(PreorderAll(spans, path, kids))[u] == Once(UnderSome(spans, path, kids, u))
    decreases |spans| - |path|, 0, |kids|
  {
    hide Under, Preorder, Once;
    if kids == [] {
      assert !UnderSome(spans, path, kids, u);
      NeverOnce();
    } else {
      var k, rest := kids[|kids| - 1], kids[..|kids| - 1];
      assert k in kids && k !in rest && kids == rest + [k];
      assert forall x :: x in rest ==> x in kids;
      ChildPath(spans, path, k);
      VisitsAllOnce(spans, path, rest, u);
      VisitsOnce(spans, path + [k], u);
      UnderSomeSplits(spans, path, rest, k, u);
    }
  }

  lemma NeverOnce()
    ensures Once(false) == 0
  {}

  // ---- which spans the conversion reaches ------------------------------------------------------

  ghost predicate Within(spans: seq<RawSpan>, xs: seq<nat>) {
    forall i :: 0 <= i < |xs| ==> xs[i] < |spans|
  }

  /** The children of every span of a list, in order. */
  function KidsOfAll(spans: seq<RawSpan>, xs: seq<nat>): (ys: seq<nat>)
    ensures Within(spans, ys)
  {
    if xs == [] then [] else
    var kids := Kids(spans, xs[|xs| - 1]);
    assert forall i :: 0 <= i < |kids| ==> kids[i] in kids;
    KidsOfAll(spans, xs[..|xs| - 1]) + kids
  }

  /** The spans the conversion starts from: the children of the threads of the roots, in the order of the three loops.
      */
  function Tops(spans: seq<RawSpan>): (tops: seq<nat>)
    ensures Within(spans, tops)
  {
    KidsOfAll(spans, KidsOfAll(spans, Roots(spans, |spans|)))
  }

  lemma {:induction false} IncreasingCount(xs: seq<nat>, k: nat)
    requires forall i, j :: 0 <= i < j < |xs| ==> xs[i] < xs[j]
    ensures multiset(xs)[k] == Once(k in xs)
  {
    if xs != [] {
      var n := |xs| - 1;
      IncreasingCount(xs[..n], k);
      assert xs == xs[..n] + [xs[n]];
    }
  }

  lemma OneMoreParent(spans: seq<RawSpan>, xs: seq<nat>, x: nat, k: nat)
    requires k < |spans|
    ensures multiset(KidsOfAll(spans, xs) + Kids(spans, x))[k]
         == multiset(KidsOfAll(spans, xs))[k] + Once(Parent(spans, k) == x)
  {
    IncreasingCount(Kids(spans, x), k);
    hide KidsOfAll, Parent;
  }

  lemma KidsOfSnoc(spans: seq<RawSpan>, xs: seq<nat>, x: nat)
    ensures KidsOfAll(spans, xs + [x]) == KidsOfAll(spans, xs) + Kids(spans, x)
  {
    assert (xs + [x])[..|xs|] == xs;
  }

  lemma KidsOfNone(spans: seq<RawSpan>)
    ensures KidsOfAll(spans, []) == []
  {}

  lemma CountSnoc(xs: seq<nat>, x: nat, p: int)
    ensures p >= 0 ==> multiset(xs + [x])[p] == multiset(xs)[p] + Once(p == x)
  {}

  lemma {:induction false} KidsOfAllCount(spans: seq<RawSpan>, xs: seq<nat>, k: nat)
    requires k < |spans|
    ensures multiset(KidsOfAll(spans, xs))[k] == if Parent(spans, k) == -1 then 0 else multiset(xs)[Parent(spans, k)]
  {
    hide KidsOfAll, Kids, Parent, Once;
    if xs == [] {
      KidsOfNone(spans);
    } else {
      var n := |xs| - 1;
      var front, x, p := xs[..n], xs[n], Parent(spans, k);
      assert xs == front + [x];
      KidsOfAllCount(spans, front, k);
      KidsOfSnoc(spans, front, x);
      OneMoreParent(spans, front, x, k);
      CountSnoc(front, x, p);
      if p == -1 { NeverOnce(); }
    }
  }

  /** A span two levels below a root. */
  ghost predicate IsTop(spans: seq<RawSpan>, k: nat) {
    && k < |spans| && Parent(spans, k) >= 0 && Parent(spans, Parent(spans, k)) >= 0
    && spans[Parent(spans, Parent(spans, k))].IsRoot()
  }

  ghost function TopPath(spans: seq<RawSpan>, k: nat): (p: seq<nat>)
    requires IsTop(spans, k)
    ensures Anchored(spans, p) && |p| == 3 && p[2] == k && spans[p[0]].IsRoot()
  {
    var t := Parent(spans, k);
    [Parent(spans, t), t, k]
  }

  /** The three loops reach each span two levels below a root exactly once. */
  lemma TopsCount(spans: seq<RawSpan>, k: nat)
    requires k < |spans|
    ensures multiset(Tops(spans))[k] == Once(IsTop(spans, k))
  {
    var roots := Roots(spans, |spans|);
    var threads := KidsOfAll(spans, roots);
    KidsOfAllCount(spans, threads, k);
    var t := Parent(spans, k);
    if t >= 0 {
      KidsOfAllCount(spans, roots, t);
      if Parent(spans, t) >= 0 { IncreasingCount(roots, Parent(spans, t)); }
    }
  }

  /** A span two or more levels below a root. */
  ghost predicate Deep(spans: seq<RawSpan>, u: nat) {
    exists p :: Anchored(spans, p) && |p| >= 3 && spans[p[0]].IsRoot() && p[|p| - 1] == u
  }

  ghost predicate AllTops(spans: seq<RawSpan>, order: seq<nat>) {
    forall i :: 0 <= i < |order| ==> IsTop(spans, order[i])
  }

  /** Walking from each of a list of tops in turn. */
  ghost function Walk(spans: seq<RawSpan>, order: seq<nat>): (visits: seq<nat>)
    requires AllTops(spans, order)
  {
    if order == [] then [] else
    Walk(spans, order[..|order| - 1]) + Preorder(spans, TopPath(spans, order[|order| - 1]))
  }

  /** The top a deep span lies under. */
  ghost predicate UnderTop(spans: seq<RawSpan>, k: nat, u: nat) {
    IsTop(spans, k) && Under(spans, TopPath(spans, k), u)
  }

  lemma OneTop(spans: seq<RawSpan>, a: nat, b: nat, u: nat)
    requires UnderTop(spans, a, u) && UnderTop(spans, b, u)
    ensures a == b
  {
    var p :| Anchored(spans, p) && TopPath(spans, a) <= p && p[|p| - 1] == u;
    var q :| Anchored(spans, q) && TopPath(spans, b) <= q && q[|q| - 1] == u;
    OnePath(spans, p, q);
    assert p[2] == a && q[2] == b;
  }

  lemma DeepIffUnderTop(spans: seq<RawSpan>, u: nat)
    ensures Deep(spans, u) <==> exists k :: UnderTop(spans, k, u)
  {
    if Deep(spans, u) {
      var p :| Anchored(spans, p) && |p| >= 3 && spans[p[0]].IsRoot() && p[|p| - 1] == u;
      assert Parent(spans, p[1]) == p[0] && Parent(spans, p[2]) == p[1];
      assert IsTop(spans, p[2]) && TopPath(spans, p[2]) == p[..3];
      assert UnderTop(spans, p[2], u);
    }
    if k :| UnderTop(spans, k, u) {
      var p :| Anchored(spans, p) && TopPath(spans, k) <= p && p[|p| - 1] == u;
      assert p[0] == TopPath(spans, k)[0];
    }
  }

  /** One walk visits `u` once or not at all, depending on whether it starts at the top of `u`. */
  lemma OneWalk(spans: seq<RawSpan>, top: nat, k: nat, u: nat)
    requires IsTop(spans, top)
    ensures UnderTop(spans, k, u) ==> multiset(Preorder(spans, TopPath(spans, top)))[u] == Once(top == k)
    ensures !Deep(spans, u) ==> multiset(Preorder(spans, TopPath(spans, top)))[u] == 0
  {
    hide Preorder, Deep, TopPath, Under;
    VisitsOnce(spans, TopPath(spans, top), u);
    DeepIffUnderTop(spans, u);
    if Under(spans, TopPath(spans, top), u) {
      assert UnderTop(spans, top, u);
      if UnderTop(spans, k, u) { OneTop(spans, k, top, u); }
    }
  }

  lemma {:induction false} WalkCount(spans: seq<RawSpan>, order: seq<nat>, k: nat, u: nat)
    requires AllTops(spans, order)
    ensures UnderTop(spans, k, u) ==> multiset(Walk(spans, order))[u] == multiset(order)[k]
    ensures !Deep(spans, u) ==> multiset(Walk(spans, order))[u] == 0
  {
    hide Preorder, Deep, UnderTop, TopPath, IsTop;
    if order != [] {
      var n := |order| - 1;
      WalkCount(spans, order[..n], k, u);
      OneWalk(spans, order[n], k, u);
      assert order == order[..n] + [order[n]];
    }
  }

  /** Taken in any order, with each top once, the walks visit every span two or more levels below a root exactly
      once, and no other span: whatever the parent ids, dangling, cyclic or repeated. */
  lemma ExactlyOnce(spans: seq<RawSpan>, order: seq<nat>, u: nat)
    requires multiset(order) == multiset(Tops(spans))
    ensures AllTops(spans, order)
    ensures multiset(Walk(spans, order))[u] == Once(Deep(spans, u))
  {
    OrdersAreTops(spans, order);
    DeepIffUnderTop(spans, u);
    if Deep(spans, u) {
      var k :| UnderTop(spans, k, u);
      WalkCount(spans, order, k, u);
      TopsCount(spans, k);
    } else {
      WalkCount(spans, order, 0, u);
    }
  }

  lemma OrdersAreTops(spans: seq<RawSpan>, order: seq<nat>)
    requires multiset(order) == multiset(Tops(spans))
    ensures AllTops(spans, order)
  {
    forall i | 0 <= i < |order| ensures IsTop(spans, order[i]) {
      assert order[i] in multiset(order);
      var tops := Tops(spans);
      assert order[i] in multiset(tops);
      var j :| 0 <= j < |tops| && tops[j] == order[i];
      TopsCount(spans, order[i]);
    }
  }
}
