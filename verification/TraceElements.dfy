/** What the converter writes out: metadata, then every converted span with its events and links, then the gateway
    spans. */
module TraceElements {
  import opened SpanForest
  import opened SpanConversion

  datatype Kind = ThreadMeta | SlotMeta | SpanElem | EventElem | LinkElem | GatewaySpan | GatewayEvent

  /** One element of the output: of which kind, of which span, and which of them. */
  datatype Elem = Elem(kind: Kind, owner: nat, index: nat)

  /** How many events and links each engine span has, how many events each gateway span, and how many metadata
      entries. */
  datatype Extras = Extras(events: seq<nat>, links: seq<nat>, gatewayEvents: seq<nat>, threads: nat, slots: nat)

  ghost predicate Fitting(spans: seq<RawSpan>, x: Extras) {
    |x.events| == |spans| == |x.links|
  }

  /** The elements 0, 1, ... of one kind and span. */
  function Numbered(kind: Kind, owner: nat, n: nat): seq<Elem> {
    if n == 0 then [] else Numbered(kind, owner, n - 1) + [Elem(kind, owner, n - 1)]
  }

  lemma {:induction false} NumberedCount(kind: Kind, owner: nat, n: nat, e: Elem)
    ensures multiset(Numbered(kind, owner, n))[e] == Once(e.kind == kind && e.owner == owner && e.index < n)
  {
    if n > 0 { NumberedCount(kind, owner, n - 1, e); }
  }

  /** A span, its events and its links. */
  function Block(x: Extras, v: nat): seq<Elem>
    requires v < |x.events| == |x.links|
  {
    Numbered(SpanElem, v, 1) + Numbered(EventElem, v, x.events[v]) + Numbered(LinkElem, v, x.links[v])
  }

  /** How many elements of a kind a visited span brings. */
  function Size(x: Extras, kind: Kind, v: nat): nat
    requires v < |x.events| == |x.links|
  {
    match kind case SpanElem => 1 case EventElem => x.events[v] case LinkElem => x.links[v] case _ => 0
  }

  lemma BlockCount(x: Extras, v: nat, e: Elem)
    requires v < |x.events| == |x.links|
    ensures multiset(Block(x, v))[e] == Once(e.owner == v && e.index < Size(x, e.kind, v))
  {
    hide Numbered;
    NumberedCount(SpanElem, v, 1, e);
    NumberedCount(EventElem, v, x.events[v], e);
    NumberedCount(LinkElem, v, x.links[v], e);
  }

  ghost function Emit(x: Extras, visits: seq<nat>): seq<Elem>
    requires |x.events| == |x.links| && forall i :: 0 <= i < |visits| ==> visits[i] < |x.events|
  {
    if visits == [] then [] else Emit(x, visits[..|visits| - 1]) + Block(x, visits[|visits| - 1])
  }

  lemma {:induction false} EmitConcat(x: Extras, a: seq<nat>, b: seq<nat>)
    requires |x.events| == |x.links|
    requires forall i :: 0 <= i < |a| ==> a[i] < |x.events|
    requires forall i :: 0 <= i < |b| ==> b[i] < |x.events|
    ensures Emit(x, a + b) == Emit(x, a) + Emit(x, b)
  {
    hide Block;
    if b == [] {
      assert a + b == a;
    } else {
      assert (a + b)[..|a + b| - 1] == a + b[..|b| - 1];
      EmitConcat(x, a, b[..|b| - 1]);
    }
  }

  /** An element is written as often as its span is visited. */
  lemma {:induction false} EmitCount(x: Extras, visits: seq<nat>, e: Elem)
    requires |x.events| == |x.links| && forall i :: 0 <= i < |visits| ==> visits[i] < |x.events|
    ensures multiset(Emit(x, visits))[e] ==
      if e.owner < |x.events| && e.index < Size(x, e.kind, e.owner) then multiset(visits)[e.owner] else 0
  {
    if visits != [] {
      hide Block, Size, Once;
      var n := |visits| - 1;
      EmitCount(x, visits[..n], e);
      BlockCount(x, visits[n], e);
      OneMore(visits, e.owner);
      CountInBoth(Emit(x, visits[..n]), Block(x, visits[n]), e);
      OnceMeans(e.owner == visits[n] && e.index < Size(x, e.kind, visits[n]));
    }
  }

  lemma OneMore(xs: seq<nat>, u: nat)
    requires xs != []
    ensures multiset(xs)[u] == multiset(xs[..|xs| - 1])[u] + if xs[|xs| - 1] == u then 1 else 0
  {
    assert xs == xs[..|xs| - 1] + [xs[|xs| - 1]];
  }

  lemma CountInBoth(a: seq<Elem>, b: seq<Elem>, e: Elem)
    ensures multiset(a + b)[e] == multiset(a)[e] + multiset(b)[e]
  {}

  lemma OnceMeans(b: bool)
    ensures Once(b) == if b then 1 else 0
  {}

  function GatewayBlock(g: nat, events: nat): seq<Elem> {
    Numbered(GatewaySpan, g, 1) + Numbered(GatewayEvent, g, events)
  }

  function GatewayPart(events: seq<nat>): seq<Elem> {
    if events == [] then [] else GatewayPart(events[..|events| - 1]) + GatewayBlock(|events| - 1, events[|events| - 1])
  }

  function GatewaySize(kind: Kind, events: nat): nat {
    match kind case GatewaySpan => 1 case GatewayEvent => events case _ => 0
  }

  lemma GatewayBlockCount(g: nat, events: nat, e: Elem)
    ensures multiset(GatewayBlock(g, events))[e] == Once(e.owner == g && e.index < GatewaySize(e.kind, events))
  {
    hide Numbered;
    NumberedCount(GatewaySpan, g, 1, e);
    NumberedCount(GatewayEvent, g, events, e);
  }

  lemma {:induction false} GatewayCount(events: seq<nat>, e: Elem)
    ensures multiset(GatewayPart(events))[e]
         == Once(e.owner < |events| && e.index < GatewaySize(e.kind, events[e.owner]))
  {
    if events != [] {
      hide GatewayBlock, GatewaySize;
      var n := |events| - 1;
      GatewayCount(events[..n], e);
      GatewayBlockCount(n, events[n], e);
      CountInBoth(GatewayPart(events[..n]), GatewayBlock(n, events[n]), e);
    }
  }

  // ---- the output -----------------------------------------------------------------------------

  /** What belongs into the output: all metadata, every span two or more levels below a root with its events and
      links, and every gateway span with its events. */
  ghost predicate Belongs(spans: seq<RawSpan>, x: Extras, e: Elem)
    requires Fitting(spans, x)
  {
    match e.kind
    case ThreadMeta => e.owner == 0 && e.index < x.threads
    case SlotMeta => e.owner == 0 && e.index < x.slots
    case GatewaySpan => e.owner < |x.gatewayEvents| && e.index == 0
    case GatewayEvent => e.owner < |x.gatewayEvents| && e.index < x.gatewayEvents[e.owner]
    case SpanElem => e.owner < |spans| && Deep(spans, e.owner) && e.index == 0
    case EventElem => e.owner < |spans| && Deep(spans, e.owner) && e.index < x.events[e.owner]
    case LinkElem => e.owner < |spans| && Deep(spans, e.owner) && e.index < x.links[e.owner]
  }

  function Metadata(x: Extras): seq<Elem> { Numbered(ThreadMeta, 0, x.threads) + Numbered(SlotMeta, 0, x.slots) }

  /** In any order of the tops the output holds each element that belongs exactly once, and nothing else. */
  lemma OutputIsExact(spans: seq<RawSpan>, x: Extras, order: seq<nat>, e: Elem)
    requires Fitting(spans, x) && multiset(order) == multiset(Tops(spans))
    ensures AllTops(spans, order) && Within(spans, Walk(spans, order))
    ensures multiset(Metadata(x) + Emit(x, Walk(spans, order)) + GatewayPart(x.gatewayEvents))[e]
         == Once(Belongs(spans, x, e))
  {
    hide Walk, Tops, Deep, Emit, GatewayPart, Numbered;
    OrdersAreTops(spans, order);
    WalkWithin(spans, order);
    NumberedCount(ThreadMeta, 0, x.threads, e);
    NumberedCount(SlotMeta, 0, x.slots, e);
    GatewayCount(x.gatewayEvents, e);
    EmitCount(x, Walk(spans, order), e);
    ExactlyOnce(spans, order, e.owner);
  }

  class Gatherer {
    const child: seq<seq<nat>>
    const x: Extras
    ghost const spans: seq<RawSpan>

    constructor (ghost spans: seq<RawSpan>, child: seq<seq<nat>>, x: Extras)
      ensures this.spans == spans && this.child == child && this.x == x
    {
      this.spans, this.child, this.x := spans, child, x;
    }

    ghost predicate Valid() { Fits(spans, child) && Fitting(spans, x) }

    /** The elements of a span and of everything under it. */
    method GatherOne(span: nat, ghost path: seq<nat>) returns (elems: seq<Elem>)
      requires Valid() && Anchored(spans, path) && span == path[|path| - 1]
      ensures Within(spans, Preorder(spans, path)) && elems == Emit(x, Preorder(spans, path))
      decreases |spans| - |path|
    {
      hide PreorderAll, Emit, Block;
      PreorderWithin(spans, path);
      PreorderOfNone(spans, path);
      PathsAreShort(spans, path);
      elems := Block(x, span);
      ghost var kids := Kids(spans, span);
      KidsPrefix(spans, path, 0);
      assert kids[..0] == [] && [span] + [] == [span];
      EmitOne(x, span);
      for i := 0 to |child[span]|
        invariant KidsOf(spans, path, kids[..i]) && Within(spans, PreorderAll(spans, path, kids[..i]))
        invariant elems == Emit(x, [span] + PreorderAll(spans, path, kids[..i]))
      {
        KidsPrefix(spans, path, i + 1);
        ChildPath(spans, path, kids[i]);
        PreorderAllStep(spans, path, kids, i);
        PreorderAllWithin(spans, path, kids[..i + 1]);
        var more := GatherOne(child[span][i], path + [kids[i]]);
        ghost var sofar := [span] + PreorderAll(spans, path, kids[..i]);
        EmitConcat(x, sofar, Preorder(spans, path + [kids[i]]));
        assert sofar + Preorder(spans, path + [kids[i]]) == [span] + PreorderAll(spans, path, kids[..i + 1]);
        elems := elems + more;
      }
      assert kids[..|kids|] == kids;
    }

    /** Everything that is written out, in any order of the tops: exactly what belongs, each once. */
    method GatherAll(order: seq<nat>) returns (elems: seq<Elem>)
      requires Valid() && multiset(order) == multiset(Tops(spans))
      ensures forall e :: multiset(elems)[e] == Once(Belongs(spans, x, e))
    {
      hide Walk, Preorder, Tops, IsTop, TopPath, Belongs, Once, Emit, Metadata, GatewayPart, Block;
      OrdersAreTops(spans, order);
      NoVisits(spans, []);
      EmitNone(x);
      elems := [];
      assert order[..0] == [];
      for i := 0 to |order|
        invariant AllTops(spans, order[..i]) && Within(spans, Walk(spans, order[..i]))
        invariant elems == Emit(x, Walk(spans, order[..i]))
      {
        assert order[..i + 1] == order[..i] + [order[i]];
        WalkSnoc(spans, order[..i], order[i]);
        WalkWithin(spans, order[..i + 1]);
        TopPathEnds(spans, order[i]);
        var more := GatherOne(order[i], TopPath(spans, order[i]));
        EmitConcat(x, Walk(spans, order[..i]), Preorder(spans, TopPath(spans, order[i])));
        elems := elems + more;
      }
      assert order[..|order|] == order;
      var gateway := GatherGateway();
      elems := Metadata(x) + elems + gateway;
      forall e ensures multiset(elems)[e] == Once(Belongs(spans, x, e)) { OutputIsExact(spans, x, order, e); }
    }

    method GatherGateway() returns (elems: seq<Elem>)
      ensures elems == GatewayPart(x.gatewayEvents)
    {
      elems := [];
      for i := 0 to |x.gatewayEvents|
        invariant elems == GatewayPart(x.gatewayEvents[..i])
      {
        assert x.gatewayEvents[..i + 1][..i] == x.gatewayEvents[..i];
        elems := elems + GatewayBlock(i, x.gatewayEvents[i]);
      }
      assert x.gatewayEvents[..|x.gatewayEvents|] == x.gatewayEvents;
    }
  }

  lemma EmitOne(x: Extras, v: nat)
    requires v < |x.events| == |x.links|
    ensures Emit(x, [v]) == Block(x, v)
  {
    assert [v][..0] == [];
  }

  lemma EmitNone(x: Extras)
    requires |x.events| == |x.links|
    ensures Emit(x, []) == []
  {}
}
