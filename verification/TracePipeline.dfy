/** The converter from the raw spans to the lanes: conversion, layout and lane numbers put together. */
module TracePipeline {
  import opened SpanForest
  import opened SpanConversion
  import opened SpanLayout
  import opened LaneAllocator
  import opened LaneProofs
  import opened LaneOptimality
  import opened TraceLayouts

  /** What the converter reads of the spans besides the ids: times, and the process ids of the thread spans. */
  datatype Times = Times(starts: seq<int>, ends: seq<int>, pids: seq<int>)

  ghost predicate Matches(spans: seq<RawSpan>, t: Times) {
    |t.starts| == |t.ends| == |t.pids| == |spans|
  }

  /** The layout task of a top span, given the adjusted end times. */
  function TaskOf(spans: seq<RawSpan>, t: Times, ends: seq<int>, k: nat): Task
    requires |t.starts| == |t.pids| == |ends| == |spans| && k < |spans|
  {
    var thread := Parent(spans, k);
    Task(Engine(if thread >= 0 then t.pids[thread] else 0), t.starts[k], ends[k])
  }

  function TasksOf(spans: seq<RawSpan>, t: Times, ends: seq<int>, tops: seq<nat>): (tasks: seq<Task>)
    requires |t.starts| == |t.pids| == |ends| == |spans| && forall i :: 0 <= i < |tops| ==> tops[i] < |spans|
    ensures |tasks| == |tops| && forall i :: 0 <= i < |tops| ==> tasks[i] == TaskOf(spans, t, ends, tops[i])
  {
    seq(|tops|, i requires 0 <= i < |tops| => TaskOf(spans, t, ends, tops[i]))
  }

  /** The tops of all requests, in the order of the layout. */
  function Flat<T>(requests: seq<seq<T>>): seq<T> {
    if requests == [] then [] else Flat<T>(requests[..|requests| - 1]) + requests[|requests| - 1]
  }

  ghost predicate InRange(spans: seq<RawSpan>, order: seq<seq<nat>>) {
    forall r :: r in order ==> forall i :: 0 <= i < |r| ==> r[i] < |spans|
  }

  function Requests(spans: seq<RawSpan>, t: Times, ends: seq<int>, order: seq<seq<nat>>): (rs: seq<seq<Task>>)
    requires |t.starts| == |t.pids| == |ends| == |spans| && InRange(spans, order)
    ensures |rs| == |order|
  {
    if order == [] then [] else
    var r := order[|order| - 1];
    assert r in order;
    assert forall x :: x in order[..|order| - 1] ==> x in order;
    Requests(spans, t, ends, order[..|order| - 1]) + [TasksOf(spans, t, ends, r)]
  }

  lemma {:induction false} FlatRange(spans: seq<RawSpan>, order: seq<seq<nat>>)
    requires forall i :: 0 <= i < |Flat<nat>(order)| ==> Flat<nat>(order)[i] < |spans|
    ensures InRange(spans, order)
  {
    if order != [] {
      var n := |order| - 1;
      var front, r := order[..n], order[n];
      forall i | 0 <= i < |Flat<nat>(front)| ensures Flat<nat>(front)[i] < |spans| {
        assert Flat<nat>(order)[i] == Flat<nat>(front)[i];
      }
      forall i | 0 <= i < |r| ensures r[i] < |spans| { assert Flat<nat>(order)[|Flat<nat>(front)| + i] == r[i]; }
      FlatRange(spans, front);
      assert forall x :: x in order <==> x in front || x == r;
    }
  }

  lemma {:induction false} FlatRequests(spans: seq<RawSpan>, t: Times, ends: seq<int>, order: seq<seq<nat>>)
    requires |t.starts| == |t.pids| == |ends| == |spans| && InRange(spans, order)
    ensures |Flat<Task>(Requests(spans, t, ends, order))| == |Flat<nat>(order)|
    ensures forall i :: 0 <= i < |Flat<nat>(order)| ==>
      && Flat<nat>(order)[i] < |spans|
      && Flat<Task>(Requests(spans, t, ends, order))[i] == TaskOf(spans, t, ends, Flat<nat>(order)[i])
  {
    if order != [] {
      hide TaskOf, TasksOf;
      var n := |order| - 1;
      var front, r := order[..n], order[n];
      assert r in order && forall x :: x in front ==> x in order;
      FlatRequests(spans, t, ends, front);
      var rs, tasks := Requests(spans, t, ends, front), TasksOf(spans, t, ends, r);
      assert Requests(spans, t, ends, order) == rs + [tasks] && (rs + [tasks])[..n] == rs;
      assert Flat<Task>(rs + [tasks]) == Flat<Task>(rs) + tasks;
      assert Flat<nat>(order) == Flat<nat>(front) + r;
    }
  }

  function TasksIn(placed: seq<Placed>): (tasks: seq<Task>)
    ensures |tasks| == |placed| && forall i :: 0 <= i < |placed| ==> tasks[i] == placed[i].task
  {
    seq(|placed|, i requires 0 <= i < |placed| => placed[i].task)
  }

  lemma ExtensionTasks(l: Layout, tasks: seq<Task>, m: Layout)
    requires Extends(l, tasks, m)
    ensures TasksIn(m.placed) == TasksIn(l.placed) + tasks
  {
    var n := |l.placed|;
    forall i | 0 <= i < |m.placed| ensures TasksIn(m.placed)[i] == (TasksIn(l.placed) + tasks)[i] {
      if i < n { assert m.placed[i] == l.placed[i]; } else { assert m.placed[n + (i - n)].task == tasks[i - n]; }
    }
  }

  /** The tasks placed are those of the requests, in order. */
  lemma {:induction false} LayoutPlacesAll(requests: seq<seq<Task>>)
    ensures TasksIn(LayOut(requests).placed) == Flat<Task>(requests)
  {
    if requests != [] {
      hide PlaceAll, Extends, Formed;
      var n := |requests| - 1;
      LayoutPlacesAll(requests[..n]);
      var start := LayOut(requests[..n]).(sticky := map[]);
      PlaceAllExtends(start, requests[n]);
      ExtensionTasks(start, requests[n], LayOut(requests));
    }
  }

  // ---- what the lanes mean for the spans ------------------------------------------------------

  /** Two tops drawn on one lane under one process id, that of the thread they hang under, do not overlap. */
  ghost predicate TopsApart(spans: seq<RawSpan>, t: Times, ends: seq<int>, tids: seq<nat>)
    requires |t.starts| == |t.pids| == |ends| == |tids| == |spans|
  {
    forall a: nat, b: nat :: IsTop(spans, a) && IsTop(spans, b) && a != b && tids[a] == tids[b]
      && t.pids[Parent(spans, a)] == t.pids[Parent(spans, b)]
      ==> ends[a] <= t.starts[b] || ends[b] <= t.starts[a]
  }

  lemma TopTask(spans: seq<RawSpan>, t: Times, ends: seq<int>, k: nat)
    requires |t.starts| == |t.pids| == |ends| == |spans| && IsTop(spans, k)
    ensures k < |spans| && Parent(spans, k) >= 0
    ensures TaskOf(spans, t, ends, k) == Task(Engine(t.pids[Parent(spans, k)]), t.starts[k], ends[k])
  {}

  /** Some top under process id `pid` is drawn on lane `line`. */
  ghost predicate TopOn(spans: seq<RawSpan>, t: Times, tids: seq<nat>, pid: int, line: nat)
    requires |t.pids| == |tids| == |spans|
  {
    exists k: nat :: IsTop(spans, k) && t.pids[Parent(spans, k)] == pid && tids[k] == line
  }

  /** The lanes announced are those something is drawn on, each announced once. */
  ghost predicate SlotsFit(spans: seq<RawSpan>, t: Times, tids: seq<nat>, gatewayTids: seq<nat>, slots: seq<Slot>)
    requires |t.pids| == |tids| == |spans|
  {
    && (forall pid, line: nat ::
          multiset(slots)[Slot(Engine(pid), line)] == if TopOn(spans, t, tids, pid, line) then 1 else 0)
    && (forall line: nat :: multiset(slots)[Slot(Smg, line)] == if line in gatewayTids then 1 else 0)
  }

  /** Everything under a top is drawn on the lane of the top. */
  ghost predicate OnOneLane(spans: seq<RawSpan>, tids: seq<nat>)
    requires |tids| == |spans|
  {
    forall k: nat, u: nat :: u < |spans| && UnderTop(spans, k, u) ==> k < |spans| && tids[u] == tids[k]
  }

  /** The lane numbers the layout gave to `order`, position by position. */
  ghost predicate LinesOf(placed: seq<Placed>, lines: seq<nat>) {
    |lines| == |placed| && forall i :: 0 <= i < |placed| ==> lines[i] == placed[i].line
  }

  lemma TopIsUnderItself(spans: seq<RawSpan>, k: nat)
    requires IsTop(spans, k)
    ensures UnderTop(spans, k, k)
  {
    var p := TopPath(spans, k);
    assert Anchored(spans, p) && p <= p && p[|p| - 1] == k;
  }

  lemma {:induction false} TopIsListed(spans: seq<RawSpan>, flat: seq<nat>, k: nat) returns (i: nat)
    requires multiset(flat) == multiset(Tops(spans)) && IsTop(spans, k)
    ensures i < |flat| && flat[i] == k
  {
    TopsCount(spans, k);
    assert k in multiset(flat);
    i :| 0 <= i < |flat| && flat[i] == k;
  }

  lemma PaintedLanes(spans: seq<RawSpan>, flat: seq<nat>, lines: seq<nat>, tids: seq<nat>, i: nat)
    requires |flat| == |lines| && Painted(spans, flat, lines, |flat|, tids) && |tids| == |spans|
    requires i < |flat| && IsTop(spans, flat[i])
    ensures tids[flat[i]] == lines[i]
  {
    TopIsUnderItself(spans, flat[i]);
  }

  lemma SubtreesOnOneLane(spans: seq<RawSpan>, flat: seq<nat>, lines: seq<nat>, tids: seq<nat>)
    requires |tids| == |spans| && |flat| == |lines| && multiset(flat) == multiset(Tops(spans))
    requires Painted(spans, flat, lines, |flat|, tids)
    ensures OnOneLane(spans, tids)
  {
    hide Tops, Painted, UnderTop;
    forall k: nat, u: nat | u < |spans| && UnderTop(spans, k, u) ensures k < |spans| && tids[u] == tids[k] {
      UnderTopIsTop(spans, k, u);
      var i := TopIsListed(spans, flat, k);
      PaintedLanes(spans, flat, lines, tids, i);
      PaintedAt(spans, flat, lines, tids, i, u);
    }
  }

  lemma UnderTopIsTop(spans: seq<RawSpan>, k: nat, u: nat)
    requires UnderTop(spans, k, u)
    ensures IsTop(spans, k)
  {}

  lemma PaintedAt(spans: seq<RawSpan>, flat: seq<nat>, lines: seq<nat>, tids: seq<nat>, i: nat, u: nat)
    requires |flat| == |lines| && Painted(spans, flat, lines, |flat|, tids)
    requires i < |flat| && u < |tids| && UnderTop(spans, flat[i], u)
    ensures tids[u] == lines[i]
  {}

  /** The tops are apart exactly if the lanes of the layout are disjoint. */
  lemma ApartIffDisjoint(spans: seq<RawSpan>, t: Times, ends: seq<int>, flat: seq<nat>, placed: seq<Placed>,
                         tids: seq<nat>)
    requires |t.starts| == |t.pids| == |ends| == |tids| == |spans| && AllTops(spans, flat)
    requires forall i, j :: 0 <= i < j < |flat| ==> flat[i] != flat[j]
    requires forall k: nat :: IsTop(spans, k) ==> k in flat
    requires |placed| == |flat| && forall i :: 0 <= i < |flat| ==>
      flat[i] < |spans| && placed[i].task == TaskOf(spans, t, ends, flat[i]) && tids[flat[i]] == placed[i].line
    ensures TopsApart(spans, t, ends, tids) <==> Disjoint(placed)
  {
    hide TaskOf, IsTop, Parent;
    forall k: nat | IsTop(spans, k)
      ensures k < |spans| && Parent(spans, k) >= 0
      ensures TaskOf(spans, t, ends, k) == Task(Engine(t.pids[Parent(spans, k)]), t.starts[k], ends[k])
    {
      TopTask(spans, t, ends, k);
    }
    if Disjoint(placed) {
      forall a: nat, b: nat | IsTop(spans, a) && IsTop(spans, b) && a != b
        && tids[a] == tids[b] && t.pids[Parent(spans, a)] == t.pids[Parent(spans, b)]
        ensures ends[a] <= t.starts[b] || ends[b] <= t.starts[a]
      {
        var i :| 0 <= i < |flat| && flat[i] == a;
        var j :| 0 <= j < |flat| && flat[j] == b;
        assert SameLane(placed[i], placed[j]) && SameLane(placed[j], placed[i]);
        assert if i < j then Apart(placed[i].task, placed[j].task) else Apart(placed[j].task, placed[i].task);
      }
    }
    if TopsApart(spans, t, ends, tids) {
      forall i, j | 0 <= i < j < |placed| && SameLane(placed[i], placed[j])
        ensures Apart(placed[i].task, placed[j].task)
      {
        assert IsTop(spans, flat[i]) && IsTop(spans, flat[j]);
      }
    }
  }

  lemma TopsInRange(spans: seq<RawSpan>)
    ensures forall k: nat :: IsTop(spans, k) ==> k < |spans| && Parent(spans, k) >= 0
  {}

  // ---- the gateway spans --------------------------------------------------------------------------

  /** The layout tasks of the gateway spans, given the adjusted end times. */
  function GatewayTasks(gateway: seq<Interval>, ends: seq<int>): (tasks: seq<Task>)
    requires |gateway| == |ends|
    ensures |tasks| == |gateway| && forall g :: 0 <= g < |gateway| ==> tasks[g] == Task(Smg, gateway[g].start, ends[g])
  {
    seq(|gateway|, g requires 0 <= g < |gateway| => Task(Smg, gateway[g].start, ends[g]))
  }

  /** Two gateway spans drawn on one lane do not overlap. */
  ghost predicate GatewayApart(gateway: seq<Interval>, ends: seq<int>, tids: seq<nat>)
    requires |gateway| == |ends| == |tids|
  {
    forall a, b :: 0 <= a < b < |tids| && tids[a] == tids[b] ==>
      ends[a] <= gateway[b].start || ends[b] <= gateway[a].start
  }

  /** Engine and gateway spans never share a lane, so the two parts of a layout are apart or not by themselves. */
  lemma DisjointParts(engine: seq<Placed>, gateway: seq<Placed>)
    requires forall i :: 0 <= i < |engine| ==> engine[i].task.pid.Engine?
    requires forall i :: 0 <= i < |gateway| ==> gateway[i].task.pid == Smg
    ensures Disjoint(engine + gateway) <==> Disjoint(engine) && Disjoint(gateway)
  {
    var all, n := engine + gateway, |engine|;
    if Disjoint(all) {
      forall i, j | 0 <= i < j < |engine| && SameLane(engine[i], engine[j])
        ensures Apart(engine[i].task, engine[j].task)
      {
        assert SameLane(all[i], all[j]);
      }
      forall i, j | 0 <= i < j < |gateway| && SameLane(gateway[i], gateway[j])
        ensures Apart(gateway[i].task, gateway[j].task)
      {
        assert SameLane(all[n + i], all[n + j]);
      }
    }
    if Disjoint(engine) && Disjoint(gateway) {
      forall i, j | 0 <= i < j < |all| && SameLane(all[i], all[j]) ensures Apart(all[i].task, all[j].task) {
        if j < n { assert SameLane(engine[i], engine[j]); }
        if i >= n { assert SameLane(gateway[i - n], gateway[j - n]); }
      }
    }
  }

  lemma GatewayApartIff(placed: seq<Placed>, gateway: seq<Interval>, ends: seq<int>, tids: seq<nat>)
    requires |placed| == |gateway| == |ends| == |tids|
    requires var tasks := GatewayTasks(gateway, ends);
      forall g :: 0 <= g < |tasks| ==> placed[g] == Placed(tasks[g], tids[g])
    ensures GatewayApart(gateway, ends, tids) <==> Disjoint(placed)
  {
    if GatewayApart(gateway, ends, tids) {
      forall i, j | 0 <= i < j < |placed| && SameLane(placed[i], placed[j])
        ensures Apart(placed[i].task, placed[j].task)
      {
        assert tids[i] == tids[j];
      }
    }
    if Disjoint(placed) {
      forall i, j | 0 <= i < j < |tids| && tids[i] == tids[j]
        ensures ends[i] <= gateway[j].start || ends[j] <= gateway[i].start
      {
        assert SameLane(placed[i], placed[j]);
      }
    }
  }

  /** The slots announce the gateway lanes 1..n, each once. */
  ghost predicate Announces(slots: seq<Slot>, n: nat) {
    forall line: nat :: multiset(slots)[Slot(Smg, line)] == if 1 <= line <= n then 1 else 0
  }

  /** As many gateway lanes are announced as the busiest instant demands. */
  ghost predicate LanesOnDemand(slots: seq<Slot>, tasks: seq<Task>) {
    exists n: nat :: Announces(slots, n)
      && (forall time :: |Demand(tasks, time)| <= n) && exists time :: |Demand(tasks, time)| == n
  }

  // ---- the whole ----------------------------------------------------------------------------------

  /** All requests of the layout: those of the engine, and the gateway spans as the last. */
  function AllRequests(spans: seq<RawSpan>, t: Times, ends: seq<int>, order: seq<seq<nat>>, gateway: seq<Task>)
    : seq<seq<Task>>
    requires |t.starts| == |t.pids| == |ends| == |spans| && InRange(spans, order)
  {
    Requests(spans, t, ends, order) + [gateway]
  }

  /** What the converter puts out: adjusted end times and lane numbers of the engine and of the gateway spans, and the
      announced lanes. */
  datatype Converted = Converted(ends: seq<int>, tids: seq<nat>, gatewayEnds: seq<int>, gatewayTids: seq<nat>,
                                 slots: seq<Slot>)

  /** The conversion, the layout and the lane numbers, for any order of the requests, of the spans in them and of the
      gateway spans. Every span two or more levels below a root, and every gateway span, ends a microsecond earlier;
      everything under a top lies on the lane of the top; each lane in use is announced once under its process, and no
      other; spans on one lane of one process are apart exactly if every placement was safe; and then gateway spans in
      start order get as many lanes as the busiest instant demands. */
  method Convert(spans: seq<RawSpan>, t: Times, order: seq<seq<nat>>, gateway: seq<Interval>) returns (c: Converted)
    requires Matches(spans, t) && multiset(Flat<nat>(order)) == multiset(Tops(spans))
    ensures InRange(spans, order) && |c.ends| == |c.tids| == |spans| && |c.gatewayEnds| == |c.gatewayTids| == |gateway|
    ensures forall u :: 0 <= u < |spans| ==> c.ends[u] == if Deep(spans, u) then t.ends[u] - 1000 else t.ends[u]
    ensures forall g :: 0 <= g < |gateway| ==> c.gatewayEnds[g] == gateway[g].end - 1000
    ensures OnOneLane(spans, c.tids) && SlotsFit(spans, t, c.tids, c.gatewayTids, c.slots)
    ensures var tasks := GatewayTasks(gateway, c.gatewayEnds);
      var safe := SafeLayout(AllRequests(spans, t, c.ends, order, tasks));
      && (safe <==> TopsApart(spans, t, c.ends, c.tids) && GatewayApart(gateway, c.gatewayEnds, c.gatewayTids))
      && (safe && InStartOrder(tasks) ==> LanesOnDemand(c.slots, tasks))
  {
    hide Deep, TopsApart, OnOneLane, SafeLayout, Requests, Tops, GatewayApart, LanesOnDemand, InStartOrder;
    hide SlotsFit;
    var s := ConvertSpans(spans, t.ends);
    var ends := s.ends[..];
    var gatewayEnds := ConvertGateway(gateway);
    OrderInRange(spans, order);
    var tasks := GatewayTasks(gateway, gatewayEnds);
    var lines, slots := LayLines(AllRequests(spans, t, ends, order, tasks));
    var flat := Flat<nat>(order);
    FlatOfAll(spans, t, ends, order, tasks);
    s.SetTids(flat, lines[..|flat|]);
    var tids, gatewayTids := s.tids[..], lines[|flat|..];
    Conclude(spans, t, ends, order, gateway, gatewayEnds, lines, slots, tids);
    c := Converted(ends, tids, gatewayEnds, gatewayTids, slots);
  }

  /** The tree and the conversion. */
  method ConvertSpans(spans: seq<RawSpan>, ends: seq<int>) returns (s: Spans)
    requires |ends| == |spans|
    ensures s.Valid() && s.spans == spans && fresh(s) && fresh(s.ends) && fresh(s.tids)
    ensures forall u :: 0 <= u < |spans| ==> s.ends[u] == ends[u] - ADJUSTMENT * Once(Deep(spans, u))
  {
    hide Deep, Once, Tops, Children;
    var roots, child := BuildTree(spans);
    s := new Spans(spans, child, ends);
    assert forall u :: 0 <= u < |spans| ==> s.ends[u] == s.ends[..][u];
    var tops := s.ConvertAll(roots);
  }

  /** The loop over the gateway spans. */
  method ConvertGateway(gateway: seq<Interval>) returns (ends: seq<int>)
    ensures |ends| == |gateway| && forall g :: 0 <= g < |gateway| ==> ends[g] == gateway[g].end - ADJUSTMENT
  {
    ends := [];
    for g := 0 to |gateway|
      invariant |ends| == g && forall i :: 0 <= i < g ==> ends[i] == gateway[i].end - ADJUSTMENT
    {
      ends := ends + [gateway[g].end - ADJUSTMENT];
    }
  }

  /** The layout pass, the lane numbers it gives and the lanes it announces. */
  method LayLines(requests: seq<seq<Task>>) returns (lines: seq<nat>, slots: seq<Slot>)
    ensures LinesOf(LayOut(requests).placed, lines) && |lines| == |Flat<Task>(requests)|
    ensures slots == LayOut(requests).slots
  {
    LayoutPlacesAll(requests);
    hide LayOut, Formed;
    var pass := new LayoutPass();
    pass.Generate(requests);
    var placed := pass.placed;
    lines := seq(|placed|, i requires 0 <= i < |placed| => placed[i].line);
    slots := pass.slots;
  }

  lemma OrderInRange(spans: seq<RawSpan>, order: seq<seq<nat>>)
    requires multiset(Flat<nat>(order)) == multiset(Tops(spans))
    ensures InRange(spans, order)
  {
    hide Tops, IsTop;
    OrdersAreTops(spans, Flat<nat>(order));
    TopsInRange(spans);
    FlatRange(spans, order);
  }

  lemma FlatOfAll(spans: seq<RawSpan>, t: Times, ends: seq<int>, order: seq<seq<nat>>, gateway: seq<Task>)
    requires |t.starts| == |t.pids| == |ends| == |spans| && InRange(spans, order)
    ensures var engine := Flat<Task>(Requests(spans, t, ends, order));
      && |engine| == |Flat<nat>(order)|
      && Flat<Task>(AllRequests(spans, t, ends, order, gateway)) == engine + gateway
  {
    hide Requests;
    FlatRequests(spans, t, ends, order);
    var requests := Requests(spans, t, ends, order);
    assert (requests + [gateway])[..|requests|] == requests;
  }

  lemma {:induction false} EngineRequests(spans: seq<RawSpan>, t: Times, ends: seq<int>, order: seq<seq<nat>>)
    requires |t.starts| == |t.pids| == |ends| == |spans| && InRange(spans, order)
    ensures forall r :: r in Requests(spans, t, ends, order) ==> EngineSpans(r)
  {
    if order != [] {
      var n := |order| - 1;
      assert order[n] in order && forall x :: x in order[..n] ==> x in order;
      EngineRequests(spans, t, ends, order[..n]);
      assert EngineSpans(TasksOf(spans, t, ends, order[n]));
    }
  }

  lemma AnnouncedOnDemand(spans: seq<RawSpan>, t: Times, ends: seq<int>, order: seq<seq<nat>>, tasks: seq<Task>)
    requires |t.starts| == |t.pids| == |ends| == |spans| && InRange(spans, order)
    requires Gateway(tasks) && InStartOrder(tasks) && SafeLayout(AllRequests(spans, t, ends, order, tasks))
    ensures LanesOnDemand(LayOut(AllRequests(spans, t, ends, order, tasks)).slots, tasks)
  {
    hide Requests, SafeLayout, LayOut, Demand;
    EngineRequests(spans, t, ends, order);
    TraceLayout(Requests(spans, t, ends, order), tasks);
    var l := LayOut(AllRequests(spans, t, ends, order, tasks));
    var n := |Lanes(l, Smg)|;
    assert Announces(l.slots, n);
  }

  lemma IsEngine(spans: seq<RawSpan>, t: Times, ends: seq<int>, k: nat)
    requires |t.starts| == |t.pids| == |ends| == |spans| && k < |spans|
    ensures TaskOf(spans, t, ends, k).pid.Engine?
  {}

  /** The engine's part and the gateway's part of what was placed. */
  lemma PartsOf(placed: seq<Placed>, lines: seq<nat>, engine: seq<Task>, tasks: seq<Task>)
    requires TasksIn(placed) == engine + tasks && LinesOf(placed, lines)
    ensures |placed| == |engine| + |tasks| && placed == placed[..|engine|] + placed[|engine|..]
    ensures forall i :: 0 <= i < |engine| ==> placed[..|engine|][i] == Placed(engine[i], lines[i])
    ensures forall g :: 0 <= g < |tasks| ==> placed[|engine|..][g] == Placed(tasks[g], lines[|engine|..][g])
  {
    forall i | 0 <= i < |placed| ensures placed[i] == Placed((engine + tasks)[i], lines[i]) {
      assert TasksIn(placed)[i] == placed[i].task;
    }
  }

  /** The tops are apart exactly if the engine's part of the layout is. */
  lemma TopsApartIff(spans: seq<RawSpan>, t: Times, ends: seq<int>, flat: seq<nat>, lines: seq<nat>,
                     placed: seq<Placed>, tids: seq<nat>)
    requires Matches(spans, t) && |ends| == |tids| == |spans| && |flat| == |lines| == |placed|
    requires multiset(flat) == multiset(Tops(spans)) && Painted(spans, flat, lines, |flat|, tids)
    requires forall i :: 0 <= i < |flat| ==>
      flat[i] < |spans| && placed[i] == Placed(TaskOf(spans, t, ends, flat[i]), lines[i])
    ensures TopsApart(spans, t, ends, tids) <==> Disjoint(placed)
    ensures forall i :: 0 <= i < |placed| ==> placed[i].task.pid.Engine?
  {
    hide Tops, IsTop, Painted, TaskOf, TopsApart, Disjoint;
    OrdersAreTops(spans, flat);
    OrderHasNoRepeat(spans, flat);
    forall i | 0 <= i < |flat| ensures tids[flat[i]] == placed[i].line && placed[i].task.pid.Engine? {
      PaintedLanes(spans, flat, lines, tids, i);
      IsEngine(spans, t, ends, flat[i]);
    }
    forall k: nat | IsTop(spans, k) ensures k in flat { var i := TopIsListed(spans, flat, k); }
    ApartIffDisjoint(spans, t, ends, flat, placed, tids);
  }

  /** The tops and the gateway spans are apart exactly if every placement of the layout was safe. */
  lemma ApartIffSafe(spans: seq<RawSpan>, t: Times, ends: seq<int>, order: seq<seq<nat>>, gateway: seq<Interval>,
                     gatewayEnds: seq<int>, lines: seq<nat>, tids: seq<nat>)
    requires Matches(spans, t) && |ends| == |tids| == |spans| && InRange(spans, order) && |gateway| == |gatewayEnds|
    requires multiset(Flat<nat>(order)) == multiset(Tops(spans))
    requires LinesOf(LayOut(AllRequests(spans, t, ends, order, GatewayTasks(gateway, gatewayEnds))).placed, lines)
    requires var n := |Flat<nat>(order)|;
      |lines| == n + |gateway| && Painted(spans, Flat<nat>(order), lines[..n], n, tids)
    ensures TopsApart(spans, t, ends, tids) && GatewayApart(gateway, gatewayEnds, lines[|Flat<nat>(order)|..]) <==>
      SafeLayout(AllRequests(spans, t, ends, order, GatewayTasks(gateway, gatewayEnds)))
  {
    hide Tops, Painted, TaskOf, LayOut, SafeLayout, Requests, AllRequests, TopsApart, GatewayApart, Disjoint;
    var tasks := GatewayTasks(gateway, gatewayEnds);
    var flat, requests := Flat<nat>(order), AllRequests(spans, t, ends, order, tasks);
    var n, placed := |flat|, LayOut(requests).placed;
    LayoutPlacesAll(requests);
    FlatOfAll(spans, t, ends, order, tasks);
    FlatRequests(spans, t, ends, order);
    PartsOf(placed, lines, Flat<Task>(Requests(spans, t, ends, order)), tasks);
    TopsApartIff(spans, t, ends, flat, lines[..n], placed[..n], tids);
    GatewayApartIff(placed[n..], gateway, gatewayEnds, lines[n..]);
    DisjointParts(placed[..n], placed[n..]);
    LayoutDisjointIff(requests);
  }

  /** A lane is in use by the engine's part or by the gateway's part of the layout, depending on the process. */
  lemma UsedParts(engine: seq<Placed>, gateway: seq<Placed>, p: Pid, line: nat)
    requires forall i :: 0 <= i < |engine| ==> engine[i].task.pid.Engine?
    requires forall i :: 0 <= i < |gateway| ==> gateway[i].task.pid == Smg
    ensures Used(engine + gateway, p, line) <==> if p.Smg? then Used(gateway, p, line) else Used(engine, p, line)
  {
    var all, n := engine + gateway, |engine|;
    if Used(engine, p, line) {
      var i :| 0 <= i < n && engine[i].task.pid == p && engine[i].line == line;
      assert all[i] == engine[i];
    }
    if Used(gateway, p, line) {
      var i :| 0 <= i < |gateway| && gateway[i].task.pid == p && gateway[i].line == line;
      assert all[n + i] == gateway[i];
    }
  }

  lemma UsedByTops(spans: seq<RawSpan>, t: Times, ends: seq<int>, flat: seq<nat>, lines: seq<nat>,
                   placed: seq<Placed>, tids: seq<nat>, pid: int, line: nat)
    requires Matches(spans, t) && |ends| == |tids| == |spans| && |flat| == |lines| == |placed|
    requires multiset(flat) == multiset(Tops(spans)) && Painted(spans, flat, lines, |flat|, tids)
    requires forall i :: 0 <= i < |flat| ==>
      flat[i] < |spans| && placed[i] == Placed(TaskOf(spans, t, ends, flat[i]), lines[i])
    ensures Used(placed, Engine(pid), line) <==> TopOn(spans, t, tids, pid, line)
  {
    hide Tops, IsTop, Painted, TaskOf;
    OrdersAreTops(spans, flat);
    if Used(placed, Engine(pid), line) {
      var i :| 0 <= i < |placed| && placed[i].task.pid == Engine(pid) && placed[i].line == line;
      PaintedLanes(spans, flat, lines, tids, i);
      TopTask(spans, t, ends, flat[i]);
      assert TopOn(spans, t, tids, pid, line);
    }
    if TopOn(spans, t, tids, pid, line) {
      TopsInRange(spans);
      var k: nat :| IsTop(spans, k) && t.pids[Parent(spans, k)] == pid && tids[k] == line;
      var i := TopIsListed(spans, flat, k);
      PaintedLanes(spans, flat, lines, tids, i);
      TopTask(spans, t, ends, k);
      assert placed[i].task.pid == Engine(pid) && placed[i].line == line;
    }
  }

  lemma UsedByGateway(placed: seq<Placed>, tids: seq<nat>, line: nat)
    requires |placed| == |tids|
    requires forall g :: 0 <= g < |placed| ==> placed[g].task.pid == Smg && placed[g].line == tids[g]
    ensures Used(placed, Smg, line) <==> line in tids
  {
    if line in tids {
      var g :| 0 <= g < |tids| && tids[g] == line;
      assert placed[g].line == line;
    }
  }

  /** The same for the two parts of a layout whose announced lanes are those in use. */
  lemma SlotsOfParts(spans: seq<RawSpan>, t: Times, ends: seq<int>, flat: seq<nat>, lines: seq<nat>, tids: seq<nat>,
                     engine: seq<Placed>, gateway: seq<Placed>, gatewayTids: seq<nat>, slots: seq<Slot>)
    requires Matches(spans, t) && |ends| == |tids| == |spans| && |flat| == |lines| == |engine|
    requires multiset(flat) == multiset(Tops(spans)) && Painted(spans, flat, lines, |flat|, tids)
    requires forall i :: 0 <= i < |flat| ==>
      flat[i] < |spans| && engine[i] == Placed(TaskOf(spans, t, ends, flat[i]), lines[i])
    requires |gateway| == |gatewayTids|
    requires forall g :: 0 <= g < |gateway| ==> gateway[g].task.pid == Smg && gateway[g].line == gatewayTids[g]
    requires forall p, line: nat :: multiset(slots)[Slot(p, line)] == if Used(engine + gateway, p, line) then 1 else 0
    ensures SlotsFit(spans, t, tids, gatewayTids, slots)
  {
    hide Tops, Painted, TaskOf, Used, TopOn, SlotsFit;
    forall i | 0 <= i < |engine| ensures engine[i].task.pid.Engine? { IsEngine(spans, t, ends, flat[i]); }
    forall pid, line: nat
      ensures multiset(slots)[Slot(Engine(pid), line)] == if TopOn(spans, t, tids, pid, line) then 1 else 0
    {
      UsedParts(engine, gateway, Engine(pid), line);
      UsedByTops(spans, t, ends, flat, lines, engine, tids, pid, line);
    }
    forall line: nat ensures multiset(slots)[Slot(Smg, line)] == if line in gatewayTids then 1 else 0 {
      UsedParts(engine, gateway, Smg, line);
      UsedByGateway(gateway, gatewayTids, line);
    }
    SlotsFitBy(spans, t, tids, gatewayTids, slots);
  }

  lemma SlotsFitBy(spans: seq<RawSpan>, t: Times, tids: seq<nat>, gatewayTids: seq<nat>, slots: seq<Slot>)
    requires |t.pids| == |tids| == |spans|
    requires forall pid, line: nat ::
      multiset(slots)[Slot(Engine(pid), line)] == if TopOn(spans, t, tids, pid, line) then 1 else 0
    requires forall line: nat :: multiset(slots)[Slot(Smg, line)] == if line in gatewayTids then 1 else 0
    ensures SlotsFit(spans, t, tids, gatewayTids, slots)
  {
    hide TopOn;
  }

  /** The announced lanes are the ones the spans are drawn on. */
  lemma AnnouncedInUse(spans: seq<RawSpan>, t: Times, ends: seq<int>, order: seq<seq<nat>>, tasks: seq<Task>,
                       lines: seq<nat>, tids: seq<nat>)
    requires Matches(spans, t) && |ends| == |tids| == |spans| && InRange(spans, order) && Gateway(tasks)
    requires multiset(Flat<nat>(order)) == multiset(Tops(spans))
    requires LinesOf(LayOut(AllRequests(spans, t, ends, order, tasks)).placed, lines)
    requires var n := |Flat<nat>(order)|;
      |lines| == n + |tasks| && Painted(spans, Flat<nat>(order), lines[..n], n, tids)
    ensures var l := LayOut(AllRequests(spans, t, ends, order, tasks));
      SlotsFit(spans, t, tids, lines[|Flat<nat>(order)|..], l.slots)
  {
    hide Tops, Painted, TaskOf, LayOut, Requests, AllRequests, Used, TopOn, SlotsFit;
    var flat, requests := Flat<nat>(order), AllRequests(spans, t, ends, order, tasks);
    var n, l := |flat|, LayOut(requests);
    LayoutPlacesAll(requests);
    FlatOfAll(spans, t, ends, order, tasks);
    FlatRequests(spans, t, ends, order);
    PartsOf(l.placed, lines, Flat<Task>(Requests(spans, t, ends, order)), tasks);
    forall p, line: nat ensures multiset(l.slots)[Slot(p, line)] == if Used(l.placed, p, line) then 1 else 0 {
      SlotsAreTheLanesInUse(requests, p, line);
    }
    SlotsOfParts(spans, t, ends, flat, lines[..n], tids, l.placed[..n], l.placed[n..], lines[n..], l.slots);
  }

  lemma Conclude(spans: seq<RawSpan>, t: Times, ends: seq<int>, order: seq<seq<nat>>, gateway: seq<Interval>,
                 gatewayEnds: seq<int>, lines: seq<nat>, slots: seq<Slot>, tids: seq<nat>)
    requires Matches(spans, t) && |ends| == |tids| == |spans| && InRange(spans, order) && |gateway| == |gatewayEnds|
    requires multiset(Flat<nat>(order)) == multiset(Tops(spans))
    requires LinesOf(LayOut(AllRequests(spans, t, ends, order, GatewayTasks(gateway, gatewayEnds))).placed, lines)
    requires slots == LayOut(AllRequests(spans, t, ends, order, GatewayTasks(gateway, gatewayEnds))).slots
    requires var n := |Flat<nat>(order)|;
      |lines| == n + |gateway| && Painted(spans, Flat<nat>(order), lines[..n], n, tids)
    ensures OnOneLane(spans, tids) && SlotsFit(spans, t, tids, lines[|Flat<nat>(order)|..], slots)
    ensures var tasks := GatewayTasks(gateway, gatewayEnds);
      var safe := SafeLayout(AllRequests(spans, t, ends, order, tasks));
      && (safe <==>
            TopsApart(spans, t, ends, tids) && GatewayApart(gateway, gatewayEnds, lines[|Flat<nat>(order)|..]))
      && (safe && InStartOrder(tasks) ==> LanesOnDemand(slots, tasks))
  {
    hide Tops, Painted, LayOut, SafeLayout, AllRequests, InStartOrder;
    hide TopsApart, GatewayApart, LanesOnDemand, OnOneLane, SlotsFit;
    var flat, tasks := Flat<nat>(order), GatewayTasks(gateway, gatewayEnds);
    SubtreesOnOneLane(spans, flat, lines[..|flat|], tids);
    ApartIffSafe(spans, t, ends, order, gateway, gatewayEnds, lines, tids);
    AnnouncedInUse(spans, t, ends, order, tasks, lines, tids);
    if SafeLayout(AllRequests(spans, t, ends, order, tasks)) && InStartOrder(tasks) {
      AnnouncedOnDemand(spans, t, ends, order, tasks);
    }
  }
}
