/** Disjointness of the lanes: what every placement keeps, and exactly when it is lost. */
module LaneProofs {
  import opened SpanLayout
  import opened LaneAllocator

  lemma {:induction false} PlacedOnNothing(placed: seq<Placed>, p: Pid, line: nat)
    requires forall x :: x in placed ==> x.task.pid != p || x.line != line
    ensures PlacedOn(placed, p, line) == multiset{}
  {
    if placed != [] {
      assert placed[|placed| - 1] in placed;
      PlacedOnNothing(placed[..|placed| - 1], p, line);
    }
  }

  lemma {:induction false} PlacedOnHas(placed: seq<Placed>, x: Placed)
    requires x in placed
    ensures Span(x.task) in PlacedOn(placed, x.task.pid, x.line)
  {
    var n := |placed| - 1;
    if placed[n] != x {
      assert x in placed[..n];
      PlacedOnHas(placed[..n], x);
    }
  }

  lemma PlacedOnGrows(placed: seq<Placed>, x: Placed, p: Pid, line: nat)
    ensures PlacedOn(placed + [x], p, line)
         == PlacedOn(placed, p, line) + if x.task.pid == p && x.line == line then multiset{Span(x.task)} else multiset{}
  {
    assert (placed + [x])[..|placed|] == placed;
  }

  // ---- opening a lane -------------------------------------------------------------------------

  /** A lane of the opened layout is an old one, or the new empty one. */
  lemma OpenedLane(l: Layout, p: Pid, q: Pid, i: nat)
    requires q in OpenLane(l, p).graph && i < |OpenLane(l, p).graph[q]|
    ensures if q == p && i == |Lanes(l, p)| then OpenLane(l, p).graph[q][i].intervals == []
            else q in l.graph && i < |l.graph[q]| && OpenLane(l, p).graph[q][i] == l.graph[q][i]
  {}

  lemma OpenLaneKeepsContents(l: Layout, p: Pid)
    requires Contents(l)
    ensures Contents(OpenLane(l, p))
  {
    var l' := OpenLane(l, p);
    PlacedOnNothing(l.placed, p, |Lanes(l, p)| + 1);
    assert l'.placed == l.placed;
    forall x | x in l'.placed ensures x.task.pid in l'.graph && 1 <= x.line <= |l'.graph[x.task.pid]| {
      assert x in l.placed;
    }
    hide PlacedOn, OpenLane;
    forall q, i | q in l'.graph && 0 <= i < |l'.graph[q]|
      ensures multiset(l'.graph[q][i].intervals) == PlacedOn(l'.placed, q, i + 1)
    {
      OpenedLane(l, p, q, i);
    }
  }

  lemma OpenLaneKeepsChains(l: Layout, p: Pid)
    requires Chained(l)
    ensures Chained(OpenLane(l, p))
  {
    hide OpenLane, Chain;
    EmptyChain();
    var l' := OpenLane(l, p);
    forall q, i | q in l'.graph && 0 <= i < |l'.graph[q]| ensures Chain(l'.graph[q][i].intervals) {
      OpenedLane(l, p, q, i);
    }
  }

  lemma OpenLaneKeeps(l: Layout, p: Pid)
    requires LaidOut(l)
    ensures LaidOut(OpenLane(l, p))
  {
    hide Contents, Chained, Disjoint, Announced, Formed;
    OpenLaneFormed(l, p);
    OpenLaneKeepsContents(l, p);
    OpenLaneKeepsChains(l, p);
    LanesAreOpen(l, p);
    OpenLaneAnnounces(l, p);
  }

  lemma LanesAreOpen(l: Layout, p: Pid)
    requires Formed(l)
    ensures p in l.graph ==> |l.graph[p]| > 0
  {}

  lemma OpenLaneAnnounces(l: Layout, p: Pid)
    requires Announced(l)
    requires p in l.graph ==> |l.graph[p]| > 0
    ensures Announced(OpenLane(l, p))
  {
    var l' := OpenLane(l, p);
    assert multiset(l'.slots) == multiset(l.slots) + multiset{Slot(p, |Lanes(l, p)| + 1)};
    forall q, line: nat
      ensures multiset(l'.slots)[Slot(q, line)] == if q in l'.graph && 1 <= line <= |l'.graph[q]| then 1 else 0
    {
      assert multiset(l.slots)[Slot(q, line)] == if q in l.graph && 1 <= line <= |l.graph[q]| then 1 else 0;
    }
  }

  lemma FindLineKeeps(l: Layout, t: Task)
    requires LaidOut(l)
    ensures LaidOut(FindLine(l, t).0)
  {
    OpenLaneKeeps(l, t.pid);
  }

  // ---- the announced lanes are the ones in use -------------------------------------------------

  /** Some span was given lane `line` of process `p`. */
  ghost predicate Used(placed: seq<Placed>, p: Pid, line: nat) {
    exists i :: 0 <= i < |placed| && placed[i].task.pid == p && placed[i].line == line
  }

  ghost predicate Opened(l: Layout, p: Pid, line: nat) {
    p in l.graph && 1 <= line <= |l.graph[p]|
  }

  /** A lane is open exactly if a span was put on it. */
  ghost predicate InUse(l: Layout) {
    forall p, line: nat :: Used(l.placed, p, line) <==> Opened(l, p, line)
  }

  lemma UsedGrows(placed: seq<Placed>, x: Placed, p: Pid, line: nat)
    ensures Used(placed + [x], p, line) <==> Used(placed, p, line) || (x.task.pid == p && x.line == line)
  {
    var all := placed + [x];
    if Used(placed, p, line) {
      var i :| 0 <= i < |placed| && placed[i].task.pid == p && placed[i].line == line;
      assert all[i] == placed[i];
    }
    if x.task.pid == p && x.line == line { assert all[|placed|] == x; }
  }

  lemma FoundLane(l: Layout, t: Task, p: Pid, line: nat)
    requires Formed(l)
    ensures Opened(FindLine(l, t).0, p, line) <==> Opened(l, p, line) || (p == t.pid && line == FindLine(l, t).1)
  {
    hide FirstFit, CheckOverlap, Sorted;
  }

  lemma PlaceKeepsAnnounced(l: Layout, t: Task)
    requires Formed(l) && Announced(l) && InUse(l)
    ensures Announced(Place(l, t)) && InUse(Place(l, t))
  {
    hide Announced, Formed, FindLine, InsertSpan, Opened, Used;
    var (found, line) := FindLine(l, t);
    var l' := Place(l, t);
    FindLineAnnounces(l, t);
    InsertAnnounces(found, t, line);
    forall p, k: nat ensures Used(l'.placed, p, k) <==> Opened(l', p, k) {
      UsedGrows(l.placed, Placed(t, line), p, k);
      FoundLane(l, t, p, k);
      InsertKeepsOpened(found, t, line, p, k);
    }
  }

  lemma FindLineAnnounces(l: Layout, t: Task)
    requires Formed(l) && Announced(l)
    ensures Announced(FindLine(l, t).0)
  {
    OpenLaneAnnounces(l, t.pid);
    hide FirstFit, CheckOverlap, Sorted, OpenLane;
  }

  lemma InsertKeepsOpened(l: Layout, t: Task, line: nat, p: Pid, k: nat)
    requires Formed(l) && t.pid in l.graph && 1 <= line <= |l.graph[t.pid]|
    ensures InsertSpan(l, t, line).placed == l.placed + [Placed(t, line)]
    ensures Opened(InsertSpan(l, t, line), p, k) <==> Opened(l, p, k)
  {
    hide Insort;
  }

  lemma InsertAnnounces(l: Layout, t: Task, line: nat)
    requires Formed(l) && t.pid in l.graph && 1 <= line <= |l.graph[t.pid]| && Announced(l)
    ensures Announced(InsertSpan(l, t, line))
  {
    var l' := InsertSpan(l, t, line);
    forall q, line: nat
      ensures multiset(l'.slots)[Slot(q, line)] == if q in l'.graph && 1 <= line <= |l'.graph[q]| then 1 else 0
    {
      assert multiset(l.slots)[Slot(q, line)] == if q in l.graph && 1 <= line <= |l.graph[q]| then 1 else 0;
    }
  }

  lemma {:induction false} PlaceAllAnnounces(l: Layout, tasks: seq<Task>)
    requires Formed(l) && Announced(l) && InUse(l)
    ensures Announced(PlaceAll(l, tasks)) && InUse(PlaceAll(l, tasks))
  {
    hide Formed, Announced, InUse, Place;
    if tasks != [] {
      PlaceAllAnnounces(l, tasks[..|tasks| - 1]);
      PlaceKeepsAnnounced(PlaceAll(l, tasks[..|tasks| - 1]), tasks[|tasks| - 1]);
    }
  }

  lemma ResetKeepsAnnounced(l: Layout)
    requires Announced(l) && InUse(l)
    ensures Announced(l.(sticky := map[])) && InUse(l.(sticky := map[]))
  {
    assert forall p, line: nat :: Opened(l.(sticky := map[]), p, line) <==> Opened(l, p, line);
  }

  lemma {:induction false} LayoutAnnounces(requests: seq<seq<Task>>)
    ensures Announced(LayOut(requests)) && InUse(LayOut(requests))
  {
    if requests != [] {
      hide Announced, InUse, Formed, PlaceAll;
      var before := LayOut(requests[..|requests| - 1]);
      LayoutAnnounces(requests[..|requests| - 1]);
      ResetKeepsAnnounced(before);
      PlaceAllAnnounces(before.(sticky := map[]), requests[|requests| - 1]);
    }
  }

  /** Safe or not, a layout announces every lane it uses exactly once, and no other. */
  lemma SlotsAreTheLanesInUse(requests: seq<seq<Task>>, p: Pid, line: nat)
    ensures var l := LayOut(requests);
      multiset(l.slots)[Slot(p, line)] == if Used(l.placed, p, line) then 1 else 0
  {
    hide LayOut, Used, Formed;
    LayoutAnnounces(requests);
    assert Used(LayOut(requests).placed, p, line) <==> Opened(LayOut(requests), p, line);
  }

  // ---- placing a span -------------------------------------------------------------------------

  /** An empty span that skips the test must not fall strictly inside a span of its lane. */
  ghost predicate Safe(l: Layout, t: Task)
    requires Formed(l)
  {
    t.pid in l.sticky && t.start == t.end ==>
      var iv := l.graph[t.pid][l.sticky[t.pid] - 1].intervals;
      !exists i :: 0 <= i < |iv| && iv[i].start < t.start < iv[i].end
  }

  ghost function LaneFor(l: Layout, t: Task): seq<Interval>
    requires Formed(l)
  {
    var (found, line) := FindLine(l, t);
    found.graph[t.pid][line - 1].intervals
  }

  /** The lane found has room for the span exactly when the placement is safe. */
  lemma LaneIsClearIff(l: Layout, t: Task)
    requires Formed(l) && Chained(l)
    ensures Sorted(LaneFor(l, t)) && Chain(LaneFor(l, t))
    ensures Safe(l, t) <==> !CheckOverlap(LaneFor(l, t), t.start, t.end)
  {
    LaneForIsSorted(l, t);
    if t.pid in l.sticky && t.start == t.end {
      assert LaneFor(l, t) == l.graph[t.pid][l.sticky[t.pid] - 1].intervals;
      NeighboursDecide(LaneFor(l, t), t.start, t.end);
    }
  }

  lemma LaneForIsSorted(l: Layout, t: Task)
    requires Formed(l) && Chained(l)
    ensures Sorted(LaneFor(l, t)) && Chain(LaneFor(l, t))
  {
    hide Sorted, CheckOverlap, FirstFit, Chain;
    var (found, line) := FindLine(l, t);
    assert found.graph[t.pid][line - 1].intervals == LaneFor(l, t);
    assert Chain([]) by { EmptyChain(); }
  }

  lemma EmptyChain()
    ensures Chain([]) && Sorted([])
  {}

  lemma ClearMeansApart(l: Layout, t: Task, line: nat)
    requires Formed(l) && Contents(l) && Chained(l) && t.pid in l.graph && 1 <= line <= |l.graph[t.pid]|
    ensures !CheckOverlap(l.graph[t.pid][line - 1].intervals, t.start, t.end) ==>
      forall x :: x in l.placed && x.task.pid == t.pid && x.line == line ==> Apart(x.task, t)
  {
    var iv := l.graph[t.pid][line - 1].intervals;
    NeighboursDecide(iv, t.start, t.end);
    forall x | x in l.placed && x.task.pid == t.pid && x.line == line && !CheckOverlap(iv, t.start, t.end)
      ensures Apart(x.task, t)
    {
      PlacedOnHas(l.placed, x);
      assert Span(x.task) in multiset(iv);
      var i :| 0 <= i < |iv| && iv[i] == Span(x.task);
      assert !Conflicts(iv[i], t.start, t.end);
    }
  }

  lemma InsertKeepsLane(l: Layout, t: Task, line: nat, p: Pid, i: nat)
    requires Formed(l) && t.pid in l.graph && 1 <= line <= |l.graph[t.pid]| && p in l.graph && i < |l.graph[p]|
    requires multiset(l.graph[p][i].intervals) == PlacedOn(l.placed, p, i + 1)
    ensures multiset(InsertSpan(l, t, line).graph[p][i].intervals) == PlacedOn(InsertSpan(l, t, line).placed, p, i + 1)
  {
    hide PlacedOn, Formed;
    PlacedOnGrows(l.placed, Placed(t, line), p, i + 1);
  }

  lemma InsertKeepsContents(l: Layout, t: Task, line: nat)
    requires Formed(l) && Contents(l) && t.pid in l.graph && 1 <= line <= |l.graph[t.pid]|
    ensures Contents(InsertSpan(l, t, line))
  {
    hide PlacedOn, Formed, Insort;
    var l' := InsertSpan(l, t, line);
    forall p, i | p in l'.graph && 0 <= i < |l'.graph[p]|
      ensures multiset(l'.graph[p][i].intervals) == PlacedOn(l'.placed, p, i + 1)
    {
      InsertKeepsLane(l, t, line, p, i);
    }
    forall x | x in l'.placed ensures x.task.pid in l'.graph && 1 <= x.line <= |l'.graph[x.task.pid]| {
      assert x in l.placed || x == Placed(t, line);
    }
  }

  lemma InsertKeeps(l: Layout, t: Task, line: nat)
    requires LaidOut(l) && t.pid in l.graph && 1 <= line <= |l.graph[t.pid]|
    requires !CheckOverlap(l.graph[t.pid][line - 1].intervals, t.start, t.end)
    ensures LaidOut(InsertSpan(l, t, line))
  {
    var l' := InsertSpan(l, t, line);
    InsertKeepsContents(l, t, line);
    ClearInsertKeepsChain(l.graph[t.pid][line - 1].intervals, Span(t));
    assert Chained(l');
    ClearMeansApart(l, t, line);
    assert Disjoint(l'.placed) by {
      forall i, j | 0 <= i < j < |l'.placed| && SameLane(l'.placed[i], l'.placed[j])
        ensures Apart(l'.placed[i].task, l'.placed[j].task)
      {
        assert l'.placed[i] == l.placed[i];
        if j == |l.placed| { assert l.placed[i] in l.placed; }
      }
    }
    InsertAnnounces(l, t, line);
  }

  /** A placement keeps every lane disjoint exactly when it is safe. */
  lemma PlaceKeepsIff(l: Layout, t: Task)
    requires LaidOut(l)
    ensures Safe(l, t) ==> LaidOut(Place(l, t))
    ensures Safe(l, t) <==> Disjoint(Place(l, t).placed)
  {
    var (found, line) := FindLine(l, t);
    FindLineKeeps(l, t);
    LaneIsClearIff(l, t);
    if Safe(l, t) {
      InsertKeeps(found, t, line);
    } else {
      UnsafeOverlaps(l, t);
    }
  }

  lemma UnsafeOverlaps(l: Layout, t: Task)
    requires LaidOut(l) && !Safe(l, t)
    ensures !Disjoint(Place(l, t).placed)
  {
    var line := l.sticky[t.pid];
    var iv := l.graph[t.pid][line - 1].intervals;
    var i :| 0 <= i < |iv| && iv[i].start < t.start < iv[i].end;
    assert iv[i] in multiset(iv);
    assert multiset(l.graph[t.pid][line - 1].intervals) == PlacedOn(l.placed, t.pid, line - 1 + 1);
    var k := WasPlaced(l.placed, t.pid, line, iv[i]);
    var placed := Place(l, t).placed;
    assert placed == l.placed + [Placed(t, line)];
    assert SameLane(placed[k], placed[|l.placed|]) && !Apart(placed[k].task, placed[|l.placed|].task);
  }

  lemma {:induction false} WasPlaced(placed: seq<Placed>, p: Pid, line: nat, y: Interval) returns (k: nat)
    requires y in PlacedOn(placed, p, line)
    ensures k < |placed| && placed[k].task.pid == p && placed[k].line == line && Span(placed[k].task) == y
  {
    var n := |placed| - 1;
    var x := placed[n];
    if x.task.pid == p && x.line == line && Span(x.task) == y {
      k := n;
    } else {
      k := WasPlaced(placed[..n], p, line, y);
    }
  }

  // ---- whole layouts --------------------------------------------------------------------------

  /** Every placement of the layout is safe where it is made. */
  ghost predicate SafeAll(l: Layout, tasks: seq<Task>)
    requires Formed(l)
  {
    tasks == [] || (SafeAll(l, tasks[..|tasks| - 1]) && Safe(PlaceAll(l, tasks[..|tasks| - 1]), tasks[|tasks| - 1]))
  }

  ghost predicate SafeLayout(requests: seq<seq<Task>>) {
    if requests == [] then true else
    var front, last := requests[..|requests| - 1], requests[|requests| - 1];
    SafeLayout(front) && SafeAll(LayOut(front).(sticky := map[]), last)
  }

  lemma {:induction false} PlacedOnlyGrows(l: Layout, tasks: seq<Task>)
    requires Formed(l)
    ensures l.placed <= PlaceAll(l, tasks).placed
  {
    if tasks != [] { PlacedOnlyGrows(l, tasks[..|tasks| - 1]); }
  }

  lemma DisjointPrefix(a: seq<Placed>, b: seq<Placed>)
    requires a <= b && Disjoint(b)
    ensures Disjoint(a)
  {
    forall i, j | 0 <= i < j < |a| && SameLane(a[i], a[j]) ensures Apart(a[i].task, a[j].task) {
      assert b[i] == a[i] && b[j] == a[j];
    }
  }

  lemma {:induction false} PlaceAllKeepsIff(l: Layout, tasks: seq<Task>)
    requires LaidOut(l)
    ensures SafeAll(l, tasks) ==> LaidOut(PlaceAll(l, tasks))
    ensures SafeAll(l, tasks) <==> Disjoint(PlaceAll(l, tasks).placed)
  {
    if tasks != [] {
      var front := tasks[..|tasks| - 1];
      PlaceAllKeepsIff(l, front);
      if SafeAll(l, front) {
        PlaceKeepsIff(PlaceAll(l, front), tasks[|tasks| - 1]);
      } else if Disjoint(PlaceAll(l, tasks).placed) {
        DisjointPrefix(PlaceAll(l, front).placed, PlaceAll(l, tasks).placed);
      }
    }
  }

  /** The lanes of a whole layout are disjoint exactly when no empty span was put, untested, strictly inside
      another; and then the lanes of each process are 1..n, one metadata entry each. */
  lemma {:induction false} LayoutDisjointIff(requests: seq<seq<Task>>)
    ensures SafeLayout(requests) ==> LaidOut(LayOut(requests))
    ensures SafeLayout(requests) <==> Disjoint(LayOut(requests).placed)
  {
    if requests != [] {
      var front := requests[..|requests| - 1];
      var before := LayOut(front);
      var start := before.(sticky := map[]);
      LayoutDisjointIff(front);
      if SafeLayout(front) {
        assert LaidOut(start);
        PlaceAllKeepsIff(start, requests[|requests| - 1]);
      } else if Disjoint(LayOut(requests).placed) {
        PlacedOnlyGrows(start, requests[|requests| - 1]);
        DisjointPrefix(before.placed, LayOut(requests).placed);
      }
    }
  }

  ghost predicate NoEmptySpan(tasks: seq<Task>) {
    forall t :: t in tasks ==> t.start != t.end
  }

  lemma {:induction false} NoEmptySpanIsSafe(l: Layout, tasks: seq<Task>)
    requires Formed(l) && NoEmptySpan(tasks)
    ensures SafeAll(l, tasks)
  {
    if tasks != [] {
      assert tasks[|tasks| - 1] in tasks;
      NoEmptySpanIsSafe(l, tasks[..|tasks| - 1]);
    }
  }

  /** Without empty spans every layout is disjoint, even with spans that end before they start. */
  lemma {:induction false} LayoutIsDisjoint(requests: seq<seq<Task>>)
    requires forall r :: r in requests ==> NoEmptySpan(r)
    ensures LaidOut(LayOut(requests))
  {
    SafeWithoutEmptySpans(requests);
    LayoutDisjointIff(requests);
  }

  lemma {:induction false} SafeWithoutEmptySpans(requests: seq<seq<Task>>)
    requires forall r :: r in requests ==> NoEmptySpan(r)
    ensures SafeLayout(requests)
  {
    if requests != [] {
      var front := requests[..|requests| - 1];
      SafeWithoutEmptySpans(front);
      assert requests[|requests| - 1] in requests;
      NoEmptySpanIsSafe(LayOut(front).(sticky := map[]), requests[|requests| - 1]);
    }
  }

  function OneLane(iv: seq<Interval>, placed: seq<Placed>): Layout {
    Layout(map[Smg := [Lane(1, iv)]], map[Smg := 1], [Slot(Smg, 1)], placed)
  }

  lemma StaysOnOneLane(iv: seq<Interval>, placed: seq<Placed>, t: Task)
    requires Sorted(iv) && t.pid == Smg && (t.start == t.end || !CheckOverlap(iv, t.start, t.end))
    ensures Formed(OneLane(iv, placed))
    ensures Place(OneLane(iv, placed), t) == OneLane(Insort(iv, Span(t)), placed + [Placed(t, 1)])
  {
    var l := OneLane(iv, placed);
    assert l.graph[Smg] == [Lane(1, iv)];
    assert FindLine(l, t) == (l, 1);
    InsertIntoOneLane(iv, placed, t);
  }

  lemma FirstLane()
    ensures Formed(EMPTY) && OpenLane(EMPTY, Smg) == OneLane([], [])
  {
    assert [] + [Lane(1, [])] == [Lane(1, [])] && [] + [Slot(Smg, 1)] == [Slot(Smg, 1)];
    assert OpenLane(EMPTY, Smg).graph == OneLane([], []).graph && OpenLane(EMPTY, Smg).sticky == OneLane([], []).sticky;
  }

  lemma InsertIntoOneLane(iv: seq<Interval>, placed: seq<Placed>, t: Task)
    requires Sorted(iv) && t.pid == Smg && Formed(OneLane(iv, placed))
    ensures InsertSpan(OneLane(iv, placed), t, 1) == OneLane(Insort(iv, Span(t)), placed + [Placed(t, 1)])
  {
    hide Insort, Formed;
    var l' := InsertSpan(OneLane(iv, placed), t, 1);
    assert l'.graph[Smg] == [Lane(1, Insort(iv, Span(t)))];
    assert l'.graph == map[Smg := [Lane(1, Insort(iv, Span(t)))]];
  }

  lemma FirstOnOneLane(t: Task)
    requires t.pid == Smg
    ensures Place(EMPTY, t) == OneLane([Span(t)], [Placed(t, 1)])
  {
    FirstLane();
    OpenLaneFormed(EMPTY, Smg);
    assert FindLine(EMPTY, t) == (OneLane([], []), 1);
    InsertIntoOneLane([], [], t);
    assert Insort([], Span(t)) == [Span(t)] && [] + [Placed(t, 1)] == [Placed(t, 1)];
    hide FindLine, Insort, Formed, OpenLane;
  }

  lemma EmptySpanBlindsTheTest(start: int, t: int, end: int)
    requires start < t < end
    ensures Insort([Interval(start, end)], Interval(t, t)) == [Interval(start, end), Interval(t, t)]
    ensures Sorted([Interval(start, end), Interval(t, t)])
    ensures !CheckOverlap([Interval(start, end), Interval(t, t)], t + 1, end)
  {
    assert BisectLeft([Interval(start, end)], Interval(t, t)) == 1;
    var iv := [Interval(start, end), Interval(t, t)];
    assert BisectStart(iv, t + 1) == 2;
  }

  /** Whenever an empty span `b` lands inside a span `a` of its lane, the overlap test no longer sees `a`: a span `c`
      that starts later inside `a` is put on the same lane. */
  lemma EmptySpanHidesAnOverlap(l1: Layout, l2: Layout, l3: Layout, a: Task, b: Task, c: Task)
    requires a.pid == Smg && b.pid == Smg && c.pid == Smg
    requires a.start < b.start == b.end && c.start == b.start + 1 < c.end == a.end
    requires l1 == Place(EMPTY, a) && Formed(l1) && l2 == Place(l1, b) && Formed(l2) && l3 == Place(l2, c)
    ensures l3.placed == [Placed(a, 1), Placed(b, 1), Placed(c, 1)] && Overlaps(Span(a), Span(c))
  {
    FirstOnOneLane(a);
    ThenEmpty(l1, l2, a, b);
    ThenHidden(l2, l3, a, b, c);
  }

  lemma ThenEmpty(l1: Layout, l2: Layout, a: Task, b: Task)
    requires a.pid == Smg && b.pid == Smg && a.start < b.start == b.end < a.end
    requires l1 == OneLane([Span(a)], [Placed(a, 1)]) && Formed(l1) && l2 == Place(l1, b)
    ensures l2 == OneLane([Span(a), Span(b)], [Placed(a, 1), Placed(b, 1)])
  {
    hide Place, Insort, CheckOverlap, Formed;
    EmptySpanBlindsTheTest(a.start, b.start, a.end);
    StaysOnOneLane([Span(a)], [Placed(a, 1)], b);
    assert [Placed(a, 1)] + [Placed(b, 1)] == [Placed(a, 1), Placed(b, 1)];
  }

  lemma ThenHidden(l2: Layout, l3: Layout, a: Task, b: Task, c: Task)
    requires b.pid == Smg && c.pid == Smg
    requires a.start < b.start == b.end < a.end && c.start == b.start + 1 && c.end == a.end
    requires l2 == OneLane([Span(a), Span(b)], [Placed(a, 1), Placed(b, 1)]) && Formed(l2) && l3 == Place(l2, c)
    ensures l3.placed == [Placed(a, 1), Placed(b, 1), Placed(c, 1)]
  {
    hide Place, Insort, CheckOverlap, Sorted, Formed;
    EmptySpanBlindsTheTest(a.start, b.start, a.end);
    var two := [Placed(a, 1), Placed(b, 1)];
    StaysOnOneLane([Span(a), Span(b)], two, c);
    assert two + [Placed(c, 1)] == [Placed(a, 1), Placed(b, 1), Placed(c, 1)];
  }
}
