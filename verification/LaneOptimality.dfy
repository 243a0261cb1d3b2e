/** How many lanes spans taken in start order get: as many as take up lanes at one instant, which for spans of
    positive length is as few as possible. */
module LaneOptimality {
  import opened SpanLayout
  import opened LaneAllocator
  import opened LaneProofs
  import opened LanePolicy

  predicate ActiveAt(t: Task, time: int) { t.start <= time < t.end }

  /** The spans active at one instant, by position. */
  function ActiveSet(tasks: seq<Task>, time: int): set<nat> {
    set i | 0 <= i < |tasks| && ActiveAt(tasks[i], time)
  }

  ghost predicate InStartOrder(tasks: seq<Task>) {
    forall i, j :: 0 <= i < j < |tasks| ==> tasks[i].start <= tasks[j].start
  }

  ghost predicate PositiveGateway(tasks: seq<Task>) {
    forall i :: 0 <= i < |tasks| ==> tasks[i].pid == Smg && tasks[i].start < tasks[i].end
  }

  // ---- lower bound: any disjoint assignment ----------------------------------------------------

  /** `lines` puts each task on a lane 1..n, and tasks on one lane are apart. */
  ghost predicate Assigns(lines: seq<nat>, tasks: seq<Task>, n: nat) {
    && |lines| == |tasks|
    && (forall i :: 0 <= i < |lines| ==> 1 <= lines[i] <= n)
    && (forall i, j :: 0 <= i < j < |tasks| && lines[i] == lines[j] ==> Apart(tasks[i], tasks[j]))
  }

  lemma {:induction false} InjectiveCount(s: set<nat>, lines: seq<nat>, n: nat)
    requires forall i :: i in s ==> i < |lines| && 1 <= lines[i] <= n
    requires forall i, j :: i in s && j in s && i != j ==> lines[i] != lines[j]
    ensures |s| <= n
    decreases n
  {
    if n == 0 {
      assert s == {};
    } else if i :| i in s && lines[i] == n {
      InjectiveCount(s - {i}, lines, n - 1);
    } else {
      InjectiveCount(s, lines, n - 1);
    }
  }

  ghost predicate Represented(s: set<nat>, lines: seq<nat>, line: nat) {
    exists i :: i in s && i < |lines| && lines[i] == line
  }

  lemma {:induction false} OntoCount(s: set<nat>, lines: seq<nat>, n: nat)
    requires forall line :: 1 <= line <= n ==> Represented(s, lines, line)
    ensures |s| >= n
    decreases n
  {
    if n > 0 {
      assert Represented(s, lines, n);
      var j :| j in s && j < |lines| && lines[j] == n;
      forall line | 1 <= line <= n - 1 ensures Represented(s - {j}, lines, line) {
        assert Represented(s, lines, line);
        var i :| i in s && i < |lines| && lines[i] == line;
        assert i in s - {j};
      }
      OntoCount(s - {j}, lines, n - 1);
    }
  }

  /** No disjoint assignment gets by with fewer lanes than spans active at some instant. */
  lemma AnyAssignmentNeeds(lines: seq<nat>, tasks: seq<Task>, n: nat, time: int)
    requires Assigns(lines, tasks, n)
    ensures |ActiveSet(tasks, time)| <= n
  {
    InjectiveCount(ActiveSet(tasks, time), lines, n);
  }

  // ---- the spans that take up lanes at an instant ------------------------------------------------

  ghost predicate Gateway(tasks: seq<Task>) {
    forall i :: 0 <= i < |tasks| ==> tasks[i].pid == Smg
  }

  ghost predicate FirstAt(tasks: seq<Task>, i: nat) {
    i < |tasks| && forall j :: 0 <= j < i ==> tasks[j].start != tasks[i].start
  }

  /** A span takes up a lane at an instant if it is active there; or if it starts there without positive length, and
      no span before it in the list starts there too. */
  ghost predicate Occupies(tasks: seq<Task>, i: nat, time: int) {
    i < |tasks| && (ActiveAt(tasks[i], time) || (tasks[i].start == time && tasks[i].end <= time && FirstAt(tasks, i)))
  }

  ghost function Demand(tasks: seq<Task>, time: int): set<nat> {
    set i | 0 <= i < |tasks| && Occupies(tasks, i, time)
  }

  lemma OccupiesPrefix(front: seq<Task>, x: Task, i: nat, time: int)
    requires i < |front|
    ensures Occupies(front + [x], i, time) <==> Occupies(front, i, time)
  {
    assert forall j :: 0 <= j <= i ==> (front + [x])[j] == front[j];
  }

  // ---- what the lanes of the gateway spans satisfy ------------------------------------------------

  /** The lanes given to the spans laid out from `base` on. */
  ghost function LinesFrom(placed: seq<Placed>, base: nat): (lines: seq<nat>)
    requires base <= |placed|
    ensures |lines| == |placed| - base
    ensures forall i :: 0 <= i < |lines| ==> lines[i] == placed[base + i].line
    decreases |placed| - base
  {
    if base == |placed| then [] else [placed[base].line] + LinesFrom(placed, base + 1)
  }

  ghost predicate Extends(l: Layout, tasks: seq<Task>, m: Layout) {
    && |m.placed| == |l.placed| + |tasks|
    && l.placed <= m.placed
    && forall i :: 0 <= i < |tasks| ==> m.placed[|l.placed| + i].task == tasks[i]
  }

  lemma PlaceAppends(l: Layout, t: Task)
    requires Formed(l)
    ensures Place(l, t).placed == l.placed + [Placed(t, FindLine(l, t).1)]
  {}

  lemma {:induction false} PlaceAllExtends(l: Layout, tasks: seq<Task>)
    requires Formed(l)
    ensures Extends(l, tasks, PlaceAll(l, tasks))
  {
    hide Place, FindLine;
    if tasks != [] {
      var front := tasks[..|tasks| - 1];
      PlaceAllExtends(l, front);
      PlaceAppends(PlaceAll(l, front), tasks[|tasks| - 1]);
    }
  }

  /** No span conflicts with one that came to its lane before it. */
  ghost predicate Clear(lines: seq<nat>, tasks: seq<Task>) {
    && |lines| == |tasks|
    && forall i, j :: 0 <= i < j < |tasks| && lines[i] == lines[j] ==>
         !Conflicts(Span(tasks[i]), tasks[j].start, tasks[j].end)
  }

  /** Each span shares its lane with one that starts with it and takes up a lane there: itself, as a rule. */
  ghost predicate Fronted(lines: seq<nat>, tasks: seq<Task>) {
    |lines| == |tasks| && forall j :: 0 <= j < |tasks| ==> FrontedAt(lines, tasks, j)
  }

  ghost predicate FrontedAt(lines: seq<nat>, tasks: seq<Task>, j: nat)
    requires j < |tasks| == |lines|
  {
    exists i ::
      0 <= i <= j && lines[i] == lines[j] && tasks[i].start == tasks[j].start && Occupies(tasks, i, tasks[j].start)
  }

  // ---- at least as many lanes as demanded ---------------------------------------------------------

  /** Two spans that take up lanes at one instant are in each other's way. */
  lemma OccupantsConflict(tasks: seq<Task>, time: int, i: nat, j: nat)
    requires InStartOrder(tasks) && i < j && Occupies(tasks, i, time) && Occupies(tasks, j, time)
    ensures Conflicts(Span(tasks[i]), tasks[j].start, tasks[j].end)
  {
    assert tasks[i].start <= tasks[j].start;
  }

  lemma OccupantsApart(lines: seq<nat>, tasks: seq<Task>, time: int, i: nat, j: nat)
    requires InStartOrder(tasks) && Clear(lines, tasks) && i < j && Occupies(tasks, i, time) && Occupies(tasks, j, time)
    ensures lines[i] != lines[j]
  {
    OccupantsConflict(tasks, time, i, j);
    hide Conflicts;
  }

  lemma DemandFits(lines: seq<nat>, tasks: seq<Task>, n: nat, time: int)
    requires InStartOrder(tasks) && Clear(lines, tasks) && forall i :: 0 <= i < |lines| ==> 1 <= lines[i] <= n
    ensures |Demand(tasks, time)| <= n
  {
    var s := Demand(tasks, time);
    forall i, j | i in s && j in s && i != j ensures lines[i] != lines[j] {
      if i < j { OccupantsApart(lines, tasks, time, i, j); } else { OccupantsApart(lines, tasks, time, j, i); }
    }
    InjectiveCount(s, lines, n);
  }

  // ---- a new lane only on demand ------------------------------------------------------------------

  /** The gateway spans `front`, laid out from `base` on: the lanes hold exactly them, and they satisfy the
      invariants. */
  ghost predicate Running(m: Layout, base: nat, front: seq<Task>) {
    && LaidOut(m) && Gateway(front) && |m.placed| == base + |front|
    && (forall i :: 0 <= i < base ==> m.placed[i].task.pid != Smg)
    && (forall i :: 0 <= i < |front| ==> m.placed[base + i].task == front[i])
    && Clear(LinesFrom(m.placed, base), front) && Fronted(LinesFrom(m.placed, base), front)
    && (if front == [] then Smg !in m.graph && Smg !in m.sticky
        else Smg in m.sticky && m.sticky[Smg] == m.placed[|m.placed| - 1].line)
  }

  lemma LaneContents(m: Layout, line: nat)
    requires LaidOut(m) && 1 <= line <= |Lanes(m, Smg)|
    ensures var iv := Lanes(m, Smg)[line - 1].intervals;
      Sorted(iv) && Chain(iv) && multiset(iv) == PlacedOn(m.placed, Smg, line)
  {
    assert multiset(m.graph[Smg][line - 1].intervals) == PlacedOn(m.placed, Smg, line - 1 + 1);
  }

  /** A stored interval that conflicts with `x` belongs to one of the spans laid out. */
  lemma ConflictIsFrom(m: Layout, base: nat, front: seq<Task>, x: Task, line: nat) returns (j: nat)
    requires Running(m, base, front) && 1 <= line <= |Lanes(m, Smg)|
    requires var iv := Lanes(m, Smg)[line - 1].intervals; Sorted(iv) && CheckOverlap(iv, x.start, x.end)
    ensures j < |front| && m.placed[base + j].line == line && Conflicts(Span(front[j]), x.start, x.end)
  {
    hide Clear, Fronted, LaidOut, Conflicts, CheckOverlap, Lanes, PlacedOn;
    LaneContents(m, line);
    var y := ConflictOn(Lanes(m, Smg)[line - 1].intervals, x.start, x.end);
    var k := WasPlaced(m.placed, Smg, line, y);
    j := k - base;
    assert m.placed[base + j].task == front[j];
  }

  lemma ConflictOn(iv: seq<Interval>, start: int, end: int) returns (y: Interval)
    requires Sorted(iv) && Chain(iv) && CheckOverlap(iv, start, end)
    ensures y in multiset(iv) && Conflicts(y, start, end)
  {
    NeighboursDecide(iv, start, end);
    var i :| 0 <= i < |iv| && Conflicts(iv[i], start, end);
    y := iv[i];
  }

  /** Every busy lane is taken up by a span at the instant `x` starts. */
  lemma BusyLaneIsDemanded(m: Layout, base: nat, front: seq<Task>, x: Task, line: nat) returns (i: nat)
    requires Running(m, base, front) && 1 <= line <= |Lanes(m, Smg)|
    requires forall k :: 0 <= k < |front| ==> front[k].start <= x.start
    requires var iv := Lanes(m, Smg)[line - 1].intervals; Sorted(iv) && CheckOverlap(iv, x.start, x.end)
    ensures i < |front| && m.placed[base + i].line == line && Occupies(front, i, x.start)
  {
    var j := ConflictIsFrom(m, base, front, x, line);
    var lines := LinesFrom(m.placed, base);
    hide LaidOut, Clear, Fronted;
    i := OccupantOf(lines, front, x, j);
    assert lines[i] == m.placed[base + i].line;
  }

  lemma OccupantOf(lines: seq<nat>, front: seq<Task>, x: Task, j: nat) returns (i: nat)
    requires Fronted(lines, front) && j < |front|
    requires front[j].start <= x.start && Conflicts(Span(front[j]), x.start, x.end)
    ensures i < |front| && lines[i] == lines[j] && Occupies(front, i, x.start)
  {
    if front[j].start < x.start {
      i := j;
    } else {
      assert FrontedAt(lines, front, j);
      i :|
        0 <= i <= j && lines[i] == lines[j] && front[i].start == front[j].start && Occupies(front, i, front[j].start);
    }
  }

  lemma AllBusy(m: Layout, base: nat, front: seq<Task>, x: Task)
    requires Running(m, base, front) && forall k :: 0 <= k < |front| ==> front[k].start <= x.start
    requires forall i :: 0 <= i < |Lanes(m, Smg)| ==>
      Sorted(Lanes(m, Smg)[i].intervals) && CheckOverlap(Lanes(m, Smg)[i].intervals, x.start, x.end)
    ensures |Demand(front, x.start)| >= |Lanes(m, Smg)|
  {
    var lanes, s, lines := Lanes(m, Smg), Demand(front, x.start), LinesFrom(m.placed, base);
    forall line | 1 <= line <= |lanes| ensures Represented(s, lines, line) {
      var i := BusyLaneIsDemanded(m, base, front, x, line);
      assert i in s && lines[i] == line;
    }
    OntoCount(s, lines, |lanes|);
  }

  lemma NewLaneMeansConflicts(m: Layout, x: Task)
    requires Formed(m) && x.pid == Smg && |Lanes(Place(m, x), Smg)| > |Lanes(m, Smg)|
    ensures !Stays(m, x)
    ensures forall i :: 0 <= i < |Lanes(m, Smg)| ==>
      Sorted(Lanes(m, Smg)[i].intervals) && CheckOverlap(Lanes(m, Smg)[i].intervals, x.start, x.end)
  {}

  lemma LanesGrowByOne(m: Layout, x: Task)
    requires Formed(m) && x.pid == Smg
    ensures |Lanes(m, Smg)| <= |Lanes(Place(m, x), Smg)| <= |Lanes(m, Smg)| + 1
  {}

  lemma SameInstant(front: seq<Task>, x: Task)
    requires InStartOrder(front + [x]) && !FirstAt(front + [x], |front|)
    ensures front != [] && front[|front| - 1].start == x.start
  {
    var all, n := front + [x], |front|;
    var j :| 0 <= j < n && all[j].start == all[n].start;
    assert all[j].start <= all[n - 1].start <= all[n].start;
  }

  /** A span without positive length that is not the first at its instant stays where the one before it went. */
  lemma LaterStays(m: Layout, base: nat, front: seq<Task>, x: Task)
    requires Running(m, base, front) && InStartOrder(front + [x]) && x.pid == Smg
    requires x.end <= x.start && !FirstAt(front + [x], |front|)
    ensures front != [] && front[|front| - 1].start == x.start && Stays(m, x)
  {
    SameInstant(front, x);
    hide Clear, Fronted, FirstAt, InStartOrder, Contents, Chained, Disjoint, Announced, Sorted, Chain, CheckOverlap;
    var line := m.sticky[Smg];
    var iv := m.graph[Smg][line - 1].intervals;
    assert Lanes(m, Smg)[line - 1].intervals == iv;
    LaneContents(m, line);
    LastIsOnLane(m, base, front, line);
    LastClears(iv, Span(front[|front| - 1]), x);
  }

  lemma LastIsOnLane(m: Layout, base: nat, front: seq<Task>, line: nat)
    requires Running(m, base, front) && front != [] && line == m.sticky[Smg] && 1 <= line <= |Lanes(m, Smg)|
    ensures Span(front[|front| - 1]) in Lanes(m, Smg)[line - 1].intervals
  {
    hide Clear, Fronted, LaidOut, PlacedOn, Lanes;
    LaneContents(m, line);
    var last := m.placed[|m.placed| - 1];
    assert last == m.placed[base + (|front| - 1)] && last in m.placed && last.task == front[|front| - 1];
    PlacedOnHas(m.placed, last);
    assert Span(last.task) in multiset(Lanes(m, Smg)[line - 1].intervals);
  }

  lemma LastClears(iv: seq<Interval>, y: Interval, x: Task)
    requires Sorted(iv) && Chain(iv) && y in iv && y.start == x.start && x.end <= x.start
    ensures !CheckOverlap(iv, x.start, x.end)
  {
    var k :| 0 <= k < |iv| && iv[k] == y;
    NeighboursDecide(iv, x.start, x.end);
    forall i | 0 <= i < |iv| ensures !Conflicts(iv[i], x.start, x.end) {
      if iv[i].start < x.start { assert i < k; }
    }
  }

  /** A span put where the test found room conflicts with nothing that is there. */
  lemma RoomMeansClear(l: Layout, t: Task, line: nat, y: Placed)
    requires LaidOut(l) && t.pid in l.graph && 1 <= line <= |l.graph[t.pid]|
    requires !CheckOverlap(l.graph[t.pid][line - 1].intervals, t.start, t.end)
    requires y in l.placed && y.task.pid == t.pid && y.line == line
    ensures !Conflicts(Span(y.task), t.start, t.end)
  {
    var iv := l.graph[t.pid][line - 1].intervals;
    NeighboursDecide(iv, t.start, t.end);
    PlacedOnHas(l.placed, y);
    assert multiset(iv) == PlacedOn(l.placed, t.pid, line - 1 + 1);
    assert Span(y.task) in multiset(iv);
    var i :| 0 <= i < |iv| && iv[i] == Span(y.task);
  }

  lemma NewcomerIsClear(m: Layout, x: Task, y: Placed)
    requires LaidOut(m) && Safe(m, x) && y in m.placed && y.task.pid == x.pid && y.line == FindLine(m, x).1
    ensures !Conflicts(Span(y.task), x.start, x.end)
  {
    hide FindLine, Contents, Chained, Disjoint, Announced, Conflicts, Safe, CheckOverlap;
    FindLineKeeps(m, x);
    LaneIsClearIff(m, x);
    var (found, line) := FindLine(m, x);
    RoomMeansClear(found, x, line, y);
  }

  lemma LinesSnoc(placed: seq<Placed>, y: Placed, base: nat)
    requires base <= |placed|
    ensures LinesFrom(placed + [y], base) == LinesFrom(placed, base) + [y.line]
  {}

  lemma ClearPush(lines: seq<nat>, line: nat, front: seq<Task>, x: Task)
    requires Clear(lines, front)
    requires forall i :: 0 <= i < |front| && lines[i] == line ==> !Conflicts(Span(front[i]), x.start, x.end)
    ensures Clear(lines + [line], front + [x])
  {
    hide Conflicts;
  }

  lemma ClearGrows(m: Layout, base: nat, front: seq<Task>, x: Task, line: nat)
    requires Running(m, base, front) && x.pid == Smg && Safe(m, x) && line == FindLine(m, x).1
    ensures Clear(LinesFrom(m.placed, base) + [line], front + [x])
  {
    hide Clear, Fronted, Safe, FindLine, Contents, Chained, Disjoint, Announced, Formed, Conflicts;
    var lines := LinesFrom(m.placed, base);
    forall i | 0 <= i < |front| && lines[i] == line ensures !Conflicts(Span(front[i]), x.start, x.end) {
      assert m.placed[base + i] in m.placed && m.placed[base + i].task == front[i];
      NewcomerIsClear(m, x, m.placed[base + i]);
    }
    ClearPush(lines, line, front, x);
  }

  /** A newcomer that takes up a lane at its start, or follows the last span at the same start, has a span to front
      it. */
  lemma FrontedPush(lines: seq<nat>, line: nat, front: seq<Task>, x: Task)
    requires Fronted(lines, front)
    requires Occupies(front + [x], |front|, x.start)
      || (front != [] && line == lines[|front| - 1] && front[|front| - 1].start == x.start)
    ensures Fronted(lines + [line], front + [x])
  {
    var more, all, n := lines + [line], front + [x], |front|;
    forall j | 0 <= j < |all| ensures FrontedAt(more, all, j) {
      if j < n {
        FrontedStays(lines, line, front, x, j);
      } else if !Occupies(all, n, x.start) {
        FrontedStays(lines, line, front, x, n - 1);
        var i :|
          && 0 <= i <= n - 1 && more[i] == more[n - 1]
          && all[i].start == all[n - 1].start && Occupies(all, i, all[n - 1].start);
      }
    }
  }

  lemma FrontedStays(lines: seq<nat>, line: nat, front: seq<Task>, x: Task, j: nat)
    requires Fronted(lines, front) && j < |front|
    ensures FrontedAt(lines + [line], front + [x], j)
  {
    hide Occupies;
    assert FrontedAt(lines, front, j);
    var i :|
      0 <= i <= j && lines[i] == lines[j] && front[i].start == front[j].start && Occupies(front, i, front[j].start);
    OccupiesPrefix(front, x, i, front[j].start);
    assert (lines + [line])[i] == lines[i] && (lines + [line])[j] == lines[j] && (front + [x])[i] == front[i];
  }

  lemma FrontedGrows(m: Layout, base: nat, front: seq<Task>, x: Task, line: nat)
    requires Running(m, base, front) && InStartOrder(front + [x]) && x.pid == Smg && line == FindLine(m, x).1
    ensures Fronted(LinesFrom(m.placed, base) + [line], front + [x])
  {
    hide Clear, Fronted, Contents, Chained, Disjoint, Announced, InStartOrder, FirstAt, CheckOverlap, FirstFit;
    if !ActiveAt(x, x.start) && !FirstAt(front + [x], |front|) { LaterStays(m, base, front, x); }
    FrontedPush(LinesFrom(m.placed, base), line, front, x);
  }

  lemma RunningStep(m: Layout, base: nat, front: seq<Task>, x: Task)
    requires Running(m, base, front) && InStartOrder(front + [x]) && x.pid == Smg && Safe(m, x)
    ensures Running(Place(m, x), base, front + [x])
  {
    hide Place, FindLine, Clear, Fronted, Safe, Contents, Chained, Disjoint, Announced, InStartOrder, Formed;
    PlaceKeepsIff(m, x);
    PlaceAppends(m, x);
    FindLineRemembers(m, x);
    var line := FindLine(m, x).1;
    ClearGrows(m, base, front, x, line);
    FrontedGrows(m, base, front, x, line);
    LinesSnoc(m.placed, Placed(x, line), base);
    PlaceSticks(m, x);
  }

  lemma PlaceSticks(m: Layout, x: Task)
    requires Formed(m)
    ensures Place(m, x).sticky == FindLine(m, x).0.sticky
  {}

  lemma DemandGrows(front: seq<Task>, x: Task, time: int)
    ensures Demand(front, time) <= Demand(front + [x], time)
    ensures var more := if Occupies(front + [x], |front|, time) then 1 else 0;
      |Demand(front, time)| + more <= |Demand(front + [x], time)|
  {
    var a, b := Demand(front, time), Demand(front + [x], time);
    forall i | i in a ensures i in b { OccupiesPrefix(front, x, i, time); }
    if Occupies(front + [x], |front|, time) {
      SubsetSize(a + {|front|}, b);
      assert |a + {|front|}| == |a| + 1;
    } else {
      SubsetSize(a, b);
    }
  }

  lemma {:induction false} SubsetSize(a: set<nat>, b: set<nat>)
    requires a <= b
    ensures |a| <= |b|
  {
    if a != {} {
      var x :| x in a;
      SubsetSize(a - {x}, b - {x});
    }
  }

  lemma BusyStep(m: Layout, base: nat, front: seq<Task>, x: Task, before: int) returns (time: int)
    requires Running(m, base, front) && InStartOrder(front + [x]) && x.pid == Smg
    requires |Lanes(m, Smg)| <= |Demand(front, before)|
    ensures |Lanes(Place(m, x), Smg)| <= |Demand(front + [x], time)|
  {
    LanesGrowByOne(m, x);
    if |Lanes(Place(m, x), Smg)| > |Lanes(m, Smg)| {
      time := x.start;
      NewLaneMeansConflicts(m, x);
      if x.end <= x.start && !FirstAt(front + [x], |front|) { LaterStays(m, base, front, x); }
      forall k | 0 <= k < |front| ensures front[k].start <= x.start {
        assert (front + [x])[k].start <= (front + [x])[|front|].start;
      }
      hide Place, Running;
      AllBusy(m, base, front, x);
      DemandGrows(front, x, time);
    } else {
      time := before;
      DemandGrows(front, x, time);
    }
  }

  lemma OneMoreTask(l: Layout, tasks: seq<Task>)
    requires Formed(l) && tasks != []
    ensures var front, x := tasks[..|tasks| - 1], tasks[|tasks| - 1];
      && PlaceAll(l, tasks) == Place(PlaceAll(l, front), x)
      && (SafeAll(l, tasks) ==> SafeAll(l, front) && Safe(PlaceAll(l, front), x))
  {}

  lemma WithoutTheLast(tasks: seq<Task>)
    requires Gateway(tasks) && InStartOrder(tasks) && tasks != []
    ensures var front, x := tasks[..|tasks| - 1], tasks[|tasks| - 1];
      tasks == front + [x] && Gateway(front) && InStartOrder(front) && x.pid == Smg
  {}

  /** Some instant demands as many lanes as there are. */
  lemma {:induction false} BusyInstant(l: Layout, tasks: seq<Task>) returns (time: int)
    requires Formed(l) && LaidOut(l) && Smg !in l.graph && Gateway(tasks) && InStartOrder(tasks) && SafeAll(l, tasks)
    ensures Running(PlaceAll(l, tasks), |l.placed|, tasks)
    ensures |Lanes(PlaceAll(l, tasks), Smg)| <= |Demand(tasks, time)|
  {
    hide *;
    if tasks == [] {
      NothingRunning(l);
      NothingPlaced(l);
      time := 0;
    } else {
      var front, x := tasks[..|tasks| - 1], tasks[|tasks| - 1];
      WithoutTheLast(tasks);
      OneMoreTask(l, tasks);
      var before := BusyInstant(l, front);
      var m := PlaceAll(l, front);
      RunningStep(m, |l.placed|, front, x);
      time := BusyStep(m, |l.placed|, front, x, before);
    }
  }

  lemma NothingPlaced(l: Layout)
    requires Formed(l)
    ensures PlaceAll(l, []) == l
  {}

  lemma NothingRunning(l: Layout)
    requires LaidOut(l) && Smg !in l.graph
    ensures Running(l, |l.placed|, []) && |Lanes(l, Smg)| == 0
  {
    forall i | 0 <= i < |l.placed| ensures l.placed[i].task.pid != Smg { assert l.placed[i] in l.placed; }
  }

  lemma LinesAreLanes(m: Layout, base: nat, tasks: seq<Task>)
    requires Running(m, base, tasks)
    ensures forall i :: 0 <= i < |tasks| ==> 1 <= LinesFrom(m.placed, base)[i] <= |Lanes(m, Smg)|
  {
    hide Clear, Fronted;
    forall i | 0 <= i < |tasks| ensures 1 <= LinesFrom(m.placed, base)[i] <= |Lanes(m, Smg)| {
      assert m.placed[base + i] in m.placed && m.placed[base + i].task == tasks[i];
    }
  }

  /** The gateway spans of a trace, of any lengths, laid out in start order after any engine spans: as long as every
      placement is safe, the number of lanes is the largest number of spans that take up lanes at one instant. */
  lemma GatewayLaneCount(l: Layout, tasks: seq<Task>)
    requires LaidOut(l) && Smg !in l.graph && Gateway(tasks) && InStartOrder(tasks) && SafeAll(l, tasks)
    ensures var n := |Lanes(PlaceAll(l, tasks), Smg)|;
      && (forall time :: |Demand(tasks, time)| <= n)
      && (exists time :: |Demand(tasks, time)| == n)
  {
    hide Demand, Lanes, SafeAll, Contents, Chained, Disjoint, Announced;
    var m := PlaceAll(l, tasks);
    var busy := BusyInstant(l, tasks);
    LinesAreLanes(m, |l.placed|, tasks);
    var lines := LinesFrom(m.placed, |l.placed|);
    hide PlaceAll;
    forall time ensures |Demand(tasks, time)| <= |Lanes(m, Smg)| { DemandFits(lines, tasks, |Lanes(m, Smg)|, time); }
    assert |Demand(tasks, busy)| == |Lanes(m, Smg)|;
  }

  lemma OneIdleOccupant(tasks: seq<Task>, i: nat, j: nat, time: int)
    requires Occupies(tasks, i, time) && !ActiveAt(tasks[i], time)
    requires Occupies(tasks, j, time) && !ActiveAt(tasks[j], time)
    ensures i == j
  {
    assert tasks[i].start == tasks[j].start && FirstAt(tasks, i) && FirstAt(tasks, j);
  }

  /** At an instant at most one span that is not active takes up a lane, and none if all spans have positive length. */
  lemma DemandIsActivity(tasks: seq<Task>, time: int)
    ensures |ActiveSet(tasks, time)| <= |Demand(tasks, time)| <= |ActiveSet(tasks, time)| + 1
    ensures PositiveGateway(tasks) ==> Demand(tasks, time) == ActiveSet(tasks, time)
  {
    var a, b := ActiveSet(tasks, time), Demand(tasks, time);
    SubsetSize(a, b);
    if i :| i in b && i !in a {
      forall j | j in b ensures j in a + {i} {
        if j !in a { OneIdleOccupant(tasks, i, j, time); }
      }
      SubsetSize(b, a + {i});
      assert |a + {i}| == |a| + 1;
    } else {
      assert b == a;
    }
  }

  lemma {:induction false} PositiveIsSafe(l: Layout, tasks: seq<Task>)
    requires Formed(l) && PositiveGateway(tasks)
    ensures SafeAll(l, tasks)
  {
    if tasks != [] { PositiveIsSafe(l, tasks[..|tasks| - 1]); }
  }

  /** No disjoint assignment of the same spans saves more than one lane; and none saves any if all spans have positive
      length: then the number of lanes is the largest number of spans active at one instant. */
  lemma GatewayLanesAreOptimal(l: Layout, tasks: seq<Task>)
    requires LaidOut(l) && Smg !in l.graph && Gateway(tasks) && InStartOrder(tasks)
    requires SafeAll(l, tasks) || PositiveGateway(tasks)
    ensures var n := |Lanes(PlaceAll(l, tasks), Smg)|;
      && (forall lines, k: nat :: Assigns(lines, tasks, k) ==> n <= k + 1)
      && (PositiveGateway(tasks) ==>
            && (forall time :: |ActiveSet(tasks, time)| <= n)
            && (exists time :: |ActiveSet(tasks, time)| == n)
            && (forall lines, k: nat :: Assigns(lines, tasks, k) ==> n <= k))
  {
    hide Lanes, SafeAll, PlaceAll, Demand, ActiveSet, Assigns, Contents, Chained, Disjoint, Announced;
    if PositiveGateway(tasks) { PositiveIsSafe(l, tasks); }
    GatewayLaneCount(l, tasks);
    var n := |Lanes(PlaceAll(l, tasks), Smg)|;
    var busy :| |Demand(tasks, busy)| == n;
    forall time
      ensures |ActiveSet(tasks, time)| <= n
      ensures PositiveGateway(tasks) ==> Demand(tasks, time) == ActiveSet(tasks, time)
    {
      DemandIsActivity(tasks, time);
    }
    DemandIsActivity(tasks, busy);
    forall lines, k: nat | Assigns(lines, tasks, k) ensures n <= k + 1 && (PositiveGateway(tasks) ==> n <= k) {
      AnyAssignmentNeeds(lines, tasks, k, busy);
    }
  }

  ghost predicate EngineSpans(tasks: seq<Task>) {
    forall t :: t in tasks ==> t.pid.Engine?
  }

  lemma PlaceKeepsOthersOut(l: Layout, t: Task)
    requires Formed(l) && Smg !in l.graph && t.pid.Engine?
    ensures Smg !in Place(l, t).graph
  {}

  /** Engine spans never open a gateway lane. */
  lemma {:induction false} EngineLayoutHasNoGateway(l: Layout, tasks: seq<Task>)
    requires Formed(l) && Smg !in l.graph && EngineSpans(tasks)
    ensures Smg !in PlaceAll(l, tasks).graph
  {
    if tasks != [] {
      assert tasks[|tasks| - 1] in tasks;
      EngineLayoutHasNoGateway(l, tasks[..|tasks| - 1]);
      PlaceKeepsOthersOut(PlaceAll(l, tasks[..|tasks| - 1]), tasks[|tasks| - 1]);
      hide Place;
    }
  }

  lemma {:induction false} EngineOnly(requests: seq<seq<Task>>)
    requires forall r :: r in requests ==> EngineSpans(r)
    ensures Smg !in LayOut(requests).graph
  {
    if requests != [] {
      var front := requests[..|requests| - 1];
      EngineOnly(front);
      assert requests[|requests| - 1] in requests;
      EngineLayoutHasNoGateway(LayOut(front).(sticky := map[]), requests[|requests| - 1]);
    }
  }

  /** A whole trace, engine requests in any order and then the gateway spans in start order: the lanes are disjoint
      exactly if every placement was safe, and then there are as many gateway lanes as the busiest instant demands. */
  lemma TraceLayout(engine: seq<seq<Task>>, gateway: seq<Task>)
    requires (forall r :: r in engine ==> EngineSpans(r)) && Gateway(gateway) && InStartOrder(gateway)
    ensures Disjoint(LayOut(engine + [gateway]).placed) <==> SafeLayout(engine + [gateway])
    ensures SafeLayout(engine + [gateway]) ==>
      var l := LayOut(engine + [gateway]);
      && LaidOut(l)
      && (forall time :: |Demand(gateway, time)| <= |Lanes(l, Smg)|)
      && (exists time :: |Demand(gateway, time)| == |Lanes(l, Smg)|)
  {
    var requests := engine + [gateway];
    LayoutDisjointIff(requests);
    if SafeLayout(requests) {
      var start := LayOut(engine).(sticky := map[]);
      assert requests[..|requests| - 1] == engine;
      LayoutDisjointIff(engine);
      EngineOnly(engine);
      assert LaidOut(start);
      GatewayLaneCount(start, gateway);
    }
  }

  /** An empty gateway span can cost a lane: one that starts where a positive span starts, and is placed before it,
      makes the test refuse the lane, although one lane would do for both. */
  lemma EmptySpanWastesALane(l1: Layout, l2: Layout, a: Task, b: Task)
    requires a.pid == Smg && b.pid == Smg && a.start == a.end == b.start < b.end
    requires l1 == Place(EMPTY, a) && Formed(l1) && l2 == Place(l1, b)
    ensures |Lanes(l2, Smg)| == 2 && Assigns([1, 1], [a, b], 1)
  {
    hide Place;
    FirstOnOneLane(a);
    NextLaneOpens(l1, Span(a), b);
  }

  lemma NextLaneOpens(l: Layout, x: Interval, b: Task)
    requires Formed(l) && Smg in l.graph && l.graph[Smg] == [Lane(1, [x])] && Smg in l.sticky && l.sticky[Smg] == 1
    requires b.pid == Smg && x.start == b.start < b.end
    ensures |Lanes(Place(l, b), Smg)| == 2
  {
    assert l.graph[Smg] == [Lane(1, [x])];
    assert BisectStart([x], b.start) == 0;
    assert CheckOverlap([x], b.start, b.end);
    assert FirstFit(l.graph[Smg], b.start, b.end, 0) == 1;
    assert FindLine(l, b) == (OpenLane(l, Smg), 2);
    hide FindLine, CheckOverlap, FirstFit, Insort;
  }
}
