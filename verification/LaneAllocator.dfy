/** The sticky first-fit lane allocator over all processes, and what every layout satisfies. */
module LaneAllocator {
  import opened SpanLayout

  /** Engine spans carry a numeric process id; gateway spans share one id of their own. */
  datatype Pid = Engine(id: int) | Smg

  datatype Lane = Lane(line: nat, intervals: seq<Interval>)

  datatype Slot = Slot(pid: Pid, line: nat)

  datatype Task = Task(pid: Pid, start: int, end: int)

  /** A laid-out span: what it is and the lane it was given. */
  datatype Placed = Placed(task: Task, line: nat)

  /** `graph` lists each process's lanes in the order they were opened; `sticky` is the lane each process of the
      current request used last; `slots` the lane metadata; `placed` the spans laid out so far. */
  datatype Layout = Layout(graph: map<Pid, seq<Lane>>, sticky: map<Pid, nat>, slots: seq<Slot>, placed: seq<Placed>)

  const EMPTY := Layout(map[], map[], [], [])

  function Span(t: Task): Interval { Interval(t.start, t.end) }

  /** Lanes are numbered 1, 2, ... in the order they were opened, and their contents are sorted. */
  ghost predicate Numbered(lanes: seq<Lane>) {
    && |lanes| > 0
    && forall i :: 0 <= i < |lanes| ==> lanes[i].line == i + 1 && Sorted(lanes[i].intervals)
  }

  ghost predicate Formed(l: Layout) {
    && (forall p :: p in l.graph ==> Numbered(l.graph[p]))
    && (forall p :: p in l.sticky ==> p in l.graph && 1 <= l.sticky[p] <= |l.graph[p]|)
  }

  /** The first lane that has room, or one past the last. */
  function FirstFit(lanes: seq<Lane>, start: int, end: int, from: nat): (k: nat)
    requires from <= |lanes| && forall i :: 0 <= i < |lanes| ==> Sorted(lanes[i].intervals)
    ensures from <= k <= |lanes|
    ensures k < |lanes| ==> !CheckOverlap(lanes[k].intervals, start, end)
    ensures forall i :: from <= i < k ==> CheckOverlap(lanes[i].intervals, start, end)
    decreases |lanes| - from
  {
    if from == |lanes| || !CheckOverlap(lanes[from].intervals, start, end) then from
    else FirstFit(lanes, start, end, from + 1)
  }

  /** Whether the span stays on the lane its request used last. */
  predicate Stays(l: Layout, t: Task)
    requires Formed(l)
  {
    && t.pid in l.sticky
    && (t.start == t.end || !CheckOverlap(l.graph[t.pid][l.sticky[t.pid] - 1].intervals, t.start, t.end))
  }

  function Lanes(l: Layout, p: Pid): seq<Lane> {
    if p in l.graph then l.graph[p] else []
  }

  function OpenLane(l: Layout, p: Pid): Layout {
    var line := |Lanes(l, p)| + 1;
    l.(graph := l.graph[p := Lanes(l, p) + [Lane(line, [])]],
       sticky := l.sticky[p := line],
       slots := l.slots + [Slot(p, line)])
  }

  lemma OpenLaneFormed(l: Layout, p: Pid)
    requires Formed(l)
    ensures Formed(OpenLane(l, p))
  {}

  lemma ResetFormed(l: Layout)
    requires Formed(l)
    ensures Formed(l.(sticky := map[]))
  {}

  /** Finds the lane for a span: the last one used if it has room (or the span is empty), else the first
      with room, else a new one. */
  function FindLine(l: Layout, t: Task): (r: (Layout, nat))
    requires Formed(l)
    ensures Formed(r.0) && t.pid in r.0.graph && 1 <= r.1 <= |r.0.graph[t.pid]|
    ensures r.0.placed == l.placed
  {
    if Stays(l, t) then (l, l.sticky[t.pid]) else
    if t.pid !in l.graph then (OpenLane(l, t.pid), 1) else
    var k := FirstFit(l.graph[t.pid], t.start, t.end, 0);
    if k < |l.graph[t.pid]| then (l.(sticky := l.sticky[t.pid := k + 1]), k + 1)
    else (OpenLane(l, t.pid), k + 1)
  }

  function InsertSpan(l: Layout, t: Task, line: nat): (l': Layout)
    requires Formed(l) && t.pid in l.graph && 1 <= line <= |l.graph[t.pid]|
    ensures Formed(l')
  {
    var lane := l.graph[t.pid][line - 1];
    var lanes := l.graph[t.pid][line - 1 := Lane(lane.line, Insort(lane.intervals, Span(t)))];
    l.(graph := l.graph[t.pid := lanes], placed := l.placed + [Placed(t, line)])
  }

  function Place(l: Layout, t: Task): (l': Layout)
    requires Formed(l)
    ensures Formed(l')
  {
    var (found, line) := FindLine(l, t);
    InsertSpan(found, t, line)
  }

  function PlaceAll(l: Layout, tasks: seq<Task>): (l': Layout)
    requires Formed(l)
    ensures Formed(l')
  {
    if tasks == [] then l else Place(PlaceAll(l, tasks[..|tasks| - 1]), tasks[|tasks| - 1])
  }

  /** Each request starts with no lane of its own. */
  function LayOut(requests: seq<seq<Task>>): (l: Layout)
    ensures Formed(l)
  {
    if requests == [] then EMPTY
    else
      var before := LayOut(requests[..|requests| - 1]);
      PlaceAll(before.(sticky := map[]), requests[|requests| - 1])
  }

  // ---- disjointness ---------------------------------------------------------------------------

  ghost predicate SameLane(a: Placed, b: Placed) {
    a.task.pid == b.task.pid && a.line == b.line
  }

  ghost predicate Apart(a: Task, b: Task) {
    a.end <= b.start || b.end <= a.start
  }

  /** What one process's lane holds is exactly what was placed there. */
  function PlacedOn(placed: seq<Placed>, p: Pid, line: nat): multiset<Interval> {
    if placed == [] then multiset{} else
    var x := placed[|placed| - 1];
    PlacedOn(placed[..|placed| - 1], p, line)
      + if x.task.pid == p && x.line == line then multiset{Span(x.task)} else multiset{}
  }

  ghost predicate Contents(l: Layout) {
    && (forall p, i :: p in l.graph && 0 <= i < |l.graph[p]| ==>
          multiset(l.graph[p][i].intervals) == PlacedOn(l.placed, p, i + 1))
    && (forall x :: x in l.placed ==> x.task.pid in l.graph && 1 <= x.line <= |l.graph[x.task.pid]|)
  }

  ghost predicate Chained(l: Layout) {
    forall p, i :: p in l.graph && 0 <= i < |l.graph[p]| ==> Chain(l.graph[p][i].intervals)
  }

  ghost predicate Disjoint(placed: seq<Placed>) {
    forall i, j :: 0 <= i < j < |placed| && SameLane(placed[i], placed[j]) ==> Apart(placed[i].task, placed[j].task)
  }

  /** One metadata entry per lane: lanes of a process are exactly 1..n, each announced once. */
  ghost predicate Announced(l: Layout) {
    forall p, line :: multiset(l.slots)[Slot(p, line)] == if p in l.graph && 1 <= line <= |l.graph[p]| then 1 else 0
  }

  ghost predicate LaidOut(l: Layout) {
    Formed(l) && Contents(l) && Chained(l) && Disjoint(l.placed) && Announced(l)
  }
}
