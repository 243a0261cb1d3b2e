/** The layout pass as the program writes it: container objects updated in place, a dictionary of lanes per process,
    and the loops over requests and spans. */
module TraceLayouts {
  import opened SpanLayout
  import opened LaneAllocator

  class SpanLayoutContainer {
    var intervals: seq<Interval>

    constructor ()
      ensures intervals == []
    {
      intervals := [];
    }

    /** Binary search for the first interval that starts at `start` or later. */
    method Bisect(start: int) returns (k: nat)
      requires Sorted(intervals)
      ensures k == BisectStart(intervals, start)
    {
      var lo, hi := 0, |intervals|;
      while lo < hi
        invariant 0 <= lo <= hi <= |intervals|
        invariant forall i :: 0 <= i < lo ==> intervals[i].start < start
        invariant forall i :: hi <= i < |intervals| ==> intervals[i].start >= start
      {
        var mid := (lo + hi) / 2;
        if intervals[mid].start < start {
          lo := mid + 1;
        } else {
          hi := mid;
        }
      }
      k := lo;
      assert k < |intervals| ==> intervals[k].start >= start;
      assert k > 0 ==> intervals[k - 1].start < start;
    }

    method CheckOverlap(start: int, end: int) returns (overlap: bool)
      requires Sorted(intervals)
      ensures overlap == SpanLayout.CheckOverlap(intervals, start, end)
    {
      var idx := Bisect(start);
      if idx > 0 && intervals[idx - 1].end > start {
        return true;
      }
      if idx < |intervals| && intervals[idx].start < end {
        return true;
      }
      return false;
    }

    method InsertSpan(start: int, end: int)
      requires Sorted(intervals)
      modifies this
      ensures intervals == Insort(old(intervals), Interval(start, end))
    {
      var x := Interval(start, end);
      var lo, hi := 0, |intervals|;
      while lo < hi
        invariant 0 <= lo <= hi <= |intervals|
        invariant forall i :: 0 <= i < lo ==> Less(intervals[i], x)
        invariant forall i :: hi <= i < |intervals| ==> !Less(intervals[i], x)
      {
        var mid := (lo + hi) / 2;
        if Less(intervals[mid], x) {
          lo := mid + 1;
        } else {
          hi := mid;
        }
      }
      assert lo < |intervals| ==> !Less(intervals[lo], x);
      assert lo > 0 ==> Less(intervals[lo - 1], x);
      assert lo == BisectLeft(intervals, x);
      intervals := intervals[..lo] + [x] + intervals[lo..];
    }
  }

  datatype Entry = Entry(line: nat, lane: SpanLayoutContainer)

  type Homes = map<SpanLayoutContainer, (Pid, nat)>

  /** The lane objects of process `p` hold what `lanes` says, and each has its home at its own place, so no two
      lanes are the same object. */
  ghost predicate Holds(home: Homes, p: Pid, entries: seq<Entry>, lanes: seq<Lane>)
    reads home.Keys
  {
    && |entries| == |lanes|
    && forall i :: 0 <= i < |entries| ==>
         && entries[i].lane in home && home[entries[i].lane] == (p, i)
         && lanes[i] == Lane(entries[i].line, entries[i].lane.intervals)
  }

  lemma NoLanesHeld(home: Homes, p: Pid)
    ensures Holds(home, p, [], [])
  {}

  lemma SameLength(home: Homes, p: Pid, entries: seq<Entry>, lanes: seq<Lane>)
    requires Holds(home, p, entries, lanes)
    ensures |entries| == |lanes|
  {}

  lemma NewHome(home: Homes, lane: SpanLayoutContainer, at: (Pid, nat), p: Pid, entries: seq<Entry>, lanes: seq<Lane>)
    requires lane !in home && Holds(home, p, entries, lanes)
    ensures Holds(home[lane := at], p, entries, lanes)
  {}

  lemma NewLane(home: Homes, lane: SpanLayoutContainer, p: Pid, entries: seq<Entry>, lanes: seq<Lane>, line: nat)
    requires lane !in home && Holds(home, p, entries, lanes) && lane.intervals == []
    ensures Holds(home[lane := (p, |entries|)], p, entries + [Entry(line, lane)], lanes + [Lane(line, [])])
  {}

  function EntriesOf(graph: map<Pid, seq<Entry>>, p: Pid): seq<Entry> { if p in graph then graph[p] else [] }

  /** The dictionary of lane objects stands for the dictionary of lanes. */
  ghost predicate Represents(home: Homes, graph: map<Pid, seq<Entry>>, lanes: map<Pid, seq<Lane>>)
    reads home.Keys
  {
    graph.Keys == lanes.Keys && forall p :: p in graph ==> Holds(home, p, graph[p], lanes[p])
  }

  /** A new, empty lane object stands for a new, empty lane. */
  lemma LaneRepresented(home: Homes, graph: map<Pid, seq<Entry>>, l: Layout, pid: Pid, lane: SpanLayoutContainer)
    requires Represents(home, graph, l.graph) && lane !in home && lane.intervals == []
    ensures var entries, n := EntriesOf(graph, pid), |EntriesOf(graph, pid)|;
      && n == |Lanes(l, pid)|
      && Represents(home[lane := (pid, n)], graph[pid := entries + [Entry(n + 1, lane)]],
                    l.graph[pid := Lanes(l, pid) + [Lane(n + 1, [])]])
  {
    hide Holds;
    var entries, before := EntriesOf(graph, pid), Lanes(l, pid);
    var n := |entries|;
    if pid !in graph { NoLanesHeld(home, pid); }
    SameLength(home, pid, entries, before);
    NewLane(home, lane, pid, entries, before, n + 1);
    forall p | p in graph && p != pid ensures Holds(home[lane := (pid, n)], p, graph[p], l.graph[p]) {
      NewHome(home, lane, (pid, n), p, graph[p], l.graph[p]);
    }
  }

  lemma LaneIsSorted(l: Layout, p: Pid, line: nat)
    requires Formed(l) && p in l.graph && 1 <= line <= |l.graph[p]|
    ensures Sorted(l.graph[p][line - 1].intervals)
  {}

  lemma LineNumber(home: Homes, graph: map<Pid, seq<Entry>>, l: Layout, p: Pid, k: nat)
    requires Formed(l) && Represents(home, graph, l.graph) && p in graph && k < |graph[p]|
    ensures |graph[p]| == |l.graph[p]| && graph[p][k].line == k + 1
  {
    assert l.graph[p][k] == Lane(graph[p][k].line, graph[p][k].lane.intervals);
  }

  class LayoutPass {
    var graph: map<Pid, seq<Entry>>
    var sticky: map<Pid, nat>
    var slots: seq<Slot>
    var placed: seq<Placed>
    ghost var home: Homes
    ghost var model: Layout

    ghost predicate Valid()
      reads this, home.Keys
    {
      && Formed(model)
      && sticky == model.sticky && slots == model.slots && placed == model.placed
      && Represents(home, graph, model.graph)
    }

    constructor ()
      ensures Valid() && model == EMPTY && fresh(home.Keys)
    {
      graph, sticky, slots, placed := map[], map[], [], [];
      home, model := map[], EMPTY;
    }

    method OpenLane(pid: Pid) returns (line: nat)
      requires Valid()
      modifies this
      ensures Valid() && fresh(home.Keys - old(home.Keys))
      ensures model == LaneAllocator.OpenLane(old(model), pid) && line == |Lanes(old(model), pid)| + 1
    {
      var lane := new SpanLayoutContainer();
      line := AddLane(pid, lane);
    }

    /** Registers a new, empty lane under the next number. */
    method AddLane(pid: Pid, lane: SpanLayoutContainer) returns (line: nat)
      requires Valid() && lane !in home && lane.intervals == []
      modifies this
      ensures Valid() && home.Keys == old(home.Keys) + {lane}
      ensures model == LaneAllocator.OpenLane(old(model), pid) && line == |Lanes(old(model), pid)| + 1
    {
      hide Formed, Represents;
      OpenLaneFormed(model, pid);
      var entries := EntriesOf(graph, pid);
      line := |entries| + 1;
      LaneRepresented(home, graph, model, pid, lane);
      home := home[lane := (pid, |entries|)];
      graph := graph[pid := entries + [Entry(line, lane)]];
      sticky := sticky[pid := line];
      slots := slots + [Slot(pid, line)];
      model := LaneAllocator.OpenLane(model, pid);
    }

    /** Whether the lane the request used last will do. */
    method StaysOnLane(t: Task) returns (stays: bool)
      requires Valid()
      ensures stays == Stays(model, t) && (stays ==> t.pid in sticky)
    {
      if t.pid !in sticky {
        return false;
      }
      var line := sticky[t.pid];
      if t.start == t.end {
        return true;
      }
      assert model.graph[t.pid][line - 1].intervals == graph[t.pid][line - 1].lane.intervals;
      var busy := graph[t.pid][line - 1].lane.CheckOverlap(t.start, t.end);
      return !busy;
    }

    method FindLine(t: Task) returns (line: nat)
      requires Valid()
      modifies this
      ensures Valid() && fresh(home.Keys - old(home.Keys))
      ensures (model, line) == LaneAllocator.FindLine(old(model), t)
    {
      hide FirstFit, LaneAllocator.OpenLane, Sorted, Stays, CheckOverlap, Holds;
      var stays := StaysOnLane(t);
      if stays {
        return sticky[t.pid];
      }
      if t.pid !in graph {
        line := OpenLane(t.pid);
        return;
      }
      var k := FirstFree(t);
      if k < |graph[t.pid]| {
        line := graph[t.pid][k].line;
        LineNumber(home, graph, model, t.pid, k);
        sticky := sticky[t.pid := line];
        model := model.(sticky := sticky);
        return;
      }
      line := OpenLane(t.pid);
    }

    /** The loop over the lanes in the order they were opened. */
    method FirstFree(t: Task) returns (k: nat)
      requires Valid() && t.pid in graph
      ensures t.pid in model.graph && |model.graph[t.pid]| == |graph[t.pid]|
      ensures k == FirstFit(model.graph[t.pid], t.start, t.end, 0)
    {
      ghost var lanes := model.graph[t.pid];
      k := 0;
      while k < |graph[t.pid]|
        invariant k <= |lanes| == |graph[t.pid]|
        invariant FirstFit(lanes, t.start, t.end, 0) == FirstFit(lanes, t.start, t.end, k)
      {
        assert lanes[k].intervals == graph[t.pid][k].lane.intervals;
        var busy := graph[t.pid][k].lane.CheckOverlap(t.start, t.end);
        if !busy {
          return;
        }
        k := k + 1;
      }
    }

    method PlaceSpan(t: Task)
      requires Valid()
      modifies this, home.Keys
      ensures Valid() && fresh(home.Keys - old(home.Keys))
      ensures model == Place(old(model), t)
    {
      var line := FindLine(t);
      Insert(t, line);
    }

    /** The span goes into its lane's container, and the lane number into the span. */
    method Insert(t: Task, line: nat)
      requires Valid() && t.pid in graph && 1 <= line <= |graph[t.pid]|
      modifies this`placed, this`model, home.Keys
      ensures Valid() && model == InsertSpan(old(model), t, line)
    {
      hide Insort, Sorted, Formed;
      var lane := graph[t.pid][line - 1].lane;
      LaneIsSorted(model, t.pid, line);
      assert model.graph[t.pid][line - 1].intervals == lane.intervals;
      lane.InsertSpan(t.start, t.end);
      placed := placed + [Placed(t, line)];
      model := InsertSpan(model, t, line);
    }

    /** The spans of one request, which starts with no lane of its own. */
    method PlaceRequest(tasks: seq<Task>)
      requires Valid()
      modifies this, home.Keys
      ensures Valid() && fresh(home.Keys - old(home.Keys))
      ensures model == PlaceAll(old(model).(sticky := map[]), tasks)
    {
      hide Formed, Place;
      ghost var start := model.(sticky := map[]);
      ResetFormed(model);
      sticky, model := map[], start;
      for i := 0 to |tasks|
        invariant Valid() && fresh(home.Keys - old(home.Keys))
        invariant Formed(start) && model == PlaceAll(start, tasks[..i])
      {
        assert tasks[..i + 1][..i] == tasks[..i];
        PlaceSpan(tasks[i]);
      }
      assert tasks[..|tasks|] == tasks;
    }

    method Generate(requests: seq<seq<Task>>)
      requires Valid() && model == EMPTY
      modifies this, home.Keys
      ensures Valid() && fresh(home.Keys - old(home.Keys))
      ensures model == LayOut(requests)
    {
      for i := 0 to |requests|
        invariant Valid() && fresh(home.Keys - old(home.Keys))
        invariant model == LayOut(requests[..i])
      {
        assert requests[..i + 1][..i] == requests[..i];
        PlaceRequest(requests[i]);
      }
      assert requests[..|requests|] == requests;
    }
  }
}
