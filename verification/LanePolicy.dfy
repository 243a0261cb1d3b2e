/** Which lane a span gets: the one its request used last on that process if it has room, else the lowest with room. */
module LanePolicy {
  import opened SpanLayout
  import opened LaneAllocator

  /** No stored interval stands in the way. */
  ghost predicate HasRoom(lane: Lane, t: Task) {
    forall i :: 0 <= i < |lane.intervals| ==> !Conflicts(lane.intervals[i], t.start, t.end)
  }

  lemma RoomIsClear(l: Layout, p: Pid, i: nat, t: Task)
    requires Formed(l) && Chained(l) && p in l.graph && i < |l.graph[p]|
    ensures CheckOverlap(l.graph[p][i].intervals, t.start, t.end) <==> !HasRoom(l.graph[p][i], t)
  {
    NeighboursDecide(l.graph[p][i].intervals, t.start, t.end);
  }

  /** The span may keep the lane its request used last. */
  ghost predicate MayStay(l: Layout, t: Task)
    requires Formed(l)
  {
    t.pid in l.sticky && (t.start == t.end || HasRoom(l.graph[t.pid][l.sticky[t.pid] - 1], t))
  }

  /** `line` is the lowest lane of the span's process with room. */
  ghost predicate LowestWithRoom(l: Layout, t: Task, line: nat) {
    && 1 <= line <= |Lanes(l, t.pid)| && HasRoom(Lanes(l, t.pid)[line - 1], t)
    && forall i :: 0 <= i < line - 1 ==> !HasRoom(Lanes(l, t.pid)[i], t)
  }

  /** The lane chosen, in terms of everything stored, and what the choice leaves alone. */
  lemma ChoiceOfLane(l: Layout, t: Task)
    requires Formed(l) && Chained(l)
    ensures var (found, line) := FindLine(l, t); var lanes := Lanes(l, t.pid);
      && found.sticky == l.sticky[t.pid := line]
      && (MayStay(l, t) ==> line == l.sticky[t.pid])
      && (!MayStay(l, t) ==>
            || LowestWithRoom(l, t, line)
            || (line == |lanes| + 1 && forall i :: 0 <= i < |lanes| ==> !HasRoom(lanes[i], t)))
      && found.graph == (if line <= |lanes| then l.graph else l.graph[t.pid := lanes + [Lane(line, [])]])
      && found.slots == (if line <= |lanes| then l.slots else l.slots + [Slot(t.pid, line)])
  {
    hide HasRoom, CheckOverlap, Chained;
    if t.pid in l.graph {
      forall i | 0 <= i < |l.graph[t.pid]|
        ensures CheckOverlap(l.graph[t.pid][i].intervals, t.start, t.end) <==> !HasRoom(l.graph[t.pid][i], t)
      {
        RoomIsClear(l, t.pid, i, t);
      }
    }
    if Stays(l, t) { assert l.sticky == l.sticky[t.pid := l.sticky[t.pid]]; }
  }

  /** The lane of the last span of process `p` placed from position `base` on, or 0. */
  function LastLine(placed: seq<Placed>, base: nat, p: Pid): nat {
    if |placed| <= base then 0
    else if placed[|placed| - 1].task.pid == p then placed[|placed| - 1].line
    else LastLine(placed[..|placed| - 1], base, p)
  }

  /** Within a request the lane remembered for a process is the one its last span there was given. */
  lemma {:induction false} RemembersLastLane(l: Layout, tasks: seq<Task>, p: Pid)
    requires Formed(l) && l.sticky == map[]
    ensures var m := PlaceAll(l, tasks);
      && (p in m.sticky <==> LastLine(m.placed, |l.placed|, p) > 0)
      && (p in m.sticky ==> m.sticky[p] == LastLine(m.placed, |l.placed|, p))
      && |m.placed| == |l.placed| + |tasks|
  {
    if tasks != [] {
      var n := |tasks| - 1;
      RemembersLastLane(l, tasks[..n], p);
      PlaceRemembers(PlaceAll(l, tasks[..n]), tasks[n], |l.placed|, p);
    }
  }

  lemma FindLineRemembers(m: Layout, t: Task)
    requires Formed(m)
    ensures var (found, line) := FindLine(m, t);
      found.sticky == m.sticky[t.pid := line] && found.placed == m.placed && line >= 1
  {
    hide CheckOverlap, FirstFit;
    if Stays(m, t) { assert m.sticky == m.sticky[t.pid := m.sticky[t.pid]]; }
  }

  lemma PlaceRemembers(m: Layout, t: Task, base: nat, p: Pid)
    requires Formed(m) && base <= |m.placed|
    ensures var m' := Place(m, t);
      && |m'.placed| == |m.placed| + 1
      && (p == t.pid ==> p in m'.sticky && m'.sticky[p] == LastLine(m'.placed, base, p) > 0)
      && (p != t.pid ==> (p in m'.sticky <==> p in m.sticky) && (p in m.sticky ==> m'.sticky[p] == m.sticky[p])
                         && LastLine(m'.placed, base, p) == LastLine(m.placed, base, p))
  {
    hide FindLine, Formed, Insort;
    FindLineRemembers(m, t);
    var (found, line) := FindLine(m, t);
    var placed := m.placed + [Placed(t, line)];
    assert Place(m, t).placed == placed && Place(m, t).sticky == found.sticky;
    assert placed[..|m.placed|] == m.placed;
  }
}
