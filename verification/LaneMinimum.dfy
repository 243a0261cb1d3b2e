/** The least number of lanes any disjoint assignment of the gateway spans needs, and exactly when the layout gets by
    with it. */
module LaneMinimum {
  import opened Prelude
  import opened LaneAllocator
  import opened LaneProofs
  import opened LaneOptimality

  /** The spans before `j` that cannot share its lane. */
  ghost function InTheWay(tasks: seq<Task>, j: nat): set<nat>
    requires j < |tasks|
  {
    set i | 0 <= i < j && !Apart(tasks[i], tasks[j])
  }

  /** One more than the spans in the way of any one span. */
  ghost function LanesNeeded(tasks: seq<Task>): (n: nat)
    ensures tasks == [] ==> n == 0
  {
    if tasks == [] then 0 else
    Max(LanesNeeded(tasks[..|tasks| - 1]), |InTheWay(tasks, |tasks| - 1)| + 1)
  }

  lemma InTheWayOfFront(tasks: seq<Task>, j: nat)
    requires j < |tasks| - 1
    ensures InTheWay(tasks[..|tasks| - 1], j) == InTheWay(tasks, j)
  {}

  /** It is the largest such number. */
  lemma {:induction false} LargestInTheWay(tasks: seq<Task>) returns (most: nat)
    requires tasks != []
    ensures forall j :: 0 <= j < |tasks| ==> |InTheWay(tasks, j)| + 1 <= LanesNeeded(tasks)
    ensures most < |tasks| && LanesNeeded(tasks) == |InTheWay(tasks, most)| + 1
  {
    var n := |tasks| - 1;
    most := n;
    if n > 0 {
      var before := LargestInTheWay(tasks[..n]);
      forall j | 0 <= j < n ensures InTheWay(tasks[..n], j) == InTheWay(tasks, j) { InTheWayOfFront(tasks, j); }
      if LanesNeeded(tasks[..n]) > |InTheWay(tasks, n)| + 1 {
        InTheWayOfFront(tasks, before);
        most := before;
      }
    }
  }

  // ---- no assignment gets by with less --------------------------------------------------------------

  /** In start order two spans in the way of a third are in each other's way. */
  lemma InEachOthersWay(tasks: seq<Task>, i: nat, j: nat, k: nat)
    requires InStartOrder(tasks) && i < j < k < |tasks| && i in InTheWay(tasks, k) && j in InTheWay(tasks, k)
    ensures !Apart(tasks[i], tasks[j])
  {
    assert tasks[i].start <= tasks[j].start <= tasks[k].start;
  }

  lemma AllNeeded(lines: seq<nat>, tasks: seq<Task>, k: nat, j: nat)
    requires InStartOrder(tasks) && Assigns(lines, tasks, k) && j < |tasks|
    ensures |InTheWay(tasks, j)| + 1 <= k
  {
    var s := InTheWay(tasks, j) + {j};
    forall a, b | a in s && b in s && a < b ensures lines[a] != lines[b] {
      if b != j { InEachOthersWay(tasks, a, b, j); }
    }
    InjectiveCount(s, lines, k);
  }

  // ---- and one gets by with that --------------------------------------------------------------------

  lemma FreeLine(lines: seq<nat>, tasks: seq<Task>, n: nat) returns (line: nat)
    requires tasks != [] && |lines| == |tasks| - 1 && |InTheWay(tasks, |tasks| - 1)| < n
    ensures 1 <= line <= n && !Represented(InTheWay(tasks, |tasks| - 1), lines, line)
  {
    var s := InTheWay(tasks, |tasks| - 1);
    if forall x: nat :: 1 <= x <= n ==> Represented(s, lines, x) { OntoCount(s, lines, n); }
    line :| 1 <= line <= n && !Represented(s, lines, line);
  }

  /** Giving each span in turn a lane none of those in its way has. */
  lemma {:induction false} LeastAssignment(tasks: seq<Task>) returns (lines: seq<nat>)
    ensures Assigns(lines, tasks, LanesNeeded(tasks))
  {
    if tasks == [] {
      lines := [];
    } else {
      var n := |tasks| - 1;
      var front := LeastAssignment(tasks[..n]);
      var line := FreeLine(front, tasks, LanesNeeded(tasks));
      lines := front + [line];
      forall i, j | 0 <= i < j < |tasks| && lines[i] == lines[j] ensures Apart(tasks[i], tasks[j]) {
        if j < n {
          assert Apart(tasks[..n][i], tasks[..n][j]);
        } else {
          assert i !in InTheWay(tasks, n);
        }
      }
    }
  }

  /** The least number of lanes of a disjoint assignment, in terms of the spans alone. */
  lemma LeastLanes(tasks: seq<Task>)
    requires InStartOrder(tasks)
    ensures exists lines :: Assigns(lines, tasks, LanesNeeded(tasks))
    ensures forall lines, k: nat :: Assigns(lines, tasks, k) ==> LanesNeeded(tasks) <= k
  {
    var least := LeastAssignment(tasks);
    forall lines, k: nat | Assigns(lines, tasks, k) ensures LanesNeeded(tasks) <= k {
      if tasks != [] {
        var j := LargestInTheWay(tasks);
        AllNeeded(lines, tasks, k, j);
      }
    }
  }

  // ---- when the layout needs no more ------------------------------------------------------------------

  /** The layout uses as few lanes as any disjoint assignment exactly if no instant demands more lanes than some span
      together with those in its way. */
  lemma OptimalIff(l: Layout, tasks: seq<Task>)
    requires LaidOut(l) && Smg !in l.graph && Gateway(tasks) && InStartOrder(tasks) && SafeAll(l, tasks)
    ensures var n := |Lanes(PlaceAll(l, tasks), Smg)|;
      (forall lines, k: nat :: Assigns(lines, tasks, k) ==> n <= k) <==>
        forall time :: |Demand(tasks, time)| <= LanesNeeded(tasks)
  {
    hide Lanes, SafeAll, PlaceAll, Demand, Assigns, Contents, Chained, Disjoint, Announced, LanesNeeded;
    GatewayLaneCount(l, tasks);
    LeastLanes(tasks);
    var n := |Lanes(PlaceAll(l, tasks), Smg)|;
    var busy :| |Demand(tasks, busy)| == n;
    var least :| Assigns(least, tasks, LanesNeeded(tasks));
  }

  /** An instant demands a lane too many only if some span without positive length is the first to start there. */
  lemma WasteNeedsAnIdleFirst(tasks: seq<Task>, time: int)
    requires InStartOrder(tasks) && |Demand(tasks, time)| > LanesNeeded(tasks)
    ensures exists i :: 0 <= i < |tasks| && tasks[i].start == time && tasks[i].end <= time && FirstAt(tasks, i)
  {
    var lines := LeastAssignment(tasks);
    AnyAssignmentNeeds(lines, tasks, LanesNeeded(tasks), time);
    assert Demand(tasks, time) != ActiveSet(tasks, time);
    var i :| i in Demand(tasks, time) && i !in ActiveSet(tasks, time);
  }
}
