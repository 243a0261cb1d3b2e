/** What holds of every run of the load generator. */
module MultiTurnTheorems {
  import opened Prelude
  import opened Sums
  import opened MultiTurn
  import opened MultiTurnInvariant
  import opened MultiTurnLedger
  import opened MultiTurnBarrier
  import opened MultiTurnHistory
  import opened MultiTurnOrder

  ghost predicate Invariant(cfg: Config, s: State) {
    && Ownership(cfg, s) && Counters(cfg, s) && Pool(cfg, s) && Barrier(cfg, s) && Histories(cfg, s) && InOrder(cfg, s)
  }

  lemma StepKeepsInvariant(cfg: Config, s: State, step: Step)
    requires WellFormed(cfg) && Invariant(cfg, s) && Enabled(cfg, s, step)
    ensures Invariant(cfg, Next(cfg, s, step))
  {
    StepKeepsOwnership(cfg, s, step);
    StepKeepsCounters(cfg, s, step);
    StepKeepsPool(cfg, s, step);
    StepKeepsBarrier(cfg, s, step);
    StepKeepsHistories(cfg, s, step);
    StepKeepsOrder(cfg, s, step);
  }

  lemma {:induction false} RunInvariant(cfg: Config, steps: seq<Step>)
    requires WellFormed(cfg) && Run(cfg, steps).Reached?
    ensures Invariant(cfg, Run(cfg, steps).state)
  {
    if steps == [] {
      InitialOwnership(cfg);
      InitialCounters(cfg);
      InitialPool(cfg);
      InitialBarrier(cfg);
      InitialHistories(cfg);
      InitialOrder(cfg);
    } else {
      var before := steps[..|steps| - 1];
      RunInvariant(cfg, before);
      StepKeepsInvariant(cfg, Run(cfg, before).state, steps[|steps| - 1]);
    }
  }

  // ---- one outstanding request per client, and the resource bounds ------------------------

  lemma OneOutstandingRequest(cfg: Config, steps: seq<Step>)
    requires WellFormed(cfg) && Run(cfg, steps).Reached?
    ensures var s := Run(cfg, steps).state;
      && (forall c :: 0 <= c < Clients(cfg) ==>
            Outstanding(s)[c] == if s.round[c] < cfg.totalRounds[c] && c !in s.failures then 1 else 0)
      && 0 <= s.sent - s.completed == |s.inflight| + |s.responses| <= Max(0, cfg.maxParallel)
      && !s.handlerDied
      && |s.pool| >= Sum(OwedAll(cfg.totalRounds)) - Sum(DrawnAll(cfg.totalRounds, s.round))
  {
    RunInvariant(cfg, steps);
    var s := Run(cfg, steps).state;
    PoolCoversOwed(cfg, s);
    forall c | 0 <= c < Clients(cfg)
      ensures Outstanding(s)[c] == if s.round[c] < cfg.totalRounds[c] && c !in s.failures then 1 else 0
    {
      OutstandingIsLive(cfg, s, c);
    }
  }

  // ---- barrier safety ---------------------------------------------------------------------

  /** The successful response of client `d` for turn `r` has been handled. */
  ghost predicate Handled(s: State, d: ClientId, r: nat) {
    exists i :: 0 <= i < |s.metrics| && s.metrics[i].client == d && s.metrics[i].turn == r
  }

  lemma {:induction false} TurnIsLogged(cfg: Config, log: seq<Metric>, c: ClientId, r: nat) returns (i: nat)
    requires Numbered(cfg, log) && r < TurnsOf(log, c)
    ensures i < |log| && log[i].client == c && log[i].turn == r
  {
    var n := |log| - 1;
    if log[n].client == c && TurnsOf(log[..n], c) == r {
      i := n;
    } else {
      var earlier := log[..n];
      forall j | 0 <= j < n
        ensures earlier[j].client < Clients(cfg) && earlier[j].turn == TurnsOf(earlier[..j], earlier[j].client)
      {
        assert log[..n][..j] == log[..j];
      }
      i := TurnIsLogged(cfg, log[..n], c, r);
    }
  }

  /** With the barrier on, a client past turn `r` has a request ready, in flight or answered only after every client
      taking part in turn `r` had its turn-`r` response handled. */
  lemma BarrierSafety(cfg: Config, steps: seq<Step>, c: ClientId, d: ClientId, r: nat)
    requires WellFormed(cfg) && cfg.barrier && Run(cfg, steps).Reached?
    requires var s := Run(cfg, steps).state;
      c in Owners(s.ready) || c in Owners(s.inflight) || c in Responders(s.responses)
    requires c < Clients(cfg) && r < Run(cfg, steps).state.round[c]
    requires d < Clients(cfg) && cfg.totalRounds[d] > r
    ensures Handled(Run(cfg, steps).state, d, r)
  {
    RunInvariant(cfg, steps);
    var s := Run(cfg, steps).state;
    BarrierHolds(cfg, s, c, d, r);
    var i := TurnIsLogged(cfg, s.metrics, d, r);
  }

  lemma BarrierHolds(cfg: Config, s: State, c: ClientId, d: ClientId, r: nat)
    requires Ownership(cfg, s) && Synchronised(cfg, s) && c < Clients(cfg) && r < s.round[c]
    requires c in Owners(s.ready) || c in Owners(s.inflight) || c in Responders(s.responses)
    requires d < Clients(cfg) && cfg.totalRounds[d] > r
    ensures s.round[d] > r
  {
    if s.releasing {
      assert || c in multiset(Owners(s.ready)) || c in multiset(Owners(s.inflight))
             || c in multiset(Responders(s.responses));
      OutstandingIsLive(cfg, s, c);
    } else if c in Responders(s.responses) {
      var i :| 0 <= i < |s.responses| && Responders(s.responses)[i] == c;
      assert s.responses[i] in s.responses;
    } else {
      var q := if c in Owners(s.ready) then s.ready else s.inflight;
      var i :| 0 <= i < |q| && Owners(q)[i] == c;
      assert q[i] in q;
    }
  }

  /** The barrier counter counts the clients just past the current round, the parked requests are theirs, and
      the metrics log is ordered by round. */
  ghost predicate Bookkept(cfg: Config, s: State) {
    && s.barrierCompleted == CountAt(s.round, s.barrierRound + 1)
    && (forall q :: q in s.parked ==> q.client < |s.round| && s.round[q.client] == s.barrierRound + 1)
    && (forall i, j :: 0 <= i < j < |s.metrics| ==> s.metrics[i].turn <= s.metrics[j].turn)
  }

  lemma SynchronisedIsBookkept(cfg: Config, s: State)
    requires Ownership(cfg, s) && Synchronised(cfg, s)
    ensures Bookkept(cfg, s)
  {
    forall q | q in s.parked
      ensures q.client < |s.round| && s.round[q.client] == s.barrierRound + 1
    {
      QueuedIsLive(cfg, s, q);
    }
  }

  lemma BarrierBookkeeping(cfg: Config, steps: seq<Step>)
    requires WellFormed(cfg) && cfg.barrier && Run(cfg, steps).Reached?
    ensures Bookkept(cfg, Run(cfg, steps).state)
  {
    RunInvariant(cfg, steps);
    SynchronisedIsBookkept(cfg, Run(cfg, steps).state);
  }

  /** A first-in-first-out ready queue sends in the order of creation: first every client in turn, then each follow-up
      in the order in which its response was handled, with or without the barrier. */
  lemma FifoSendsInOrder(cfg: Config, steps: seq<Step>)
    requires WellFormed(cfg) && cfg.policy.Fifo? && Run(cfg, steps).Reached?
    ensures var s := Run(cfg, steps).state;
      s.sent <= |Created(cfg, s)| && Owners(s.ready + s.parked) == Created(cfg, s)[s.sent..]
  {
    RunInvariant(cfg, steps);
  }

  // ---- termination ------------------------------------------------------------------------

  function Gap(total: nat, round: nat): int { total - round }

  /** Turns not yet handled, of the clients that have not failed. */
  function Remaining(cfg: Config, s: State): (left: seq<int>)
    requires |s.round| == Clients(cfg)
    ensures |left| == Clients(cfg)
    ensures forall c :: 0 <= c < |left| ==>
      left[c] == if c in s.failures then 0 else Gap(cfg.totalRounds[c], s.round[c])
  {
    seq(Clients(cfg), c requires 0 <= c < Clients(cfg) =>
      if c in s.failures then 0 else Gap(cfg.totalRounds[c], s.round[c]))
  }

  function Measure(cfg: Config, s: State): int
    requires |s.round| == Clients(cfg)
  {
    8 * Sum(Remaining(cfg, s)) - 2 * |s.ready| - 4 * |s.inflight| - 6 * |s.responses| + if s.releasing then 1 else 0
  }

  lemma {:induction false} CountedBySum(ids: set<nat>, xs: seq<int>)
    requires forall i :: 0 <= i < |xs| ==> xs[i] >= if i in ids then 1 else 0
    requires forall i :: i in ids ==> i < |xs|
    ensures |ids| <= Sum(xs)
    ensures |ids| == Sum(xs) ==> forall i :: i in ids ==> xs[i] == 1
  {
    if xs == [] {
      assert ids == {};
    } else {
      var n := |xs| - 1;
      CountedBySum(ids - {n}, xs[..n]);
      if n in ids { assert |ids| == |ids - {n}| + 1; } else { assert ids - {n} == ids; }
    }
  }

  lemma {:induction false} MultisetSize(ids: set<ClientId>)
    ensures |multiset(ids)| == |ids|
  {
    if ids != {} {
      var c :| c in ids;
      MultisetSize(ids - {c});
      SetAsMultiset(ids, c);
    }
  }

  lemma OutstandingSize(cfg: Config, s: State)
    requires Ownership(cfg, s)
    ensures |s.ready| + |s.inflight| + |s.responses| + |s.parked| == |Live(cfg, s)|
  {
    MultisetSize(Live(cfg, s));
    assert |multiset(Owners(s.ready))| == |s.ready|;
  }

  lemma MeasureIsNatural(cfg: Config, s: State)
    requires Ownership(cfg, s)
    ensures Measure(cfg, s) >= 0
  {
    OutstandingSize(cfg, s);
    CountedBySum(Live(cfg, s), Remaining(cfg, s));
  }

  lemma TurnUsesOneRemaining(cfg: Config, s: State, s': State, c: ClientId)
    requires |s.round| == Clients(cfg) && c < Clients(cfg) && c !in s.failures
    requires s'.round == s.round[c := s.round[c] + 1] && s'.failures == s.failures
    ensures Sum(Remaining(cfg, s')) == Sum(Remaining(cfg, s)) - 1
  {
    var left, left' := Remaining(cfg, s), Remaining(cfg, s');
    SumUpdate(left, c, left[c] - 1);
    forall d | 0 <= d < Clients(cfg) ensures left'[d] == left[c := left[c] - 1][d] {
      assert s'.round[d] == if d == c then s.round[c] + 1 else s.round[d];
    }
    assert left' == left[c := left[c] - 1];
  }

  lemma SuccessDecreases(cfg: Config, s: State, s': State, c: ClientId)
    requires Shaped(cfg, s) && s.responses != [] && c < Clients(cfg) && c !in s.failures
    requires Succeeded(cfg, s, s', c) && !s.releasing
    ensures Measure(cfg, s') < Measure(cfg, s)
  {
    TurnUsesOneRemaining(cfg, s, s', c);
    assert |s'.responses| == |s.responses| - 1;
    assert |s'.ready| >= |s.ready|;
  }

  lemma FailureDropsRemaining(cfg: Config, s: State, c: ClientId)
    requires |s.round| == Clients(cfg) && s.responses != [] && c == s.responses[0].client
    requires c < Clients(cfg) && c !in s.failures
    ensures Sum(Remaining(cfg, DoHandleFailure(s))) == Sum(Remaining(cfg, s)) - Gap(cfg.totalRounds[c], s.round[c])
  {
    var left, left' := Remaining(cfg, s), Remaining(cfg, DoHandleFailure(s));
    SumUpdate(left, c, 0);
    assert left' == left[c := 0];
  }

  lemma StepDecreases(cfg: Config, s: State, step: Step)
    requires WellFormed(cfg) && Invariant(cfg, s) && Enabled(cfg, s, step)
    ensures Measure(cfg, Next(cfg, s, step)) < Measure(cfg, s)
  {
    if !step.Handle? {
      assert Remaining(cfg, Next(cfg, s, step)) == Remaining(cfg, s);
    } else if s.responses[0].success {
      PoolSufficesHere(cfg, s);
      SuccessFields(cfg, s, s.responses[0].client);
      ResponderIsLive(cfg, s);
      SuccessDecreases(cfg, s, DoHandleSuccess(cfg, s), s.responses[0].client);
    } else {
      ResponderIsLive(cfg, s);
      FailureDropsRemaining(cfg, s, s.responses[0].client);
    }
  }

  lemma InitialMeasure(cfg: Config)
    requires WellFormed(cfg)
    ensures Measure(cfg, Initial(cfg)) <= 8 * TotalRequests(cfg)
  {
    var s := Initial(cfg);
    var left := Remaining(cfg, s);
    assert |left| == |cfg.totalRounds|;
    forall c | 0 <= c < |left| ensures left[c] == cfg.totalRounds[c] {
      assert s.round[c] == 0;
    }
    SumMonotone(left, cfg.totalRounds);
  }

  /** Every run, with or without failures, takes at most eight steps per request. */
  lemma {:induction false} RunsAreBounded(cfg: Config, steps: seq<Step>)
    requires WellFormed(cfg) && Run(cfg, steps).Reached?
    ensures |steps| + Measure(cfg, Run(cfg, steps).state) <= 8 * TotalRequests(cfg)
    ensures |steps| <= 8 * TotalRequests(cfg)
  {
    RunInvariant(cfg, steps);
    MeasureIsNatural(cfg, Run(cfg, steps).state);
    if steps == [] {
      InitialMeasure(cfg);
    } else {
      var before := steps[..|steps| - 1];
      RunsAreBounded(cfg, before);
      RunInvariant(cfg, before);
      StepDecreases(cfg, Run(cfg, before).state, steps[|steps| - 1]);
    }
  }

  /** What can happen next in a run, exactly: below the limit the sender starts any ready request, or the oldest one;
      any request in flight ends in any way; and the handler either releases or takes the next response. */
  lemma WhatCanHappen(cfg: Config, steps: seq<Step>, step: Step)
    requires WellFormed(cfg) && Run(cfg, steps).Reached?
    ensures var s := Run(cfg, steps).state;
      Run(cfg, steps + [step]).Reached? <==>
        match step
        case Send(k) => |s.inflight| + |s.responses| < cfg.maxParallel && k < |s.ready|
                        && (match cfg.policy case Random => true case Fifo => k == 0 case Unknown(_) => false)
        case Complete(k, success, _, tracked) => k < |s.inflight| && (success ==> tracked)
        case Handle => s.responses != [] && !s.releasing
        case Release => s.releasing
  {
    assert (steps + [step])[..|steps|] == steps;
    OneOutstandingRequest(cfg, steps);
    hide Next, Shaped, Outstanding;
  }

  // ---- deadlock freedom -------------------------------------------------------------------

  /** The sender can start a request at all: some parallelism, and a policy the ready queue knows. */
  predicate CanSend(cfg: Config) {
    cfg.maxParallel >= 1 && !cfg.policy.Unknown?
  }

  ghost predicate Quiescent(cfg: Config, s: State) {
    forall step :: !Enabled(cfg, s, step)
  }

  ghost predicate AllFinished(cfg: Config, s: State) {
    |s.round| == Clients(cfg) && forall c :: 0 <= c < Clients(cfg) ==> s.round[c] == cfg.totalRounds[c]
  }

  lemma QuiescentQueues(cfg: Config, s: State)
    requires Invariant(cfg, s) && CanSend(cfg) && Quiescent(cfg, s)
    ensures s.ready == [] && s.inflight == [] && s.responses == [] && !s.releasing
  {
    assert !Enabled(cfg, s, Complete(0, true, [], true));
    assert !Enabled(cfg, s, Release);
    assert !Enabled(cfg, s, Handle);
    assert !Enabled(cfg, s, Send(0));
  }

  /** When nothing more can happen, either no live client is left, or the barrier waits for a failed
      client of the current round and every live client is parked one round ahead. */
  lemma QuiescenceCharacterised(cfg: Config, s: State)
    requires WellFormed(cfg) && Invariant(cfg, s) && CanSend(cfg) && Quiescent(cfg, s)
    ensures Live(cfg, s) != {} ==>
      && cfg.barrier
      && (exists d :: d in s.failures && s.round[d] == s.barrierRound)
      && (forall c :: c in Live(cfg, s) ==> s.round[c] == s.barrierRound + 1)
  {
    QuiescentQueues(cfg, s);
    OutstandingSize(cfg, s);
    if Live(cfg, s) != {} {
      assert cfg.barrier;
      forall c | c in Live(cfg, s) ensures s.round[c] == s.barrierRound + 1 {
        OutstandingIsLive(cfg, s, c);
        assert c in multiset(Owners(s.parked));
        var i :| 0 <= i < |s.parked| && Owners(s.parked)[i] == c;
        assert s.parked[i] in s.parked;
      }
      SomeoneIsBehind(cfg, s);
    }
  }

  lemma SomeoneIsBehind(cfg: Config, s: State)
    requires cfg.barrier && Ownership(cfg, s) && Synchronised(cfg, s) && !s.releasing && Live(cfg, s) != {}
    requires forall c :: c in Live(cfg, s) ==> s.round[c] == s.barrierRound + 1
    ensures exists d :: d in s.failures && s.round[d] == s.barrierRound
  {
    CountsCompare(s.round, cfg.totalRounds, s.barrierRound + 1, s.barrierRound);
    var c :| c in Live(cfg, s);
    if s.barrierCompleted == CountAbove(cfg.totalRounds, s.barrierRound) {
      CountAtSome(s.round, s.barrierRound + 1, c);
      assert false;
    }
    var d :| 0 <= d < Clients(cfg) && cfg.totalRounds[d] > s.barrierRound && s.round[d] != s.barrierRound + 1;
    assert d !in Live(cfg, s);
  }

  lemma {:induction false} CountAtSome(xs: seq<nat>, v: nat, i: nat)
    requires i < |xs| && xs[i] == v
    ensures CountAt(xs, v) >= 1
  {
    if i < |xs| - 1 { CountAtSome(xs[..|xs| - 1], v, i); }
  }

  /** Without failures something can always happen until every client has finished; then every request
      was sent, answered, handled and ticked, and the number handled is the sum over the rounds. */
  lemma NoFailureNoDeadlock(cfg: Config, steps: seq<Step>)
    requires WellFormed(cfg) && CanSend(cfg) && FailureFree(steps) && Run(cfg, steps).Reached?
    ensures var s := Run(cfg, steps).state;
      && (Quiescent(cfg, s) <==> AllFinished(cfg, s) && !s.releasing)
      && (Quiescent(cfg, s) ==>
            && |s.metrics| == s.sent == s.completed == s.progress == TotalRequests(cfg) == Sum(ClientsPerRound(cfg))
            && s.ready == [] && s.inflight == [] && s.responses == [] && s.parked == [])
  {
    RunInvariant(cfg, steps);
    FailureFreeRun(cfg, steps);
    var s := Run(cfg, steps).state;
    if Quiescent(cfg, s) {
      QuiescenceCharacterised(cfg, s);
      QuiescentQueues(cfg, s);
      OutstandingSize(cfg, s);
      forall c | 0 <= c < Clients(cfg) ensures s.round[c] == cfg.totalRounds[c] {
        assert c !in Live(cfg, s);
      }
      assert s.round == cfg.totalRounds;
      DoubleCounting(cfg.totalRounds, cfg.maxRounds);
    }
    if AllFinished(cfg, s) && !s.releasing {
      assert Live(cfg, s) == {};
      OutstandingSize(cfg, s);
    }
  }

  ghost predicate FailureFree(steps: seq<Step>) {
    forall i :: 0 <= i < |steps| && steps[i].Complete? ==> steps[i].success
  }

  lemma {:induction false} FailureFreeRun(cfg: Config, steps: seq<Step>)
    requires WellFormed(cfg) && FailureFree(steps) && Run(cfg, steps).Reached?
    ensures var s := Run(cfg, steps).state;
      s.failures == [] && s.untracked == 0 && forall q :: q in s.responses ==> q.success
  {
    if steps != [] {
      var before := steps[..|steps| - 1];
      FailureFreeRun(cfg, before);
      assert steps[|steps| - 1].Complete? ==> steps[|steps| - 1].success;
    }
  }

  /** A sender that cannot send is stuck from the start, whenever there is a client at all. */
  lemma StuckFromTheStart(cfg: Config)
    requires WellFormed(cfg) && Clients(cfg) > 0
    ensures Quiescent(cfg, Initial(cfg)) <==> !CanSend(cfg)
  {
    if CanSend(cfg) {
      assert Enabled(cfg, Initial(cfg), Send(0));
    }
  }

  /** The last step of a longer run. */
  lemma RunSplit(cfg: Config, steps: seq<Step>, more: seq<Step>)
    requires WellFormed(cfg) && more != [] && Run(cfg, steps + more).Reached?
    ensures var m := steps + more[..|more| - 1];
      && Run(cfg, m).Reached? && Invariant(cfg, Run(cfg, m).state)
      && Enabled(cfg, Run(cfg, m).state, more[|more| - 1])
      && Run(cfg, steps + more).state == Next(cfg, Run(cfg, m).state, more[|more| - 1])
  {
    assert (steps + more)[..|steps + more| - 1] == steps + more[..|more| - 1];
    RunInvariant(cfg, steps + more[..|more| - 1]);
  }

  // ---- history integrity ------------------------------------------------------------------

  /** Every request still to be answered carries its client's whole dialogue: `k` answers and `k` questions after
      the first prompt, alternating, where `k` is the client's round. */
  lemma PayloadIsDialogue(cfg: Config, steps: seq<Step>, q: Request)
    requires WellFormed(cfg) && Run(cfg, steps).Reached?
    requires var s := Run(cfg, steps).state; q in s.ready || q in s.inflight || q in s.parked
    ensures var s := Run(cfg, steps).state;
      && Asked(cfg, s.metrics) <= |cfg.subQuestions|
      && var d := Dialogue(cfg, s.metrics, q.client);
         && Payload(s, q) == Flatten(d)
         && q.outputLen == Requested(cfg, s.metrics, q.client)
         && |d| == 2 * s.round[q.client] + 1
         && forall i :: 0 <= i < |d| ==>
              if i == 0 then d[i].Prompt? else if i % 2 == 1 then d[i].Answer? else d[i].Question?
  {
    RunInvariant(cfg, steps);
    var s := Run(cfg, steps).state;
    QueuedIsLive(cfg, s, q);
    DialogueAlternates(cfg, s.metrics, q.client);
  }

  lemma StepExtendsHistory(cfg: Config, s: State, step: Step, c: ClientId)
    requires WellFormed(cfg) && Invariant(cfg, s) && Enabled(cfg, s, step) && c < Clients(cfg)
    ensures var s' := Next(cfg, s, step);
      && s.history[c] <= s'.history[c]
      && s.round[c] <= s'.round[c]
      && (s'.round[c] == s.round[c] ==> s'.history[c] == s.history[c])
  {
    if step.Handle? && s.responses[0].success {
      PoolSufficesHere(cfg, s);
      SuccessFields(cfg, s, s.responses[0].client);
    }
  }

  /** Along any run a client's history only grows at its end, and not at all while the client stays at
      the same round; so the list a request shares is unchanged as long as the request is outstanding. */
  lemma {:induction false} HistoriesExtend(cfg: Config, steps: seq<Step>, more: seq<Step>, c: ClientId)
    requires WellFormed(cfg) && Run(cfg, steps).Reached? && Run(cfg, steps + more).Reached? && c < Clients(cfg)
    ensures var s, s' := Run(cfg, steps).state, Run(cfg, steps + more).state;
      && s.history[c] <= s'.history[c]
      && s.round[c] <= s'.round[c]
      && (s'.round[c] == s.round[c] ==> s'.history[c] == s.history[c])
  {
    if more == [] {
      assert steps + more == steps;
    } else {
      RunSplit(cfg, steps, more);
      HistoriesExtend(cfg, steps, more[..|more| - 1], c);
      StepExtendsHistory(cfg, Run(cfg, steps + more[..|more| - 1]).state, more[|more| - 1], c);
    }
  }
}
