/** When the two loops of the load generator leave: the exact condition, and a run that never does. */
module MultiTurnExit {
  import opened Sums
  import opened MultiTurn
  import opened MultiTurnInvariant
  import opened MultiTurnLedger
  import opened MultiTurnBarrier
  import opened MultiTurnHistory
  import opened MultiTurnOrder
  import opened MultiTurnTheorems

  // ---- failures and the barrier -----------------------------------------------------------

  /** With the barrier on, a failed client stays at the barrier round, and the barrier with it. */
  ghost predicate FailuresWait(cfg: Config, s: State) {
    cfg.barrier ==> forall c :: c in s.failures ==> c < |s.round| && s.round[c] == s.barrierRound
  }

  lemma FailureWaits(cfg: Config, s: State)
    requires Ownership(cfg, s) && Barrier(cfg, s) && FailuresWait(cfg, s) && Enabled(cfg, s, Handle)
    ensures FailuresWait(cfg, DoHandleFailure(s))
  {
    if cfg.barrier { ResponderIsBehind(cfg, s); }
  }

  lemma SuccessLeavesWaiting(cfg: Config, s: State, s': State, c: ClientId)
    requires Shaped(cfg, s) && FailuresWait(cfg, s) && s.responses != [] && c < Clients(cfg) && c !in s.failures
    requires Succeeded(cfg, s, s', c)
    ensures FailuresWait(cfg, s')
  {}

  lemma NoReleaseAfterFailure(cfg: Config, s: State)
    requires Ownership(cfg, s) && Barrier(cfg, s) && FailuresWait(cfg, s) && s.releasing
    ensures forall c :: c !in s.failures
  {
    assert RoundDone(cfg, s);
  }

  lemma StepKeepsWaiting(cfg: Config, s: State, step: Step)
    requires WellFormed(cfg) && Invariant(cfg, s) && FailuresWait(cfg, s) && Enabled(cfg, s, step)
    ensures FailuresWait(cfg, Next(cfg, s, step))
  {
    match step
    case Send(_) =>
    case Complete(_, _, _, _) =>
    case Handle =>
      if s.responses[0].success {
        PoolSufficesHere(cfg, s);
        ResponderIsLive(cfg, s);
        SuccessFields(cfg, s, s.responses[0].client);
        SuccessLeavesWaiting(cfg, s, DoHandleSuccess(cfg, s), s.responses[0].client);
      } else {
        FailureWaits(cfg, s);
      }
    case Release => NoReleaseAfterFailure(cfg, s);
  }

  lemma {:induction false} RunKeepsWaiting(cfg: Config, steps: seq<Step>)
    requires WellFormed(cfg) && Run(cfg, steps).Reached?
    ensures FailuresWait(cfg, Run(cfg, steps).state)
  {
    if steps != [] {
      var before := steps[..|steps| - 1];
      RunKeepsWaiting(cfg, before);
      RunInvariant(cfg, before);
      StepKeepsWaiting(cfg, Run(cfg, before).state, steps[|steps| - 1]);
    }
  }

  // ---- turns not taken ---------------------------------------------------------------------

  function Unfinished(cfg: Config, s: State): (left: seq<int>)
    requires |s.round| == Clients(cfg)
    ensures |left| == Clients(cfg)
    ensures forall c :: 0 <= c < |left| ==> left[c] == Gap(cfg.totalRounds[c], s.round[c])
  {
    seq(Clients(cfg), c requires 0 <= c < Clients(cfg) => Gap(cfg.totalRounds[c], s.round[c]))
  }

  function SetOf(xs: seq<ClientId>): set<ClientId> { set c | c in xs }

  lemma {:induction false} DistinctSize(xs: seq<ClientId>)
    requires Distinct(xs)
    ensures |SetOf(xs)| == |xs|
  {
    if xs == [] {
      assert SetOf(xs) == {};
    } else {
      var n := |xs| - 1;
      DistinctSize(xs[..n]);
      assert SetOf(xs) == SetOf(xs[..n]) + {xs[n]};
    }
  }

  lemma UnfinishedIds(cfg: Config, s: State, failed: set<ClientId>, left: seq<int>)
    requires Ownership(cfg, s) && left == Unfinished(cfg, s) && failed == SetOf(s.failures)
    ensures |Live(cfg, s) + failed| == |Live(cfg, s)| + |s.failures|
    ensures forall c :: c in s.failures ==> c in Live(cfg, s) + failed
    ensures forall c :: c in Live(cfg, s) + failed ==> c < Clients(cfg)
    ensures forall c :: 0 <= c < Clients(cfg) ==> left[c] >= if c in Live(cfg, s) + failed then 1 else 0
    ensures forall c :: 0 <= c < Clients(cfg) && left[c] > 0 ==> c in Live(cfg, s) + failed
  {
    DistinctSize(s.failures);
    assert Live(cfg, s) !! failed;
  }

  /** The turns not yet handled are at least one per live or failed client, and exactly one each only if all of
      them are at their last turn. */
  lemma SlackBound(cfg: Config, s: State)
    requires WellFormed(cfg) && Ownership(cfg, s)
    ensures |Live(cfg, s)| + |s.failures| <= TotalRequests(cfg) - Sum(s.round)
    ensures |Live(cfg, s)| + |s.failures| == TotalRequests(cfg) - Sum(s.round) <==>
      && (forall c :: c in s.failures ==> s.round[c] + 1 == cfg.totalRounds[c])
      && (forall c :: c in Live(cfg, s) ==> s.round[c] + 1 == cfg.totalRounds[c])
  {
    var left := Unfinished(cfg, s);
    var failed := SetOf(s.failures);
    UnfinishedIds(cfg, s, failed, left);
    CountedBySum(Live(cfg, s) + failed, left);
    SumPointwise(left, s.round, cfg.totalRounds);
    if (forall c :: c in s.failures ==> s.round[c] + 1 == cfg.totalRounds[c])
      && forall c :: c in Live(cfg, s) ==> s.round[c] + 1 == cfg.totalRounds[c]
    {
      CountedExactly(Live(cfg, s) + failed, left);
    }
  }

  lemma {:induction false} CountedExactly(ids: set<nat>, xs: seq<int>)
    requires forall i :: 0 <= i < |xs| ==> xs[i] == if i in ids then 1 else 0
    requires forall i :: i in ids ==> i < |xs|
    ensures |ids| == Sum(xs)
  {
    if xs == [] {
      assert ids == {};
    } else {
      var n := |xs| - 1;
      CountedExactly(ids - {n}, xs[..n]);
      if n in ids { assert |ids| == |ids - {n}| + 1; } else { assert ids - {n} == ids; }
    }
  }

  // ---- leaving the loops ------------------------------------------------------------------

  /** No turn was lost: every ended task ticked the progress bar, and whoever failed did so on its last turn, which
      with the barrier on was also the last turn of all. */
  ghost predicate NothingLost(cfg: Config, s: State) {
    && s.untracked == 0
    && forall c :: c in s.failures ==>
         && c < |s.round| && c < Clients(cfg) && s.round[c] + 1 == cfg.totalRounds[c]
         && (cfg.barrier ==> forall d :: 0 <= d < Clients(cfg) ==> cfg.totalRounds[d] <= cfg.totalRounds[c])
  }

  /** With the barrier on, the last turn of a client that fails is the last of all if nobody else is left behind. */
  lemma FailedAtTheEnd(cfg: Config, s: State, c: ClientId, d: ClientId)
    requires Ownership(cfg, s) && Synchronised(cfg, s) && FailuresWait(cfg, s) && cfg.barrier
    requires c in s.failures && s.round[c] + 1 == cfg.totalRounds[c] && d < Clients(cfg)
    requires s.ready == [] && s.inflight == [] && s.parked == []
    requires forall e :: e in s.failures || e in Live(cfg, s) ==> s.round[e] + 1 == cfg.totalRounds[e]
    ensures cfg.totalRounds[d] <= cfg.totalRounds[c]
  {
    assert !s.releasing by { if s.releasing { NoReleaseAfterFailure(cfg, s); } }
    if d in Live(cfg, s) {
      OutstandingIsLive(cfg, s, d);
      assert d in multiset(Responders(s.responses));
      var i :| 0 <= i < |s.responses| && Responders(s.responses)[i] == d;
      assert s.responses[i] in s.responses;
    }
  }

  /** Both loops leave when the progress bar is full. Then nothing is queued, in flight or parked, so no task is lost
      with the event loop, and no turn was lost to a failure. */
  lemma FullProgressMeansDone(cfg: Config, steps: seq<Step>)
    requires WellFormed(cfg) && Run(cfg, steps).Reached?
    requires Run(cfg, steps).state.progress >= TotalRequests(cfg)
    ensures var s := Run(cfg, steps).state;
      && s.progress == TotalRequests(cfg)
      && s.ready == [] && s.inflight == [] && s.parked == []
      && NothingLost(cfg, s)
  {
    RunInvariant(cfg, steps);
    RunKeepsWaiting(cfg, steps);
    var s := Run(cfg, steps).state;
    OutstandingSize(cfg, s);
    SlackBound(cfg, s);
    forall c, d | c in s.failures && 0 <= d < Clients(cfg) && cfg.barrier
      ensures cfg.totalRounds[d] <= cfg.totalRounds[c]
    {
      FailedAtTheEnd(cfg, s, c, d);
    }
  }

  /** At rest, no loss leaves nobody waiting. */
  lemma NothingLostNobodyWaits(cfg: Config, s: State)
    requires WellFormed(cfg) && Invariant(cfg, s) && FailuresWait(cfg, s) && CanSend(cfg) && Quiescent(cfg, s)
    requires NothingLost(cfg, s)
    ensures Live(cfg, s) == {}
  {
    hide Quiescent;
    QuiescenceCharacterised(cfg, s);
  }

  /** A sender that cannot send leaves the initial state as it is. */
  lemma {:induction false} NoSenderNoRun(cfg: Config, steps: seq<Step>)
    requires WellFormed(cfg) && !CanSend(cfg) && Run(cfg, steps).Reached?
    ensures steps == []
  {
    if steps != [] {
      NoSenderNoRun(cfg, steps[..|steps| - 1]);
    }
  }

  lemma EveryClientAsks(cfg: Config)
    requires WellFormed(cfg)
    ensures Clients(cfg) <= TotalRequests(cfg)
  {
    CountedBySum(Upto(Clients(cfg)), cfg.totalRounds);
    UptoSize(Clients(cfg));
  }

  lemma {:induction false} UptoSize(n: nat)
    ensures |Upto(n)| == n
  {
    if n > 0 { UptoSize(n - 1); }
  }

  /** When nothing more can happen, the progress bar is full and both loops leave exactly if the sender can send and no
      turn was lost. */
  lemma ExitsIff(cfg: Config, steps: seq<Step>)
    requires WellFormed(cfg) && (CanSend(cfg) || Clients(cfg) > 0)
    requires Run(cfg, steps).Reached? && Quiescent(cfg, Run(cfg, steps).state)
    ensures var s := Run(cfg, steps).state;
      s.progress == TotalRequests(cfg) <==> CanSend(cfg) && NothingLost(cfg, s)
  {
    var s := Run(cfg, steps).state;
    if !CanSend(cfg) {
      NoSenderNoRun(cfg, steps);
      EveryClientAsks(cfg);
    } else if NothingLost(cfg, s) {
      RunInvariant(cfg, steps);
      RunKeepsWaiting(cfg, steps);
      NothingLostNobodyWaits(cfg, s);
      QuiescentQueues(cfg, s);
      SlackBound(cfg, s);
    } else if s.progress == TotalRequests(cfg) {
      FullProgressMeansDone(cfg, steps);
    }
  }

  // ---- a run that never leaves ------------------------------------------------------------

  /** Two clients, the first with one turn and the second with two, both sent at once. */
  function TwoClients(barrier: bool, prompt: Sample): Config {
    Config([1, 2], 2, 2, barrier, Fifo, Native, [prompt, prompt], [prompt])
  }

  /** The first client's only turn fails, the second client's first one succeeds. */
  function FirstClientFails(output: seq<Token>): seq<Step> {
    [Send(0), Send(0), Complete(0, false, [], true), Complete(0, true, output, true), Handle, Handle]
  }

  /** `states` are the states a run through `steps` goes through. */
  ghost predicate Chain(cfg: Config, steps: seq<Step>, states: seq<State>)
    requires |states| == |steps| + 1 && |cfg.firstPrompts| == |cfg.totalRounds|
  {
    && states[0] == Initial(cfg)
    && forall i :: 0 <= i < |steps| ==> Follows(cfg, states[i], steps[i], states[i + 1])
  }

  ghost predicate Follows(cfg: Config, s: State, step: Step, s': State) {
    Shaped(cfg, s) && Enabled(cfg, s, step) && s' == Next(cfg, s, step)
  }

  lemma {:induction false} ChainIsRun(cfg: Config, steps: seq<Step>, states: seq<State>)
    requires WellFormed(cfg) && |states| == |steps| + 1 && Chain(cfg, steps, states)
    ensures Run(cfg, steps) == Reached(states[|steps|])
  {
    if steps != [] {
      var n := |steps| - 1;
      hide Initial, Shaped, Enabled, Next, WellFormed;
      ChainIsRun(cfg, steps[..n], states[..n + 1]);
      assert Follows(cfg, states[n], steps[n], states[n + 1]);
    }
  }

  lemma TwoClientsWellFormed(barrier: bool, prompt: Sample)
    ensures WellFormed(TwoClients(barrier, prompt))
    ensures TotalRequests(TwoClients(barrier, prompt)) == 3
    ensures ClientsPerRound(TwoClients(barrier, prompt)) == [2, 1]
  {
    var totals: seq<nat> := [1, 2];
    assert totals[..1] == [1] && totals[..1][..0] == [];
    assert OwedAll(totals) == [0, 1] && [0, 1][..1] == [0] && [0][..0] == [];
  }

  /** Both requests are sent, in the order of the clients. */
  lemma BothAreSent(cfg: Config) returns (s1: State, s2: State)
    requires |cfg.firstPrompts| == |cfg.totalRounds| == 2 && cfg.policy == Fifo && cfg.maxParallel == 2
    ensures Follows(cfg, Initial(cfg), Send(0), s1) && Follows(cfg, s1, Send(0), s2)
    ensures s2 == Initial(cfg).(ready := [], inflight := [FirstRequest(cfg, 0), FirstRequest(cfg, 1)], sent := 2)
  {
    var s0 := Initial(cfg);
    var a, b := FirstRequest(cfg, 0), FirstRequest(cfg, 1);
    assert s0.ready == [a, b];
    s1 := s0.(ready := [b], inflight := [a], sent := 1);
    s2 := s1.(ready := [], inflight := [a, b], sent := 2);
  }

  /** The first of two tasks ends without success, the second with it. */
  lemma BothAreAnswered(cfg: Config, s: State, a: Request, b: Request, output: seq<Token>)
    returns (s1: State, s2: State)
    requires Shaped(cfg, s) && s.inflight == [a, b] && s.responses == []
    ensures Follows(cfg, s, Complete(0, false, [], true), s1) && Follows(cfg, s1, Complete(0, true, output, true), s2)
    ensures s2 == s.(inflight := [], progress := s.progress + 2,
                     responses := [Response(a.client, false, []), Response(b.client, true, output)])
  {
    s1 := s.(inflight := [b], responses := [Response(a.client, false, [])], progress := s.progress + 1);
    assert Next(cfg, s, Complete(0, false, [], true)) == s1;
    var both := [Response(a.client, false, []), Response(b.client, true, output)];
    s2 := s1.(inflight := [], responses := both, progress := s.progress + 2);
    assert Next(cfg, s1, Complete(0, true, output, true)) == s2;
  }

  /** The failure is recorded, the success parks the client's next request, and the barrier goes on waiting. */
  lemma BothAreHandled(cfg: Config, s: State, a: ClientId, b: ClientId, output: seq<Token>)
    returns (s1: State, s2: State)
    requires Shaped(cfg, s) && s.responses == [Response(a, false, []), Response(b, true, output)]
    requires cfg.barrier && !s.releasing && !s.handlerDied && s.pool != []
    requires s.barrierRound < cfg.maxRounds && s.barrierCompleted + 1 != ClientsPerRound(cfg)[s.barrierRound]
    requires b < Clients(cfg) && s.round[b] + 1 < cfg.totalRounds[b]
    ensures Follows(cfg, s, Handle, s1) && Follows(cfg, s1, Handle, s2)
    ensures s2.failures == s.failures + [a] && s2.round == s.round[b := s.round[b] + 1]
    ensures s2.responses == [] && s2.ready == s.ready && s2.inflight == s.inflight && !s2.releasing
    ensures Owners(s2.parked) == Owners(s.parked) + [b]
    ensures s2.untracked == s.untracked && s2.progress == s.progress
    ensures s2.sent == s.sent && s2.completed == s.completed + 2
  {
    hide ClientsPerRound, OutputItems, PromptItems;
    s1 := Next(cfg, s, Handle);
    assert s1.responses == [Response(b, true, output)];
    s2 := Next(cfg, s1, Handle);
  }

  lemma StatesOfTheRun(prompt: Sample, output: seq<Token>) returns (states: seq<State>)
    ensures var cfg := TwoClients(true, prompt);
      && WellFormed(cfg) && |states| == 7 && Chain(cfg, FirstClientFails(output), states)
      && Quiescent(cfg, states[6]) && states[6].failures == [0] && states[6].round == [0, 1] && states[6].untracked == 0
      && Owners(states[6].parked) == [1] && states[6].progress == 2 && TotalRequests(cfg) == 3
  {
    TwoClientsWellFormed(true, prompt);
    hide WellFormed, TotalRequests, ClientsPerRound, OutputItems, PromptItems, Follows;
    var cfg := TwoClients(true, prompt);
    var s1, s2 := BothAreSent(cfg);
    var s3, s4 := BothAreAnswered(cfg, s2, FirstRequest(cfg, 0), FirstRequest(cfg, 1), output);
    var s5, s6 := BothAreHandled(cfg, s4, 0, 1, output);
    states := [Initial(cfg), s1, s2, s3, s4, s5, s6];
  }

  /** A failure on a client's own last turn also keeps the loops going for ever, if the barrier is on and another
      client has more turns: the second client stays parked behind the barrier. */
  lemma LastTurnFailureHangs(prompt: Sample, output: seq<Token>)
    ensures var cfg := TwoClients(true, prompt);
      && WellFormed(cfg) && CanSend(cfg)
      && var o := Run(cfg, FirstClientFails(output));
         && o.Reached? && Quiescent(cfg, o.state)
         && o.state.failures == [0] && o.state.round[0] + 1 == cfg.totalRounds[0] && o.state.untracked == 0
         && Owners(o.state.parked) == [1]
         && o.state.progress < TotalRequests(cfg)
  {
    var states := StatesOfTheRun(prompt, output);
    ChainIsRun(TwoClients(true, prompt), FirstClientFails(output), states);
  }

  // ---- a loss is for good -----------------------------------------------------------------

  lemma FailuresPersist(cfg: Config, s: State, step: Step)
    requires WellFormed(cfg) && Invariant(cfg, s) && Enabled(cfg, s, step)
    ensures var s' := Next(cfg, s, step);
      && s.untracked <= s'.untracked && |s'.round| == |s.round|
      && forall c :: c in s.failures ==> c in s'.failures && c < |s.round| && s'.round[c] == s.round[c]
  {
    hide Counters, Pool, Barrier, Histories, InOrder;
    if step.Handle? && s.responses[0].success {
      ResponderIsLive(cfg, s);
      PoolSufficesHere(cfg, s);
      SuccessFields(cfg, s, s.responses[0].client);
      hide Next;
      SuccessKeepsUntracked(cfg, s);
    }
  }

  lemma SuccessKeepsUntracked(cfg: Config, s: State)
    requires Shaped(cfg, s) && Enabled(cfg, s, Handle) && s.responses[0].success
    ensures Next(cfg, s, Handle) == DoHandleSuccess(cfg, s) && Next(cfg, s, Handle).untracked == s.untracked
  {}

  lemma LossPersists(cfg: Config, s: State, step: Step)
    requires WellFormed(cfg) && Invariant(cfg, s) && Enabled(cfg, s, step) && !NothingLost(cfg, s)
    ensures !NothingLost(cfg, Next(cfg, s, step))
  {
    FailuresPersist(cfg, s, step);
    hide Next, Invariant, WellFormed, Enabled;
  }

  /** Once a turn is lost the progress bar stays short of full in every continuation: neither loop ever leaves. */
  lemma {:induction false} LossNeverExits(cfg: Config, steps: seq<Step>, more: seq<Step>)
    requires WellFormed(cfg) && Run(cfg, steps).Reached? && Run(cfg, steps + more).Reached?
    requires !NothingLost(cfg, Run(cfg, steps).state)
    ensures !NothingLost(cfg, Run(cfg, steps + more).state)
    ensures Run(cfg, steps + more).state.progress < TotalRequests(cfg)
  {
    hide NothingLost;
    if more == [] {
      assert steps + more == steps;
    } else {
      RunSplit(cfg, steps, more);
      LossNeverExits(cfg, steps, more[..|more| - 1]);
      LossPersists(cfg, Run(cfg, steps + more[..|more| - 1]).state, more[|more| - 1]);
    }
    if Run(cfg, steps + more).state.progress >= TotalRequests(cfg) {
      FullProgressMeansDone(cfg, steps + more);
    }
  }
}
