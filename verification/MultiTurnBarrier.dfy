/** The round barrier: its counter, the parked requests and the clients' rounds fit together. */
module MultiTurnBarrier {
  import opened Prelude
  import opened Sums
  import opened MultiTurn
  import opened MultiTurnInvariant
  import opened MultiTurnLedger

  ghost predicate AtRound(round: seq<nat>, q: seq<Request>, r: nat) {
    forall x :: x in q ==> x.client < |round| && round[x.client] == r
  }

  ghost predicate AnsweredAtRound(round: seq<nat>, q: seq<Response>, r: nat) {
    forall x :: x in q ==> x.client < |round| && round[x.client] == r
  }

  /** Every client is at the current barrier round or just past it, as far as it has turns. */
  ghost predicate InStep(cfg: Config, s: State) {
    && |s.round| == Clients(cfg)
    && forall c :: 0 <= c < Clients(cfg) ==>
         Min(cfg.totalRounds[c], s.barrierRound) <= s.round[c] <= Min(cfg.totalRounds[c], s.barrierRound + 1)
  }

  /** All clients taking part in the current round have finished it. */
  ghost predicate RoundDone(cfg: Config, s: State)
    requires |s.round| == Clients(cfg)
  {
    forall c :: 0 <= c < Clients(cfg) && cfg.totalRounds[c] > s.barrierRound ==> s.round[c] == s.barrierRound + 1
  }

  /** The metrics log is ordered by round, up to round `r`. */
  ghost predicate LogInOrder(log: seq<Metric>, r: nat) {
    && (forall i :: 0 <= i < |log| ==> log[i].turn <= r)
    && (forall i, j :: 0 <= i < j < |log| ==> log[i].turn <= log[j].turn)
  }

  ghost predicate Synchronised(cfg: Config, s: State) {
    && InStep(cfg, s)
    && s.barrierRound <= cfg.maxRounds
    && s.barrierCompleted == CountAt(s.round, s.barrierRound + 1)
    && (s.releasing ==> s.barrierRound < cfg.maxRounds && RoundDone(cfg, s))
    && (!s.releasing ==>
          && (s.barrierCompleted < CountAbove(cfg.totalRounds, s.barrierRound)
              || CountAbove(cfg.totalRounds, s.barrierRound) == 0)
          && AtRound(s.round, s.ready, s.barrierRound)
          && AtRound(s.round, s.inflight, s.barrierRound)
          && AnsweredAtRound(s.round, s.responses, s.barrierRound)
          && AtRound(s.round, s.parked, s.barrierRound + 1))
    && LogInOrder(s.metrics, s.barrierRound)
  }

  ghost predicate Barrier(cfg: Config, s: State) {
    if cfg.barrier then Synchronised(cfg, s)
    else s.parked == [] && !s.releasing && s.barrierRound == 0 && s.barrierCompleted == 0
  }

  // ---- who owns what ---------------------------------------------------------------------

  lemma QueuedIsLive(cfg: Config, s: State, q: Request)
    requires Ownership(cfg, s) && (q in s.ready || q in s.inflight || q in s.parked)
    ensures q.client in Live(cfg, s)
  {
    if q in s.ready {
      var i :| 0 <= i < |s.ready| && s.ready[i] == q;
      assert Owners(s.ready)[i] in multiset(Owners(s.ready));
    } else if q in s.inflight {
      var i :| 0 <= i < |s.inflight| && s.inflight[i] == q;
      assert Owners(s.inflight)[i] in multiset(Owners(s.inflight));
    } else {
      var i :| 0 <= i < |s.parked| && s.parked[i] == q;
      assert Owners(s.parked)[i] in multiset(Owners(s.parked));
    }
    OutstandingIsLive(cfg, s, q.client);
  }

  lemma AnsweredIsLive(cfg: Config, s: State, q: Response)
    requires Ownership(cfg, s) && q in s.responses
    ensures q.client in Live(cfg, s)
  {
    var i :| 0 <= i < |s.responses| && s.responses[i] == q;
    assert Responders(s.responses)[i] in multiset(Responders(s.responses));
    OutstandingIsLive(cfg, s, q.client);
  }

  /** The client whose response is next owns no other request. */
  lemma ResponderOwnsNoOther(cfg: Config, s: State)
    requires Ownership(cfg, s) && s.responses != []
    ensures forall q :: q in s.ready || q in s.inflight || q in s.parked ==> q.client != s.responses[0].client
    ensures forall q :: q in s.responses[1..] ==> q.client != s.responses[0].client
  {
    var c := s.responses[0].client;
    RespondersOfTail(s.responses);
    OutstandingIsLive(cfg, s, c);
    forall q | q in s.ready || q in s.inflight || q in s.parked
      ensures q.client != c
    {
      if q in s.ready {
        var i :| 0 <= i < |s.ready| && s.ready[i] == q;
        assert Owners(s.ready)[i] in multiset(Owners(s.ready));
      } else if q in s.inflight {
        var i :| 0 <= i < |s.inflight| && s.inflight[i] == q;
        assert Owners(s.inflight)[i] in multiset(Owners(s.inflight));
      } else {
        var i :| 0 <= i < |s.parked| && s.parked[i] == q;
        assert Owners(s.parked)[i] in multiset(Owners(s.parked));
      }
    }
    forall q | q in s.responses[1..]
      ensures q.client != c
    {
      var i :| 0 <= i < |s.responses[1..]| && s.responses[1..][i] == q;
      assert Responders(s.responses[1..])[i] in multiset(Responders(s.responses[1..]));
    }
  }

  // ---- preservation ----------------------------------------------------------------------

  lemma InitialBarrier(cfg: Config)
    requires WellFormed(cfg)
    ensures Barrier(cfg, Initial(cfg))
  {
    CountAtNone(Initial(cfg).round, 1);
  }

  lemma SuccessKeepsRounds(cfg: Config, s: State, c: ClientId)
    requires Synchronised(cfg, s) && !s.releasing
    requires c < Clients(cfg) && s.round[c] == s.barrierRound < cfg.totalRounds[c]
    ensures var round := s.round[c := s.round[c] + 1];
      && CountAt(round, s.barrierRound + 1) == s.barrierCompleted + 1 <= CountAbove(cfg.totalRounds, s.barrierRound)
      && (s.barrierCompleted + 1 == CountAbove(cfg.totalRounds, s.barrierRound) <==>
            forall d :: 0 <= d < Clients(cfg) && cfg.totalRounds[d] > s.barrierRound ==> round[d] == s.barrierRound + 1)
  {
    CountAtUpdate(s.round, c, s.round[c] + 1, s.barrierRound + 1);
    CountsCompare(s.round[c := s.round[c] + 1], cfg.totalRounds, s.barrierRound + 1, s.barrierRound);
  }

  lemma SuccessKeepsBarrier(cfg: Config, s: State)
    requires WellFormed(cfg) && Ownership(cfg, s) && Pool(cfg, s) && Barrier(cfg, s)
    requires !s.releasing && s.responses != []
    ensures Barrier(cfg, DoHandleSuccess(cfg, s))
  {
    var c := s.responses[0].client;
    PoolSufficesHere(cfg, s);
    SuccessFields(cfg, s, c);
    if cfg.barrier {
      SuccessKeepsSynchronised(cfg, s, DoHandleSuccess(cfg, s), c);
    }
  }

  lemma ResponderIsBehind(cfg: Config, s: State)
    requires Ownership(cfg, s) && Synchronised(cfg, s) && !s.releasing && s.responses != []
    ensures var c := s.responses[0].client; c < Clients(cfg) && s.round[c] == s.barrierRound < cfg.totalRounds[c]
  {
    assert s.responses[0] in s.responses;
    ResponderIsLive(cfg, s);
  }

  lemma LogStaysInOrder(log: seq<Metric>, m: Metric)
    requires LogInOrder(log, m.turn)
    ensures LogInOrder(log + [m], m.turn)
  {}

  lemma RoundsStayInStep(cfg: Config, s: State, s': State, c: ClientId)
    requires InStep(cfg, s) && c < Clients(cfg) && s.round[c] == s.barrierRound < cfg.totalRounds[c]
    requires s'.round == s.round[c := s.round[c] + 1] && s'.barrierRound == s.barrierRound
    ensures InStep(cfg, s')
  {}

  lemma SuccessCounts(cfg: Config, s: State, s': State, c: ClientId)
    requires WellFormed(cfg) && cfg.barrier && Synchronised(cfg, s) && !s.releasing && !s.handlerDied
    requires c < Clients(cfg) && s.round[c] == s.barrierRound < cfg.totalRounds[c]
    requires s'.round == s.round[c := s.round[c] + 1] && TurnCounted(cfg, s, s')
    ensures s.barrierRound < cfg.maxRounds && s'.barrierRound == s.barrierRound
    ensures s'.barrierCompleted == CountAt(s'.round, s.barrierRound + 1)
    ensures s'.releasing ==> RoundDone(cfg, s')
    ensures !s'.releasing ==> s'.barrierCompleted < CountAbove(cfg.totalRounds, s.barrierRound)
  {
    hide CountAt, CountAbove, AtRound, AnsweredAtRound, LogInOrder;
    SuccessKeepsRounds(cfg, s, c);
  }

  lemma SuccessKeepsStep(cfg: Config, s: State, s': State, c: ClientId)
    requires Shaped(cfg, s) && Synchronised(cfg, s) && s.responses != [] && c < Clients(cfg) && Succeeded(cfg, s, s', c)
    requires s.round[c] == s.barrierRound < cfg.totalRounds[c]
    ensures InStep(cfg, s') && LogInOrder(s'.metrics, s'.barrierRound)
  {
    hide OutputItems, PromptItems, RequestMoved, InStep, LogInOrder;
    RoundsStayInStep(cfg, s, s', c);
    LogStaysInOrder(s.metrics, Metric(c, s.round[c], s.responses[0].output));
  }

  lemma SuccessKeepsCount(cfg: Config, s: State, s': State, c: ClientId)
    requires WellFormed(cfg) && Shaped(cfg, s) && cfg.barrier && Synchronised(cfg, s) && !s.releasing && !s.handlerDied
    requires s.responses != [] && c < Clients(cfg) && Succeeded(cfg, s, s', c)
    requires s.round[c] == s.barrierRound < cfg.totalRounds[c]
    ensures s.barrierRound < cfg.maxRounds && s'.barrierRound == s.barrierRound
    ensures s'.barrierCompleted == CountAt(s'.round, s.barrierRound + 1)
    ensures |s'.round| == Clients(cfg) && (s'.releasing ==> RoundDone(cfg, s'))
    ensures !s'.releasing ==> s'.barrierCompleted < CountAbove(cfg.totalRounds, s.barrierRound)
  {
    hide OutputItems, PromptItems, RequestMoved, CountAt, CountAbove, WellFormed;
    hide InStep, RoundDone, LogInOrder, AtRound, AnsweredAtRound;
    SuccessCounts(cfg, s, s', c);
  }

  lemma SuccessKeepsSynchronised(cfg: Config, s: State, s': State, c: ClientId)
    requires WellFormed(cfg) && Shaped(cfg, s) && Ownership(cfg, s) && cfg.barrier && Synchronised(cfg, s)
    requires !s.releasing && !s.handlerDied && s.responses != [] && c == s.responses[0].client && c < Clients(cfg)
    requires Succeeded(cfg, s, s', c)
    ensures Synchronised(cfg, s')
  {
    hide *;
    ResponderIsBehind(cfg, s);
    SuccessKeepsQueues(cfg, s, s', c);
    SuccessKeepsStep(cfg, s, s', c);
    SuccessKeepsCount(cfg, s, s', c);
    AllPartsHold(cfg, s');
  }

  lemma AllPartsHold(cfg: Config, s: State)
    requires InStep(cfg, s) && LogInOrder(s.metrics, s.barrierRound) && s.barrierRound < cfg.maxRounds
    requires s.barrierCompleted == CountAt(s.round, s.barrierRound + 1)
    requires |s.round| == Clients(cfg) && (s.releasing ==> RoundDone(cfg, s))
    requires !s.releasing ==> s.barrierCompleted < CountAbove(cfg.totalRounds, s.barrierRound)
    requires AtRound(s.round, s.ready, s.barrierRound) && AtRound(s.round, s.inflight, s.barrierRound)
    requires AnsweredAtRound(s.round, s.responses, s.barrierRound) && AtRound(s.round, s.parked, s.barrierRound + 1)
    ensures Synchronised(cfg, s)
  {
    hide CountAt, CountAbove, InStep, RoundDone, LogInOrder, AtRound, AnsweredAtRound;
  }

  lemma SuccessKeepsQueues(cfg: Config, s: State, s': State, c: ClientId)
    requires Ownership(cfg, s) && Synchronised(cfg, s) && !s.releasing && cfg.barrier && s.responses != []
    requires c == s.responses[0].client && c < Clients(cfg) && s.round[c] == s.barrierRound && Succeeded(cfg, s, s', c)
    ensures AtRound(s'.round, s'.ready, s.barrierRound)
    ensures AtRound(s'.round, s'.inflight, s.barrierRound)
    ensures AnsweredAtRound(s'.round, s'.responses, s.barrierRound)
    ensures AtRound(s'.round, s'.parked, s.barrierRound + 1)
  {
    ResponderOwnsNoOther(cfg, s);
    QueuesStay(cfg, s, s', c);
  }

  lemma QueuesStay(cfg: Config, s: State, s': State, c: ClientId)
    requires Shaped(cfg, s) && Synchronised(cfg, s) && !s.releasing && cfg.barrier && c < Clients(cfg)
    requires forall q :: q in s.ready || q in s.inflight || q in s.parked ==> q.client != c
    requires s.responses != [] && forall q :: q in s.responses[1..] ==> q.client != c
    requires s.round[c] == s.barrierRound && Succeeded(cfg, s, s', c)
    ensures AtRound(s'.round, s'.ready, s.barrierRound)
    ensures AtRound(s'.round, s'.inflight, s.barrierRound)
    ensures AnsweredAtRound(s'.round, s'.responses, s.barrierRound)
    ensures AtRound(s'.round, s'.parked, s.barrierRound + 1)
  {
    hide OutputItems, PromptItems, InStep, TurnCounted;
    forall q | q in s'.responses ensures q in s.responses {}
  }

  /** When the release ends, every outstanding request is of the round that begins. */
  lemma AllAtNextRound(cfg: Config, s: State)
    requires Ownership(cfg, s) && Synchronised(cfg, s) && s.releasing && s.parked == []
    ensures AtRound(s.round, s.ready, s.barrierRound + 1) && AtRound(s.round, s.inflight, s.barrierRound + 1)
    ensures AnsweredAtRound(s.round, s.responses, s.barrierRound + 1)
  {
    forall q | q in s.ready || q in s.inflight ensures q.client < |s.round| && s.round[q.client] == s.barrierRound + 1 {
      QueuedIsLive(cfg, s, q);
    }
    forall q | q in s.responses ensures q.client < |s.round| && s.round[q.client] == s.barrierRound + 1 {
      AnsweredIsLive(cfg, s, q);
    }
  }

  lemma ReleaseKeepsBarrier(cfg: Config, s: State)
    requires WellFormed(cfg) && Ownership(cfg, s) && Barrier(cfg, s) && s.releasing
    ensures Barrier(cfg, DoRelease(s))
  {
    if s.parked == [] {
      AllAtNextRound(cfg, s);
      BarrierMovesOn(cfg, s);
      hide Ownership, AtRound, AnsweredAtRound, InStep, LogInOrder, WellFormed;
    } else {
      ParkedGoesFirst(cfg, s);
    }
  }

  lemma ParkedGoesFirst(cfg: Config, s: State)
    requires cfg.barrier && Synchronised(cfg, s) && s.releasing && s.parked != []
    ensures Synchronised(cfg, DoRelease(s))
  {
    hide LogInOrder, CountAt, CountAbove;
  }

  lemma BarrierMovesOn(cfg: Config, s: State)
    requires WellFormed(cfg) && Synchronised(cfg, s) && s.releasing
    ensures var s' := s.(releasing := false, barrierRound := s.barrierRound + 1, barrierCompleted := 0);
      && InStep(cfg, s') && LogInOrder(s.metrics, s'.barrierRound) && CountAt(s.round, s'.barrierRound + 1) == 0
  {
    CountAtNone(s.round, s.barrierRound + 2);
  }

  lemma SendKeepsBarrier(cfg: Config, s: State, k: nat)
    requires Barrier(cfg, s) && k < |s.ready|
    ensures Barrier(cfg, DoSend(s, k))
  {
    hide CountAt, CountAbove, LogInOrder;
    assert s.ready[k] in s.ready;
  }

  lemma CompleteKeepsBarrier(cfg: Config, s: State, k: nat, success: bool, output: seq<Token>, tracked: bool)
    requires Barrier(cfg, s) && k < |s.inflight|
    ensures Barrier(cfg, DoComplete(s, k, success, output, tracked))
  {
    hide CountAt, CountAbove, LogInOrder;
    assert s.inflight[k] in s.inflight;
  }

  lemma FailureKeepsBarrier(cfg: Config, s: State)
    requires Barrier(cfg, s) && s.responses != []
    ensures Barrier(cfg, DoHandleFailure(s))
  {
    hide CountAt, CountAbove, LogInOrder;
  }

  lemma StepKeepsBarrier(cfg: Config, s: State, step: Step)
    requires WellFormed(cfg) && Ownership(cfg, s) && Pool(cfg, s) && Barrier(cfg, s) && Enabled(cfg, s, step)
    ensures Barrier(cfg, Next(cfg, s, step))
  {
    hide Barrier, DoSend, DoComplete, DoHandleSuccess, DoHandleFailure, DoRelease, WellFormed, Pool;
    match step
    case Send(k) => SendKeepsBarrier(cfg, s, k);
    case Complete(k, success, output, tracked) => CompleteKeepsBarrier(cfg, s, k, success, output, tracked);
    case Handle => if s.responses[0].success { SuccessKeepsBarrier(cfg, s); } else { FailureKeepsBarrier(cfg, s); }
    case Release => ReleaseKeepsBarrier(cfg, s);
  }
}
