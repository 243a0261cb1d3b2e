/** The counters of the load generator and its pool of sub-questions. */
module MultiTurnLedger {
  import opened Prelude
  import opened Sums
  import opened MultiTurn
  import opened MultiTurnInvariant

  /** Requests started and answered, and progress-bar ticks, against the queues and logs. */
  ghost predicate Counters(cfg: Config, s: State) {
    && s.sent == |s.inflight| + |s.responses| + |s.metrics| + |s.failures|
    && s.completed == |s.metrics| + |s.failures|
    && s.progress + s.untracked == s.sent - |s.inflight|
    && s.sent - s.completed <= Max(0, cfg.maxParallel)
    && |s.metrics| == Sum(s.round)
  }

  lemma InitialCounters(cfg: Config)
    requires WellFormed(cfg)
    ensures Counters(cfg, Initial(cfg))
  {
    SumZeros(Clients(cfg));
  }

  lemma HandleKeepsCounters(cfg: Config, s: State)
    requires Shaped(cfg, s) && Counters(cfg, s) && Enabled(cfg, s, Handle)
    ensures Counters(cfg, Next(cfg, s, Handle))
  {
    var c := s.responses[0].client;
    assert s.responses[0] in s.responses;
    SumUpdate(s.round, c, s.round[c] + 1);
    var s' := Next(cfg, s, Handle);
    assert s'.round == if s.responses[0].success then s.round[c := s.round[c] + 1] else s.round;
    assert s'.inflight == s.inflight && s'.responses == s.responses[1..];
  }

  lemma StepKeepsCounters(cfg: Config, s: State, step: Step)
    requires Shaped(cfg, s) && Counters(cfg, s) && Enabled(cfg, s, step)
    ensures Counters(cfg, Next(cfg, s, step))
  {
    if step.Handle? {
      HandleKeepsCounters(cfg, s);
    }
  }

  /** The sub-questions each client has drawn so far. */
  function DrawnAll(totals: seq<nat>, round: seq<nat>): (d: seq<int>)
    requires |totals| == |round|
    ensures |d| == |totals|
    ensures forall c :: 0 <= c < |d| ==> d[c] == Drawn(totals[c], round[c])
  {
    seq(|totals|, c requires 0 <= c < |totals| => Drawn(totals[c], round[c]))
  }

  /** The pool holds what was sampled less what was drawn, and no draw ever found it empty. */
  ghost predicate Pool(cfg: Config, s: State) {
    && |s.round| == Clients(cfg)
    && !s.handlerDied
    && |s.pool| == |cfg.subQuestions| - Sum(DrawnAll(cfg.totalRounds, s.round))
  }

  lemma InitialPool(cfg: Config)
    requires WellFormed(cfg)
    ensures Pool(cfg, Initial(cfg))
  {
    assert DrawnAll(cfg.totalRounds, Initial(cfg).round) == seq(Clients(cfg), _ => 0);
    SumZeros(Clients(cfg));
  }

  /** The pool holds at least every follow-up question still owed to any client. */
  lemma PoolCoversOwed(cfg: Config, s: State)
    requires WellFormed(cfg) && Pool(cfg, s)
    requires forall c :: 0 <= c < Clients(cfg) ==> s.round[c] <= cfg.totalRounds[c]
    ensures |s.pool| >= Sum(OwedAll(cfg.totalRounds)) - Sum(DrawnAll(cfg.totalRounds, s.round)) >= 0
    ensures (exists c :: 0 <= c < Clients(cfg) && s.round[c] + 1 < cfg.totalRounds[c]) ==> s.pool != []
  {
    var drawn, owed := DrawnAll(cfg.totalRounds, s.round), OwedAll(cfg.totalRounds);
    SumMonotone(drawn, owed);
    if c :| 0 <= c < Clients(cfg) && s.round[c] + 1 < cfg.totalRounds[c] {
      assert drawn[c] < owed[c];
    }
  }

  lemma PoolSufficesHere(cfg: Config, s: State)
    requires WellFormed(cfg) && Ownership(cfg, s) && Pool(cfg, s) && s.responses != []
    ensures PoolSuffices(cfg, s)
  {
    PoolCoversOwed(cfg, s);
    assert s.responses[0] in s.responses;
  }

  lemma SuccessKeepsPool(cfg: Config, s: State, s': State, c: ClientId)
    requires Shaped(cfg, s) && Pool(cfg, s) && s.responses != [] && c < Clients(cfg) && Succeeded(cfg, s, s', c)
    requires s.round[c] < cfg.totalRounds[c]
    ensures Pool(cfg, s')
  {
    var drawn, drawn' := DrawnAll(cfg.totalRounds, s.round), DrawnAll(cfg.totalRounds, s'.round);
    var more := Drawn(cfg.totalRounds[c], s.round[c] + 1);
    assert drawn' == drawn[c := more];
    SumUpdate(drawn, c, more);
  }

  lemma StepKeepsPool(cfg: Config, s: State, step: Step)
    requires WellFormed(cfg) && Ownership(cfg, s) && Pool(cfg, s) && Enabled(cfg, s, step)
    ensures Pool(cfg, Next(cfg, s, step))
  {
    if step.Handle? && s.responses[0].success {
      PoolSufficesHere(cfg, s);
      ResponderIsLive(cfg, s);
      SuccessFields(cfg, s, s.responses[0].client);
      SuccessKeepsPool(cfg, s, DoHandleSuccess(cfg, s), s.responses[0].client);
    }
  }

  lemma StepKeepsOwnership(cfg: Config, s: State, step: Step)
    requires WellFormed(cfg) && Ownership(cfg, s) && Pool(cfg, s) && Enabled(cfg, s, step)
    ensures Ownership(cfg, Next(cfg, s, step))
  {
    match step
    case Send(k) => SendKeepsOwnership(cfg, s, k);
    case Complete(k, success, output, tracked) => CompleteKeepsOwnership(cfg, s, k, success, output, tracked);
    case Handle =>
      if s.responses[0].success {
        PoolSufficesHere(cfg, s);
        SuccessKeepsOwnership(cfg, s);
      } else {
        FailureKeepsOwnership(cfg, s);
      }
    case Release => ReleaseKeepsOwnership(cfg, s);
  }

  lemma InitialOwnership(cfg: Config)
    requires WellFormed(cfg)
    ensures Ownership(cfg, Initial(cfg))
  {
    var s := Initial(cfg);
    var n := Clients(cfg);
    assert Owners(s.ready) == seq(n, c requires 0 <= c < n => c);
    assert Live(cfg, s) == Upto(n);
    CountingMultiset(n);
  }

  function Upto(n: nat): (ids: set<ClientId>)
    ensures forall c: ClientId :: c in ids <==> c < n
  {
    if n == 0 then {} else Upto(n - 1) + {n - 1}
  }

  lemma {:induction false} CountingMultiset(n: nat)
    ensures multiset(seq(n, c requires 0 <= c < n => c)) == multiset(Upto(n))
  {
    if n > 0 {
      CountingMultiset(n - 1);
      assert seq(n, c requires 0 <= c < n => c) == seq(n - 1, c requires 0 <= c < n - 1 => c) + [n - 1];
    }
  }
}
