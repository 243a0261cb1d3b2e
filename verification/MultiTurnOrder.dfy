/** The order in which a first-in-first-out ready queue sends. */
module MultiTurnOrder {
  import opened MultiTurn
  import opened MultiTurnInvariant
  import opened MultiTurnLedger
  import opened MultiTurnBarrier
  import opened MultiTurnHistory

  /** The clients of the follow-up requests, in the order in which the responses that led to them were handled. */
  function FollowUps(cfg: Config, log: seq<Metric>): seq<ClientId> {
    if log == [] then [] else
    FollowUps(cfg, log[..|log| - 1]) + if Continues(cfg, log[|log| - 1]) then [log[|log| - 1].client] else []
  }

  function Everyone(cfg: Config): seq<ClientId> { seq(Clients(cfg), c requires 0 <= c < Clients(cfg) => c) }

  /** The owners of all requests ever created, in order of creation: the clients in turn, then the follow-ups. */
  function Created(cfg: Config, s: State): seq<ClientId> { Everyone(cfg) + FollowUps(cfg, s.metrics) }

  /** What a first-in-first-out queue has not sent yet is, in order, what was created last. */
  ghost predicate InOrder(cfg: Config, s: State) {
    cfg.policy.Fifo? ==> s.sent <= |Created(cfg, s)| && Owners(s.ready + s.parked) == Created(cfg, s)[s.sent..]
  }

  lemma InitialOrder(cfg: Config)
    requires WellFormed(cfg)
    ensures InOrder(cfg, Initial(cfg))
  {
    var s := Initial(cfg);
    assert Owners(s.ready + s.parked) == Created(cfg, s);
  }

  lemma SendKeepsOrder(cfg: Config, s: State)
    requires InOrder(cfg, s) && cfg.policy.Fifo? && s.ready != []
    ensures InOrder(cfg, DoSend(s, 0))
  {
    var s' := DoSend(s, 0);
    assert s'.ready + s'.parked == (s.ready + s.parked)[1..];
    assert Owners(s'.ready + s'.parked) == Owners(s.ready + s.parked)[1..];
    assert Created(cfg, s')[s'.sent..] == Created(cfg, s)[s.sent..][1..];
  }

  lemma CreatedGrows(cfg: Config, s: State, s': State, m: Metric)
    requires s'.metrics == s.metrics + [m]
    ensures Created(cfg, s') == if Continues(cfg, m) then Created(cfg, s) + [m.client] else Created(cfg, s)
  {
    assert s'.metrics[..|s'.metrics| - 1] == s.metrics;
    assert FollowUps(cfg, s.metrics) + [] == FollowUps(cfg, s.metrics);
    assert Everyone(cfg) + (FollowUps(cfg, s.metrics) + [m.client]) == Created(cfg, s) + [m.client];
  }

  /** The next request of a client goes behind everything unsent, ready or parked. */
  lemma GoesLast(cfg: Config, s: State, s': State, c: ClientId)
    requires Shaped(cfg, s) && Barrier(cfg, s) && s.responses != [] && c < Clients(cfg) && RequestMoved(cfg, s, s', c)
    ensures Owners(s'.ready + s'.parked) == Owners(s.ready + s.parked) + if HasMore(cfg, s, c) then [c] else []
  {
    hide Synchronised;
    if HasMore(cfg, s, c) {
      var q := Request(c, SharedHistory, s.pool[|s.pool| - 1].outputLen);
      assert s'.ready + s'.parked == (s.ready + s.parked) + [q];
    } else {
      assert s'.ready + s'.parked == s.ready + s.parked;
    }
  }

  lemma SuccessKeepsOrder(cfg: Config, s: State, s': State, c: ClientId)
    requires Shaped(cfg, s) && InOrder(cfg, s) && Barrier(cfg, s) && s.responses != []
    requires c < Clients(cfg) && Succeeded(cfg, s, s', c)
    ensures InOrder(cfg, s')
  {
    hide Barrier, Created, RequestMoved, OutputItems, PromptItems, Owners;
    GoesLast(cfg, s, s', c);
    CreatedGrows(cfg, s, s', Metric(c, s.round[c], s.responses[0].output));
    assert Owners(s.ready + s.parked) + [] == Owners(s.ready + s.parked);
  }

  lemma StepKeepsOrder(cfg: Config, s: State, step: Step)
    requires WellFormed(cfg) && Ownership(cfg, s) && Pool(cfg, s) && Barrier(cfg, s) && InOrder(cfg, s)
    requires Enabled(cfg, s, step)
    ensures InOrder(cfg, Next(cfg, s, step))
  {
    match step
    case Send(k) => if cfg.policy.Fifo? { SendKeepsOrder(cfg, s); }
    case Complete(k, _, _, _) =>
    case Handle =>
      if s.responses[0].success {
        PoolSufficesHere(cfg, s);
        SuccessFields(cfg, s, s.responses[0].client);
        SuccessKeepsOrder(cfg, s, Next(cfg, s, step), s.responses[0].client);
      }
    case Release =>
      if s.parked != [] {
        assert (s.ready + [s.parked[0]]) + s.parked[1..] == s.ready + s.parked;
      }
  }
}
