/** What every step of the load generator keeps. */
module MultiTurnInvariant {
  import opened Prelude
  import opened Sums
  import opened MultiTurn

  // ---- one outstanding request per live client -----------------------------------------

  function Owners(q: seq<Request>): (ids: seq<ClientId>)
    ensures |ids| == |q|
    ensures forall i :: 0 <= i < |q| ==> ids[i] == q[i].client
  {
    seq(|q|, i requires 0 <= i < |q| => q[i].client)
  }

  function Responders(q: seq<Response>): (ids: seq<ClientId>)
    ensures |ids| == |q|
    ensures forall i :: 0 <= i < |q| ==> ids[i] == q[i].client
  {
    seq(|q|, i requires 0 <= i < |q| => q[i].client)
  }

  /** The owners of all requests that are queued, in flight, answered or parked, with multiplicity. */
  function Outstanding(s: State): multiset<ClientId> {
    multiset(Owners(s.ready)) + multiset(Owners(s.inflight)) + multiset(Responders(s.responses))
      + multiset(Owners(s.parked))
  }

  /** The clients that still have turns left and have not failed. */
  function Live(cfg: Config, s: State): set<ClientId>
    requires |s.round| == Clients(cfg)
  {
    set c | 0 <= c < Clients(cfg) && s.round[c] < cfg.totalRounds[c] && c !in s.failures
  }

  ghost predicate Distinct<T>(xs: seq<T>) {
    forall i, j :: 0 <= i < j < |xs| ==> xs[i] != xs[j]
  }

  ghost predicate Ownership(cfg: Config, s: State) {
    && Shaped(cfg, s)
    && (forall c :: 0 <= c < Clients(cfg) ==> s.round[c] <= cfg.totalRounds[c])
    && Distinct(s.failures)
    && (forall c :: c in s.failures ==> c < Clients(cfg) && s.round[c] < cfg.totalRounds[c])
    && Outstanding(s) == multiset(Live(cfg, s))
  }

  lemma OwnersOfSplit(q: seq<Request>, k: nat)
    requires k < |q|
    ensures multiset(Owners(q)) == multiset(Owners(RemoveAt(q, k))) + multiset{q[k].client}
  {
    var o := Owners(q);
    assert o == o[..k] + [o[k]] + o[k + 1..];
    assert Owners(RemoveAt(q, k)) == o[..k] + o[k + 1..];
  }

  lemma OwnersOfAppend(q: seq<Request>, x: Request)
    ensures multiset(Owners(q + [x])) == multiset(Owners(q)) + multiset{x.client}
  {
    assert Owners(q + [x]) == Owners(q) + [x.client];
  }

  lemma RespondersOfAppend(q: seq<Response>, x: Response)
    ensures multiset(Responders(q + [x])) == multiset(Responders(q)) + multiset{x.client}
  {
    assert Responders(q + [x]) == Responders(q) + [x.client];
  }

  lemma RespondersOfTail(q: seq<Response>)
    requires q != []
    ensures multiset(Responders(q)) == multiset(Responders(q[1..])) + multiset{q[0].client}
  {
    assert Responders(q) == [q[0].client] + Responders(q[1..]);
  }

  /** A queued, in-flight, answered or parked request belongs to a live client, and no client owns two. */
  lemma OutstandingIsLive(cfg: Config, s: State, c: ClientId)
    requires Ownership(cfg, s)
    ensures Outstanding(s)[c] == if c in Live(cfg, s) then 1 else 0
  {}

  lemma ResponderIsLive(cfg: Config, s: State)
    requires Ownership(cfg, s) && s.responses != []
    ensures s.responses[0].client in Live(cfg, s)
  {
    RespondersOfTail(s.responses);
    OutstandingIsLive(cfg, s, s.responses[0].client);
  }

  lemma Cancel(a: multiset<ClientId>, b: multiset<ClientId>, c: ClientId)
    requires a + multiset{c} == b + multiset{c}
    ensures a == b
  {
    forall x ensures a[x] == b[x] {
      assert (a + multiset{c})[x] == (b + multiset{c})[x];
    }
  }

  lemma SetAsMultiset(live: set<ClientId>, c: ClientId)
    requires c in live
    ensures multiset(live) == multiset(live - {c}) + multiset{c}
  {
    assert live == (live - {c}) + {c};
  }

  lemma SendKeepsOwnership(cfg: Config, s: State, k: nat)
    requires Ownership(cfg, s) && k < |s.ready|
    ensures Ownership(cfg, DoSend(s, k))
  {
    OwnersOfSplit(s.ready, k);
    OwnersOfAppend(s.inflight, s.ready[k]);
    assert Live(cfg, DoSend(s, k)) == Live(cfg, s);
  }

  lemma CompleteKeepsOwnership(cfg: Config, s: State, k: nat, success: bool, output: seq<Token>, tracked: bool)
    requires Ownership(cfg, s) && k < |s.inflight|
    ensures Ownership(cfg, DoComplete(s, k, success, output, tracked))
  {
    var s' := DoComplete(s, k, success, output, tracked);
    OwnersOfSplit(s.inflight, k);
    RespondersOfAppend(s.responses, Response(s.inflight[k].client, success, output));
    assert Live(cfg, s') == Live(cfg, s);
    assert s.inflight[k] in s.inflight;
  }

  lemma FailureKeepsOwnership(cfg: Config, s: State)
    requires Ownership(cfg, s) && s.responses != []
    ensures Ownership(cfg, DoHandleFailure(s))
  {
    var s' := DoHandleFailure(s);
    var c := s.responses[0].client;
    RespondersOfTail(s.responses);
    ResponderIsLive(cfg, s);
    assert Live(cfg, s') == Live(cfg, s) - {c};
    SetAsMultiset(Live(cfg, s), c);
    Cancel(Outstanding(s'), multiset(Live(cfg, s')), c);
  }

  lemma ReleaseMovesOwner(s: State)
    ensures Outstanding(DoRelease(s)) == Outstanding(s)
  {
    if s.parked != [] {
      OwnersOfAppend(s.ready, s.parked[0]);
      OwnersOfSplit(s.parked, 0);
      assert RemoveAt(s.parked, 0) == s.parked[1..];
    }
  }

  lemma ReleaseKeepsShape(cfg: Config, s: State)
    requires Shaped(cfg, s)
    ensures Shaped(cfg, DoRelease(s))
  {
    if s.parked != [] { assert s.parked[0] in s.parked; }
  }

  lemma ReleaseKeepsOwnership(cfg: Config, s: State)
    requires Ownership(cfg, s)
    ensures Ownership(cfg, DoRelease(s))
  {
    ReleaseMovesOwner(s);
    ReleaseKeepsShape(cfg, s);
    hide Outstanding, Shaped;
    assert Live(cfg, DoRelease(s)) == Live(cfg, s);
  }

  lemma RecordedOwnership(cfg: Config, s: State, c: ClientId)
    requires Ownership(cfg, s) && s.responses != [] && c == s.responses[0].client
    ensures c in Live(cfg, s)
    ensures Outstanding(Recorded(cfg, s)) == multiset(Live(cfg, s) - {c})
  {
    var m := Recorded(cfg, s);
    RespondersOfTail(s.responses);
    ResponderIsLive(cfg, s);
    SetAsMultiset(Live(cfg, s), c);
    Cancel(Outstanding(m), multiset(Live(cfg, s) - {c}), c);
  }

  lemma FollowUpOwnership(cfg: Config, m: State, c: ClientId)
    requires c < |m.history| && m.pool != []
    ensures Outstanding(FollowUp(cfg, m, c)) == Outstanding(m) + multiset{c}
  {
    var request := Request(c, SharedHistory, m.pool[|m.pool| - 1].outputLen);
    OwnersOfAppend(m.ready, request);
    OwnersOfAppend(m.parked, request);
  }

  ghost predicate PoolSuffices(cfg: Config, s: State)
    requires Shaped(cfg, s) && s.responses != []
  {
    assert s.responses[0] in s.responses;
    var c := s.responses[0].client;
    s.round[c] + 1 < cfg.totalRounds[c] ==> s.pool != []
  }

  lemma LastTurnOwnership(cfg: Config, s: State, c: ClientId)
    requires Ownership(cfg, s) && s.responses != [] && c == s.responses[0].client
    requires c < Clients(cfg) && s.round[c] + 1 >= cfg.totalRounds[c]
    ensures Ownership(cfg, Recorded(cfg, s))
  {
    var m := Recorded(cfg, s);
    RecordedOwnership(cfg, s, c);
    assert Live(cfg, m) == Live(cfg, s) - {c};
  }

  lemma NextTurnOwnership(cfg: Config, s: State, c: ClientId)
    requires Ownership(cfg, s) && s.responses != [] && c == s.responses[0].client
    requires c < Clients(cfg) && s.round[c] + 1 < cfg.totalRounds[c] && s.pool != []
    ensures Ownership(cfg, FollowUp(cfg, Recorded(cfg, s), c))
  {
    var m := Recorded(cfg, s);
    RecordedOwnership(cfg, s, c);
    FollowUpOwnership(cfg, m, c);
    SetAsMultiset(Live(cfg, s), c);
    assert Live(cfg, FollowUp(cfg, m, c)) == Live(cfg, s);
  }

  lemma SuccessKeepsOwnership(cfg: Config, s: State)
    requires Ownership(cfg, s) && s.responses != [] && PoolSuffices(cfg, s)
    ensures Ownership(cfg, DoHandleSuccess(cfg, s))
  {
    var c := s.responses[0].client;
    assert s.responses[0] in s.responses;
    if s.round[c] + 1 < cfg.totalRounds[c] {
      NextTurnOwnership(cfg, s, c);
      BarrierKeepsOwnership(cfg, FollowUp(cfg, Recorded(cfg, s), c));
    } else {
      LastTurnOwnership(cfg, s, c);
      BarrierKeepsOwnership(cfg, Recorded(cfg, s));
    }
  }

  lemma BarrierKeepsOwnership(cfg: Config, f: State)
    requires Ownership(cfg, f)
    ensures Ownership(cfg, BarrierCount(cfg, f))
  {
    assert Live(cfg, BarrierCount(cfg, f)) == Live(cfg, f);
  }

  // ---- the effect of a successful response, field by field -----------------------------

  /** Whether client `c` has another turn after the one it is in. */
  predicate HasMore(cfg: Config, s: State, c: ClientId)
    requires |s.round| == Clients(cfg) && c < Clients(cfg)
  {
    s.round[c] + 1 < cfg.totalRounds[c]
  }

  /** The turn itself: round, log, pool and history. */
  ghost predicate TurnTaken(cfg: Config, s: State, s': State, c: ClientId)
    requires Shaped(cfg, s) && c < Clients(cfg) && s.responses != []
  {
    && s'.round == s.round[c := s.round[c] + 1] && s'.failures == s.failures
    && s'.metrics == s.metrics + [Metric(c, s.round[c], s.responses[0].output)]
    && (HasMore(cfg, s, c) ==> s.pool != [])
    && s'.pool == (if HasMore(cfg, s, c) then s.pool[..|s.pool| - 1] else s.pool)
    && var question := if HasMore(cfg, s, c) then PromptItems(cfg.format, s.pool[|s.pool| - 1].prompt) else [];
       s'.history == s.history[c := s.history[c] + OutputItems(cfg.format, s.responses[0].output) + question]
  }

  /** The queues: the response is gone, and the next request is ready or parked. */
  ghost predicate RequestMoved(cfg: Config, s: State, s': State, c: ClientId)
    requires Shaped(cfg, s) && c < Clients(cfg) && s.responses != []
  {
    && s'.inflight == s.inflight && s'.responses == s.responses[1..]
    && (HasMore(cfg, s, c) ==> s.pool != [])
    && var next := if HasMore(cfg, s, c) then [Request(c, SharedHistory, s.pool[|s.pool| - 1].outputLen)] else [];
       && s'.parked == (if cfg.barrier then s.parked + next else s.parked)
       && s'.ready == (if cfg.barrier then s.ready else s.ready + next)
  }

  /** The counters and the barrier. */
  ghost predicate TurnCounted(cfg: Config, s: State, s': State) {
    && s'.barrierRound == s.barrierRound && s'.handlerDied == s.handlerDied
    && s'.sent == s.sent && s'.completed == s.completed + 1
    && (cfg.barrier && s.barrierRound < cfg.maxRounds && !s.handlerDied ==>
          && s'.barrierCompleted == s.barrierCompleted + 1
          && (s'.releasing <==> s.barrierCompleted + 1 == CountAbove(cfg.totalRounds, s.barrierRound)))
    && (!cfg.barrier ==> s'.barrierCompleted == s.barrierCompleted && s'.releasing == s.releasing)
  }

  /** What handling a success of client `c` changes, and what it leaves alone. */
  ghost predicate Succeeded(cfg: Config, s: State, s': State, c: ClientId)
    requires Shaped(cfg, s) && c < Clients(cfg) && s.responses != []
  {
    TurnTaken(cfg, s, s', c) && RequestMoved(cfg, s, s', c) && TurnCounted(cfg, s, s')
  }

  lemma SuccessFields(cfg: Config, s: State, c: ClientId)
    requires Shaped(cfg, s) && s.responses != [] && PoolSuffices(cfg, s) && c == s.responses[0].client
    ensures c < Clients(cfg) && Succeeded(cfg, s, DoHandleSuccess(cfg, s), c)
  {
    assert s.responses[0] in s.responses;
    hide OutputItems, PromptItems, CountAbove;
    var answered := s.history[c] + OutputItems(cfg.format, s.responses[0].output);
    assert answered + [] == answered && s.parked + [] == s.parked && s.ready + [] == s.ready;
  }
}
