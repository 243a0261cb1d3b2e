/** The load generator as the program writes it: a ready queue object, and a generator whose fields the sender loop,
    the request tasks and the response handler update in place. Each method is one turn of its loop, proved to add
    exactly its steps to the run the object has gone through, so the theorems about runs hold of the object. */
module WorkloadGenerators {
  import opened Prelude
  import opened Sums
  import opened MultiTurn
  import opened MultiTurnInvariant
  import opened MultiTurnTheorems
  import opened MultiTurnExit

  datatype PopResult = Nothing | Popped(request: Request) | PolicyError(name: string)

  class ReadyQueue {
    var requests: seq<Request>
    const policy: Policy

    constructor (init: seq<Request>, policy: Policy)
      ensures requests == init && this.policy == policy
    {
      requests := init;
      this.policy := policy;
    }

    method Append(item: Request)
      modifies this
      ensures requests == old(requests) + [item]
    {
      requests := requests + [item];
    }

    /** Pops at `choice` under the random policy, at the front under the first-in-first-out one. An empty
        queue yields nothing whatever the policy; an unknown policy raises on a non-empty one. */
    method Pop(choice: nat) returns (r: PopResult)
      requires choice < |requests| || requests == []
      modifies this
      ensures old(requests) == [] <==> r == Nothing
      ensures r.PolicyError? <==> old(requests) != [] && policy.Unknown?
      ensures !r.Popped? ==> requests == old(requests)
      ensures r.Popped? ==>
        var k := if policy.Random? then choice else 0;
        k < |old(requests)| && r.request == old(requests)[k] && requests == RemoveAt(old(requests), k)
    {
      if requests == [] {
        return Nothing;
      }
      match policy
      case Random =>
        r := Popped(requests[choice]);
        requests := requests[..choice] + requests[choice + 1..];
      case Fifo =>
        r := Popped(requests[0]);
        requests := requests[..0] + requests[1..];
      case Unknown(name) =>
        r := PolicyError(name);
    }
  }

  // ---- one turn of the handler loop in terms of steps ---------------------------------------

  /** The whole release loop at once. */
  function ReleaseAll(s: State): State {
    s.(ready := s.ready + s.parked, parked := [], releasing := false,
       barrierRound := s.barrierRound + 1, barrierCompleted := 0)
  }

  /** Handling one response, with the release it may trigger. */
  function HandleOne(cfg: Config, s: State): State
    requires Shaped(cfg, s) && Enabled(cfg, s, Handle)
  {
    var s' := Next(cfg, s, Handle);
    if s'.releasing then ReleaseAll(s') else s'
  }

  lemma RunSnoc(cfg: Config, steps: seq<Step>, step: Step, s: State)
    requires WellFormed(cfg) && Run(cfg, steps) == Reached(s) && Enabled(cfg, s, step)
    ensures Run(cfg, steps + [step]) == Reached(Next(cfg, s, step))
  {
    assert (steps + [step])[..|steps|] == steps;
  }

  function Releases(n: nat): seq<Step> { seq(n, _ => Release) }

  /** Releasing everything is one release step per parked request and one to finish. */
  lemma {:induction false} ReleaseAllIsARun(cfg: Config, steps: seq<Step>, s: State)
    requires WellFormed(cfg) && Run(cfg, steps) == Reached(s) && s.releasing && !s.handlerDied
    ensures Run(cfg, steps + Releases(|s.parked| + 1)) == Reached(ReleaseAll(s))
    decreases |s.parked|
  {
    hide Run, WellFormed;
    var s' := DoRelease(s);
    RunSnoc(cfg, steps, Release, s);
    if s.parked == [] {
      assert steps + Releases(1) == steps + [Release];
      assert s.ready + s.parked == s.ready;
    } else {
      ReleaseAllIsARun(cfg, steps + [Release], s');
      assert (steps + [Release]) + Releases(|s'.parked| + 1) == steps + Releases(|s.parked| + 1);
      assert s'.ready + s'.parked == s.ready + s.parked;
    }
  }

  /** The steps of one turn of the handler loop. */
  function HandlerSteps(cfg: Config, s: State): seq<Step>
    requires Shaped(cfg, s) && Enabled(cfg, s, Handle)
  {
    var s' := Next(cfg, s, Handle);
    [Handle] + Releases(if s'.releasing then |s'.parked| + 1 else 0)
  }

  /** One turn of the handler loop is a handling step followed by release steps, all enabled where taken: it extends any
      run to a run. */
  lemma HandleOneIsARun(cfg: Config, steps: seq<Step>, s: State)
    requires WellFormed(cfg) && Run(cfg, steps) == Reached(s) && Enabled(cfg, s, Handle)
    ensures Run(cfg, steps + HandlerSteps(cfg, s)) == Reached(HandleOne(cfg, s))
  {
    hide Run, WellFormed;
    RunSnoc(cfg, steps, Handle, s);
    var s' := Next(cfg, s, Handle);
    if s'.releasing {
      assert !s'.handlerDied;
      ReleaseAllIsARun(cfg, steps + [Handle], s');
      assert (steps + [Handle]) + Releases(|s'.parked| + 1) == steps + HandlerSteps(cfg, s);
    } else {
      assert steps + HandlerSteps(cfg, s) == steps + [Handle];
    }
  }

  lemma FailureReleasesNothing(s: State)
    requires s.responses != []
    ensures DoHandleFailure(s).releasing == s.releasing
  {}

  lemma RecordedShape(cfg: Config, s: State)
    requires Shaped(cfg, s) && s.responses != []
    ensures s.responses[0].client < |s.round| == |s.history| == Clients(cfg)
    ensures Shaped(cfg, Recorded(cfg, s))
  {
    assert s.responses[0] in s.responses;
  }

  class WorkloadGenerator {
    const cfg: Config
    const clientsPerRound: seq<int>
    const totalRequests: int

    var round: seq<nat>
    var history: seq<seq<Item>>
    var readyQueue: ReadyQueue
    var tasks: seq<Request>
    var responseQueue: seq<Response>
    var nextRoundReqs: seq<Request>
    var currentBarrierRound: nat
    var barrierRoundCompleted: nat
    var subQuestionInputs: seq<Sample>
    var sentRequests: nat
    var completedRequests: nat
    var progress: nat
    var untracked: nat
    var metrics: seq<Metric>
    var failures: seq<ClientId>
    var handlerDied: bool

    /** The run the object has gone through. */
    ghost var trace: seq<Step>

    ghost function Snapshot(): State
      reads this, readyQueue
    {
      State(round, history, readyQueue.requests, tasks, responseQueue, nextRoundReqs, currentBarrierRound,
            barrierRoundCompleted, false, subQuestionInputs, sentRequests, completedRequests, progress, untracked,
            metrics, failures, handlerDied)
    }

    /** What the fields satisfy at any time, also in the middle of a turn. */
    ghost predicate Consistent()
      reads this, readyQueue
    {
      && readyQueue.policy == cfg.policy
      && clientsPerRound == ClientsPerRound(cfg)
      && Shaped(cfg, Snapshot())
    }

    /** Between turns the fields are those of a state the step system reaches. */
    ghost predicate Valid()
      reads this, readyQueue
    {
      Consistent() && WellFormed(cfg) && Run(cfg, trace) == Reached(Snapshot())
    }

    constructor (cfg: Config)
      requires WellFormed(cfg)
      ensures this.cfg == cfg && Valid() && trace == [] && fresh(readyQueue)
      ensures totalRequests == TotalRequests(cfg)
    {
      this.cfg := cfg;
      clientsPerRound := Profile(cfg.totalRounds, cfg.maxRounds);
      totalRequests := Sum(cfg.totalRounds);
      var n := |cfg.totalRounds|;
      round := seq(n, _ => 0);
      history := seq(n, c requires 0 <= c < n => PromptItems(cfg.format, cfg.firstPrompts[c].prompt));
      var init := seq(n, c requires 0 <= c < n => FirstRequest(cfg, c));
      readyQueue := new ReadyQueue(init, cfg.policy);
      tasks, responseQueue, nextRoundReqs := [], [], [];
      currentBarrierRound, barrierRoundCompleted := 0, 0;
      subQuestionInputs := cfg.subQuestions;
      sentRequests, completedRequests, progress, untracked := 0, 0, 0, 0;
      metrics, failures, handlerDied := [], [], false;
      trace := [];
    }

    // ---- what every object satisfies between turns ------------------------------------------

    lemma OneOutstandingEach()
      requires Valid()
      ensures forall c :: 0 <= c < Clients(cfg) ==>
        Outstanding(Snapshot())[c] == if round[c] < cfg.totalRounds[c] && c !in failures then 1 else 0
      ensures 0 <= sentRequests - completedRequests == |tasks| + |responseQueue| <= Max(0, cfg.maxParallel)
      ensures !handlerDied
    {
      OneOutstandingRequest(cfg, trace);
    }

    lemma NobodyAheadOfTheBarrier(c: ClientId, d: ClientId, r: nat)
      requires Valid() && cfg.barrier && c < Clients(cfg) && d < Clients(cfg)
      requires c in Owners(readyQueue.requests) || c in Owners(tasks) || c in Responders(responseQueue)
      requires r < round[c] && r < cfg.totalRounds[d]
      ensures exists i :: 0 <= i < |metrics| && metrics[i].client == d && metrics[i].turn == r
    {
      BarrierSafety(cfg, trace, c, d, r);
    }

    /** The progress bar is full exactly when nothing was lost, once no loop has anything left to do. */
    lemma LeavesIff()
      requires Valid() && CanSend(cfg) && Quiescent(cfg, Snapshot())
      ensures progress == TotalRequests(cfg) <==> NothingLost(cfg, Snapshot())
    {
      ExitsIff(cfg, trace);
    }

    // ---- the turns of the loops ---------------------------------------------------------------

    /** One turn of the sender loop; `choice` is the random index. */
    method SendOne(choice: nat) returns (r: PopResult)
      requires Valid() && (choice < |readyQueue.requests| || readyQueue.requests == [])
      modifies this`tasks, this`sentRequests, this`trace, readyQueue
      ensures Valid()
      ensures var send := Send(if cfg.policy.Random? then choice else 0);
        && (r.Popped? <==> Enabled(cfg, old(Snapshot()), send))
        && trace == old(trace) + if r.Popped? then [send] else []
    {
      hide Run, WellFormed, Shaped, ClientsPerRound;
      ghost var s, send := Snapshot(), Send(if cfg.policy.Random? then choice else 0);
      r := Nothing;
      if sentRequests - completedRequests < cfg.maxParallel {
        r := readyQueue.Pop(choice);
        if r.Popped? {
          tasks := tasks + [r.request];
          sentRequests := sentRequests + 1;
          RunSnoc(cfg, trace, send, s);
          trace := trace + [send];
        }
      }
    }

    /** The end of a request task: the progress bar, then the response queue. */
    method FinishTask(k: nat, success: bool, output: seq<Token>, tracked: bool)
      requires Valid() && k < |tasks| && (success ==> tracked)
      modifies this`tasks, this`responseQueue, this`progress, this`untracked, this`trace
      ensures Valid() && trace == old(trace) + [Complete(k, success, output, tracked)]
    {
      hide Run, WellFormed, Shaped, ClientsPerRound;
      RunSnoc(cfg, trace, Complete(k, success, output, tracked), Snapshot());
      var client := tasks[k].client;
      tasks := tasks[..k] + tasks[k + 1..];
      if tracked {
        progress := progress + 1;
      } else {
        untracked := untracked + 1;
      }
      responseQueue := responseQueue + [Response(client, success, output)];
      trace := trace + [Complete(k, success, output, tracked)];
    }

    /** One turn of the handler loop: it handles a response whenever there is one. */
    method HandleResponse() returns (handled: bool)
      requires Valid()
      modifies this, readyQueue
      ensures Valid() && readyQueue == old(readyQueue)
      ensures handled <==> old(responseQueue) != []
      ensures handled <==> Enabled(cfg, old(Snapshot()), Handle)
      ensures trace == old(trace) + if handled then HandlerSteps(cfg, old(Snapshot())) else []
    {
      NeverDies();
      hide Run, WellFormed, Shaped, ClientsPerRound, HandleOne, HandlerSteps;
      if responseQueue == [] {
        return false;
      }
      handled := true;
      ghost var s := Snapshot();
      HandleOneIsARun(cfg, trace, s);
      trace := trace + HandlerSteps(cfg, s);
      HandleFirst();
    }

    lemma NeverDies()
      requires Valid()
      ensures !handlerDied
    {
      OneOutstandingRequest(cfg, trace);
    }

    method HandleFirst()
      requires Consistent() && responseQueue != [] && !handlerDied
      modifies this, readyQueue
      ensures Consistent() && readyQueue == old(readyQueue) && trace == old(trace)
      ensures Snapshot() == HandleOne(cfg, old(Snapshot()))
    {
      hide Shaped, ClientsPerRound, DoHandleSuccess, DoHandleFailure;
      FailureReleasesNothing(Snapshot());
      if responseQueue[0].success {
        HandleSuccess();
      } else {
        HandleFailure();
      }
    }

    method HandleFailure()
      requires Consistent() && responseQueue != []
      modifies this`completedRequests, this`failures, this`responseQueue
      ensures Consistent() && Snapshot() == DoHandleFailure(old(Snapshot()))
    {
      completedRequests := completedRequests + 1;
      failures := failures + [responseQueue[0].client];
      responseQueue := responseQueue[1..];
    }

    method HandleSuccess()
      requires Consistent() && responseQueue != [] && !handlerDied && responseQueue[0].success
      modifies this, readyQueue
      ensures Consistent() && readyQueue == old(readyQueue) && trace == old(trace)
      ensures var s := DoHandleSuccess(cfg, old(Snapshot()));
        Snapshot() == if s.releasing then ReleaseAll(s) else s
    {
      var c := responseQueue[0].client;
      RecordResponse();
      if round[c] < cfg.totalRounds[c] {
        if subQuestionInputs == [] {
          handlerDied := true;
          return;
        }
        AskFollowUp(c);
      }
      CountAtBarrier();
    }

    method RecordResponse()
      requires Consistent() && responseQueue != []
      modifies this`responseQueue, this`history, this`metrics, this`round, this`completedRequests
      ensures Consistent() && Snapshot() == Recorded(cfg, old(Snapshot()))
      ensures old(responseQueue[0].client) < |history| == |round| == |cfg.totalRounds|
    {
      hide OutputItems, ClientsPerRound, Shaped;
      RecordedShape(cfg, Snapshot());
      var response := responseQueue[0];
      var c := response.client;
      responseQueue := responseQueue[1..];
      history := history[c := history[c] + OutputItems(cfg.format, response.output)];
      metrics := metrics + [Metric(c, round[c], response.output)];
      round := round[c := round[c] + 1];
      completedRequests := completedRequests + 1;
    }

    method CountAtBarrier()
      requires Consistent() && !handlerDied
      modifies this`nextRoundReqs, this`currentBarrierRound, this`barrierRoundCompleted, readyQueue
      ensures Consistent()
      ensures var s := BarrierCount(cfg, old(Snapshot())); Snapshot() == if s.releasing then ReleaseAll(s) else s
    {
      if cfg.barrier && currentBarrierRound < cfg.maxRounds {
        barrierRoundCompleted := barrierRoundCompleted + 1;
        if barrierRoundCompleted == clientsPerRound[currentBarrierRound] {
          ReleaseParked();
        }
      }
    }

    method AskFollowUp(c: ClientId)
      requires Consistent() && c < |history| && subQuestionInputs != []
      modifies this`subQuestionInputs, this`history, this`nextRoundReqs, readyQueue
      ensures Consistent() && Snapshot() == FollowUp(cfg, old(Snapshot()), c)
    {
      var n := |subQuestionInputs| - 1;
      var q := subQuestionInputs[n];
      subQuestionInputs := subQuestionInputs[..n];
      history := history[c := history[c] + PromptItems(cfg.format, q.prompt)];
      var request := Request(c, SharedHistory, q.outputLen);
      if cfg.barrier {
        nextRoundReqs := nextRoundReqs + [request];
      } else {
        readyQueue.Append(request);
      }
    }

    method ReleaseParked()
      requires Consistent()
      modifies this`nextRoundReqs, this`currentBarrierRound, this`barrierRoundCompleted, readyQueue
      ensures Consistent() && Snapshot() == ReleaseAll(old(Snapshot()))
    {
      ghost var ready0 := readyQueue.requests;
      for i := 0 to |nextRoundReqs|
        modifies readyQueue
        invariant readyQueue.requests == ready0 + nextRoundReqs[..i]
      {
        readyQueue.Append(nextRoundReqs[i]);
      }
      assert nextRoundReqs[..|nextRoundReqs|] == nextRoundReqs;
      nextRoundReqs := [];
      currentBarrierRound := currentBarrierRound + 1;
      barrierRoundCompleted := 0;
    }
  }
}
