/** The multi-turn load generator: sender loop, request tasks and response handler
    as a step system over the state the three of them share. */
module MultiTurn {
  import opened Prelude
  import opened Sums

  type Token = int
  type ClientId = nat

  datatype ApiFormat = Native | OpenAI

  datatype Policy = Random | Fifo | Unknown(name: string)

  /** One entry of a conversation history: a token id, or a chat message. */
  datatype Item = TokenItem(id: Token) | UserMessage(ids: seq<Token>) | AssistantMessage(ids: seq<Token>)

  /** One sampled row: the prompt's token ids and the requested output length. */
  datatype Sample = Sample(prompt: seq<Token>, outputLen: nat)

  /** What the request carries: its own copy of the ids, or the very list object that is
      the client's history. */
  datatype Body = Own(items: seq<Item>) | SharedHistory

  datatype Request = Request(client: ClientId, body: Body, outputLen: nat)

  datatype Response = Response(client: ClientId, success: bool, output: seq<Token>)

  /** One row of the performance metrics: whose response it was, and for which turn. */
  datatype Metric = Metric(client: ClientId, turn: nat, output: seq<Token>)

  datatype Config = Config(
    totalRounds: seq<nat>,
    maxRounds: nat,
    maxParallel: int,
    barrier: bool,
    policy: Policy,
    format: ApiFormat,
    firstPrompts: seq<Sample>,
    subQuestions: seq<Sample>)

  datatype State = State(
    round: seq<nat>,
    history: seq<seq<Item>>,
    ready: seq<Request>,
    inflight: seq<Request>,
    responses: seq<Response>,
    parked: seq<Request>,
    barrierRound: nat,
    barrierCompleted: nat,
    releasing: bool,
    pool: seq<Sample>,
    sent: nat,
    completed: nat,
    progress: nat,
    untracked: nat,
    metrics: seq<Metric>,
    failures: seq<ClientId>,
    handlerDied: bool)

  // ---- configuration -------------------------------------------------------------

  /** How many sub-questions a client with `total` turns, `round` of them handled, has drawn. */
  function Drawn(total: nat, round: nat): nat {
    if round < total then round else if total == 0 then 0 else total - 1
  }

  function Owed(total: nat): nat { Max(total - 1, 0) }

  function OwedAll(totals: seq<nat>): (o: seq<int>)
    ensures |o| == |totals|
    ensures forall c :: 0 <= c < |o| ==> o[c] == Owed(totals[c])
  {
    seq(|totals|, c requires 0 <= c < |totals| => Owed(totals[c]))
  }

  /** What the set-up code establishes: every client has between one and `maxRounds` turns,
      one first prompt per client, and one sampled sub-question per follow-up turn (at least one). */
  ghost predicate WellFormed(cfg: Config) {
    && |cfg.firstPrompts| == |cfg.totalRounds|
    && (forall c :: 0 <= c < |cfg.totalRounds| ==> 1 <= cfg.totalRounds[c] <= cfg.maxRounds)
    && |cfg.subQuestions| == Max(Sum(OwedAll(cfg.totalRounds)), 1)
  }

  function Clients(cfg: Config): nat { |cfg.totalRounds| }

  function ClientsPerRound(cfg: Config): seq<int> { Profile(cfg.totalRounds, cfg.maxRounds) }

  function TotalRequests(cfg: Config): int { Sum(cfg.totalRounds) }

  // ---- history -------------------------------------------------------------------

  function Tokens(ids: seq<Token>): (items: seq<Item>)
    ensures |items| == |ids|
  {
    seq(|ids|, i requires 0 <= i < |ids| => TokenItem(ids[i]))
  }

  function PromptItems(format: ApiFormat, ids: seq<Token>): seq<Item> {
    if format.OpenAI? then [UserMessage(ids)] else Tokens(ids)
  }

  /** An empty chat completion adds no assistant message. */
  function OutputItems(format: ApiFormat, ids: seq<Token>): seq<Item> {
    if format.OpenAI? then if ids == [] then [] else [AssistantMessage(ids)] else Tokens(ids)
  }

  // ---- steps ---------------------------------------------------------------------

  /** `Send(k)` starts the coroutine for `ready[k]`; `Complete` ends the coroutine `inflight[k]`;
      `Handle` takes one response off the queue; `Release` is one iteration of the loop that
      moves parked requests to the ready queue, or the end of that loop. `tracked` says
      whether the coroutine advanced the progress bar before it ended. */
  datatype Step =
    | Send(k: nat)
    | Complete(k: nat, success: bool, output: seq<Token>, tracked: bool)
    | Handle
    | Release

  function FirstRequest(cfg: Config, c: ClientId): Request
    requires c < |cfg.firstPrompts|
  {
    var body := if cfg.format.OpenAI? then SharedHistory
                else Own(PromptItems(cfg.format, cfg.firstPrompts[c].prompt));
    Request(c, body, cfg.firstPrompts[c].outputLen)
  }

  function Initial(cfg: Config): State
    requires |cfg.firstPrompts| == |cfg.totalRounds|
  {
    var n := Clients(cfg);
    State(
      round := seq(n, _ => 0),
      history := seq(n, c requires 0 <= c < n => PromptItems(cfg.format, cfg.firstPrompts[c].prompt)),
      ready := seq(n, c requires 0 <= c < n => FirstRequest(cfg, c)),
      inflight := [], responses := [], parked := [],
      barrierRound := 0, barrierCompleted := 0, releasing := false,
      pool := cfg.subQuestions,
      sent := 0, completed := 0, progress := 0, untracked := 0,
      metrics := [], failures := [], handlerDied := false)
  }

  /** Every client number in the queues is a key of the client records. */
  ghost predicate Shaped(cfg: Config, s: State) {
    && |s.round| == |s.history| == Clients(cfg)
    && (forall q :: q in s.ready ==> q.client < Clients(cfg))
    && (forall q :: q in s.inflight ==> q.client < Clients(cfg))
    && (forall q :: q in s.responses ==> q.client < Clients(cfg))
    && (forall q :: q in s.parked ==> q.client < Clients(cfg))
  }

  predicate CanPop(cfg: Config, s: State, k: nat) {
    && k < |s.ready|
    && (cfg.policy.Random? || (cfg.policy.Fifo? && k == 0))
  }

  predicate Enabled(cfg: Config, s: State, step: Step) {
    match step
    case Send(k) => s.sent - s.completed < cfg.maxParallel && CanPop(cfg, s, k)
    case Complete(k, success, _, tracked) => k < |s.inflight| && (success ==> tracked)
    case Handle => !s.handlerDied && !s.releasing && s.responses != []
    case Release => !s.handlerDied && s.releasing
  }

  function DoSend(s: State, k: nat): State
    requires k < |s.ready|
  {
    s.(ready := RemoveAt(s.ready, k), inflight := s.inflight + [s.ready[k]], sent := s.sent + 1)
  }

  function DoComplete(s: State, k: nat, success: bool, output: seq<Token>, tracked: bool): State
    requires k < |s.inflight|
  {
    s.(inflight := RemoveAt(s.inflight, k),
       responses := s.responses + [Response(s.inflight[k].client, success, output)],
       progress := s.progress + (if tracked then 1 else 0),
       untracked := s.untracked + (if tracked then 0 else 1))
  }

  /** A failed response: it is reported, counted as completed, and that is all. */
  function DoHandleFailure(s: State): State
    requires s.responses != []
  {
    s.(responses := s.responses[1..], completed := s.completed + 1,
       failures := s.failures + [s.responses[0].client])
  }

  /** The record keeping of a successful response: history, round, metrics, counter. */
  function Recorded(cfg: Config, s: State): State
    requires Shaped(cfg, s) && s.responses != []
  {
    var resp := s.responses[0];
    var c := resp.client;
    assert resp in s.responses;
    s.(responses := s.responses[1..],
       history := s.history[c := s.history[c] + OutputItems(cfg.format, resp.output)],
       round := s.round[c := s.round[c] + 1],
       metrics := s.metrics + [Metric(c, s.round[c], resp.output)],
       completed := s.completed + 1)
  }

  /** The follow-up turn: draw a sub-question, extend the history, and queue or park the
      request. Drawing from an empty pool kills the handler. */
  function FollowUp(cfg: Config, s: State, c: ClientId): State
    requires c < |s.history|
  {
    if s.pool == [] then s.(handlerDied := true) else
    var q := s.pool[|s.pool| - 1];
    var request := Request(c, SharedHistory, q.outputLen);
    s.(pool := s.pool[..|s.pool| - 1],
       history := s.history[c := s.history[c] + PromptItems(cfg.format, q.prompt)],
       parked := if cfg.barrier then s.parked + [request] else s.parked,
       ready := if cfg.barrier then s.ready else s.ready + [request])
  }

  /** The barrier count: one more client done with the current round, and the release
      starts when that makes all of them. */
  function BarrierCount(cfg: Config, s: State): State {
    if cfg.barrier && s.barrierRound < cfg.maxRounds && !s.handlerDied then
      s.(barrierCompleted := s.barrierCompleted + 1,
         releasing := s.barrierCompleted + 1 == ClientsPerRound(cfg)[s.barrierRound])
    else s
  }

  function DoHandleSuccess(cfg: Config, s: State): State
    requires Shaped(cfg, s) && s.responses != []
  {
    var c := s.responses[0].client;
    assert s.responses[0] in s.responses;
    var recorded := Recorded(cfg, s);
    BarrierCount(cfg, if recorded.round[c] < cfg.totalRounds[c] then FollowUp(cfg, recorded, c) else recorded)
  }

  function DoRelease(s: State): State {
    if s.parked != [] then s.(ready := s.ready + [s.parked[0]], parked := s.parked[1..])
    else s.(releasing := false, barrierRound := s.barrierRound + 1, barrierCompleted := 0)
  }

  lemma SuccessShape(cfg: Config, s: State)
    requires Shaped(cfg, s) && s.responses != []
    ensures Shaped(cfg, DoHandleSuccess(cfg, s))
  {
    hide OutputItems, PromptItems, ClientsPerRound;
    assert s.responses[0] in s.responses;
  }

  function Next(cfg: Config, s: State, step: Step): (s': State)
    requires Shaped(cfg, s) && Enabled(cfg, s, step)
    ensures Shaped(cfg, s')
  {
    match step
    case Send(k) => DoSend(s, k)
    case Complete(k, success, output, tracked) =>
      assert s.inflight[k] in s.inflight;
      DoComplete(s, k, success, output, tracked)
    case Handle =>
      SuccessShape(cfg, s);
      if s.responses[0].success then DoHandleSuccess(cfg, s) else DoHandleFailure(s)
    case Release => DoRelease(s)
  }

  // ---- runs ----------------------------------------------------------------------

  datatype Outcome = Stuck | Reached(state: State)

  /** The state a run reaches by taking `steps` from the initial state, if each step is enabled where it is taken. */
  ghost function Run(cfg: Config, steps: seq<Step>): (o: Outcome)
    requires WellFormed(cfg)
    ensures o.Reached? ==> Shaped(cfg, o.state)
  {
    if steps == [] then Reached(Initial(cfg)) else
    var before := Run(cfg, steps[..|steps| - 1]);
    var step := steps[|steps| - 1];
    if before.Reached? && Enabled(cfg, before.state, step) then Reached(Next(cfg, before.state, step)) else Stuck
  }
}
