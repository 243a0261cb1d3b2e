/** The conversation queue of the serving benchmark: conversations circulate between a bounded queue and the request
    tasks. */
module ConversationQueue {
  import opened Prelude
  import opened Sums

  type ConvId = nat

  datatype Turn = Turn(prompt: string, inputLen: nat, outputLen: nat)

  datatype Message = User(text: string) | Assistant(text: string)

  /** One request input: its turns, with requested output lengths replaced by actual ones as
      they come in, the messages so far, and the number of turns answered before the current one. */
  datatype Conversation = Conversation(prompts: seq<Turn>, messages: seq<Message>, finished: nat)

  /** What one request carried when it was sent. */
  datatype Sent = Sent(conv: ConvId, turn: nat, promptLen: int, messages: seq<Message>)

  /** One successful reply: the output length the server reported, and the text. */
  datatype Reply = Reply(conv: ConvId, outputLen: nat, text: string)

  datatype Limit = Unlimited | AtMost(n: nat)

  datatype Config = Config(input: seq<seq<Turn>>, limit: Limit)

  datatype State = State(
    convs: seq<Conversation>,
    queue: seq<ConvId>,
    waiting: seq<ConvId>,
    running: seq<ConvId>,
    done: seq<ConvId>,
    failed: seq<ConvId>,
    issued: nat,
    gaveUp: bool,
    putBlocked: bool,
    sent: seq<Sent>,
    replies: seq<Reply>)

  /** Conversations have at least one turn, and a semaphore admits at least one task. */
  ghost predicate WellFormed(cfg: Config) {
    && (forall c :: 0 <= c < |cfg.input| ==> cfg.input[c] != [])
    && (cfg.limit.AtMost? ==> cfg.limit.n >= 1)
  }

  function Lengths(input: seq<seq<Turn>>): (ls: seq<int>)
    ensures |ls| == |input|
    ensures forall c :: 0 <= c < |ls| ==> ls[c] == |input[c]|
  {
    seq(|input|, c requires 0 <= c < |input| => |input[c]|)
  }

  /** The number of requests the benchmark issues. */
  function TotalTurns(cfg: Config): int { Sum(Lengths(cfg.input)) }

  function Capacity(cfg: Config): nat { |cfg.input| }

  // ---- flattening for shared prefixes ----------------------------------------------------------

  function Singletons(turns: seq<Turn>): seq<seq<Turn>> {
    if turns == [] then [] else Singletons(turns[..|turns| - 1]) + [[turns[|turns| - 1]]]
  }

  function FlattenShared(input: seq<seq<Turn>>): (flat: seq<seq<Turn>>) {
    if input == [] then [] else FlattenShared(input[..|input| - 1]) + Singletons(input[|input| - 1])
  }

  lemma {:induction false} SingletonsShape(turns: seq<Turn>)
    ensures |Singletons(turns)| == |turns|
    ensures forall i :: 0 <= i < |turns| ==> Singletons(turns)[i] == [turns[i]]
  {
    if turns != [] { SingletonsShape(turns[..|turns| - 1]); }
  }

  /** Flattening keeps the number of requests, which is counted before it. */
  lemma {:induction false} FlattenKeepsTotal(input: seq<seq<Turn>>)
    ensures Sum(Lengths(FlattenShared(input))) == Sum(Lengths(input)) == |FlattenShared(input)|
    ensures forall c :: 0 <= c < |FlattenShared(input)| ==> |FlattenShared(input)[c]| == 1
  {
    if input != [] {
      var n := |input| - 1;
      var front, back := FlattenShared(input[..n]), Singletons(input[n]);
      FlattenKeepsTotal(input[..n]);
      SingletonsShape(input[n]);
      assert Lengths(front + back) == Lengths(front) + Lengths(back);
      SumAppend(Lengths(front), Lengths(back));
      OnesSum(Lengths(back));
      assert Lengths(input)[..n] == Lengths(input[..n]);
    }
  }

  /** Turn `t` of conversation `c` becomes a conversation of its own, behind all turns of the conversations before. */
  lemma {:induction false} FlattenAt(input: seq<seq<Turn>>, c: nat, t: nat)
    requires c < |input| && t < |input[c]|
    ensures var k := Sum(Lengths(input[..c])) + t;
      0 <= k < |FlattenShared(input)| && FlattenShared(input)[k] == [input[c][t]]
  {
    var n := |input| - 1;
    var front, back := FlattenShared(input[..n]), Singletons(input[n]);
    assert FlattenShared(input) == front + back;
    hide *;
    if c < n {
      FlattenAt(input[..n], c, t);
      assert input[..n][..c] == input[..c];
    } else {
      FlattenKeepsTotal(input[..n]);
      SingletonsShape(input[n]);
    }
  }

  lemma {:induction false} OnesSum(xs: seq<int>)
    requires forall i :: 0 <= i < |xs| ==> xs[i] == 1
    ensures Sum(xs) == |xs|
  {
    if xs != [] { OnesSum(xs[..|xs| - 1]); }
  }

  // ---- steps -----------------------------------------------------------------------------------

  datatype Step =
    | Issue
    | Start(k: nat)
    | FinishOk(k: nat, outputLen: nat, text: string)
    | FinishFail(k: nat)
    | GiveUp

  function Initial(cfg: Config): State {
    var n := |cfg.input|;
    State(convs := seq(n, c requires 0 <= c < n => Conversation(cfg.input[c], [], 0)),
          queue := seq(n, c requires 0 <= c < n => c),
          waiting := [], running := [], done := [], failed := [],
          issued := 0, gaveUp := false, putBlocked := false, sent := [], replies := [])
  }

  /** Every conversation number is one of the list, and every conversation points at one of its turns. */
  ghost predicate Shaped(cfg: Config, s: State) {
    && |s.convs| == |cfg.input|
    && (forall c :: 0 <= c < |s.convs| ==> s.convs[c].finished < |s.convs[c].prompts|)
    && (forall c :: c in s.queue ==> c < |cfg.input|)
    && (forall c :: c in s.waiting ==> c < |cfg.input|)
    && (forall c :: c in s.running ==> c < |cfg.input|)
  }

  predicate Admits(limit: Limit, running: nat) {
    limit.AtMost? ==> running < limit.n
  }

  predicate Enabled(cfg: Config, s: State, step: Step) {
    match step
    case Issue => s.issued < TotalTurns(cfg) && !s.gaveUp && s.queue != []
    case Start(k) => k < |s.waiting| && Admits(cfg.limit, |s.running|)
    case FinishOk(k, _, _) => k < |s.running|
    case FinishFail(k) => k < |s.running|
    case GiveUp => s.issued < TotalTurns(cfg) && !s.gaveUp && s.queue == []
  }

  /** Tokens of the earlier turns, as recorded, plus the input of this one. */
  function PromptLen(prompts: seq<Turn>, turn: nat): int
    requires turn < |prompts|
  {
    EarlierTokens(prompts[..turn]) + prompts[turn].inputLen
  }

  function EarlierTokens(prompts: seq<Turn>): int {
    if prompts == [] then 0
    else EarlierTokens(prompts[..|prompts| - 1]) + (prompts[|prompts| - 1].inputLen + prompts[|prompts| - 1].outputLen)
  }

  function DoIssue(s: State): State
    requires s.queue != []
  {
    s.(queue := s.queue[1..], waiting := s.waiting + [s.queue[0]], issued := s.issued + 1)
  }

  /** The coroutine body up to the request: the user message goes onto the history. */
  function DoStart(cfg: Config, s: State, k: nat): State
    requires Shaped(cfg, s) && k < |s.waiting|
  {
    var c := s.waiting[k];
    assert c in s.waiting;
    var conv := s.convs[c];
    var turn := conv.finished;
    var messages := conv.messages + [User(conv.prompts[turn].prompt)];
    s.(waiting := RemoveAt(s.waiting, k), running := s.running + [c],
       convs := s.convs[c := conv.(messages := messages)],
       sent := s.sent + [Sent(c, turn, PromptLen(conv.prompts, turn), messages)])
  }

  /** The coroutine body after a good response: the actual output length, the reply, and the queue again. */
  function DoFinishOk(cfg: Config, s: State, k: nat, outputLen: nat, text: string): State
    requires Shaped(cfg, s) && k < |s.running|
  {
    var c := s.running[k];
    assert c in s.running;
    var conv := s.convs[c];
    var turn := conv.finished;
    var prompts := conv.prompts[turn := conv.prompts[turn].(outputLen := outputLen)];
    var messages := conv.messages + [Assistant(text)];
    var more := turn + 1 < |prompts|;
    s.(running := RemoveAt(s.running, k),
       convs := s.convs[c := Conversation(prompts, messages, if more then turn + 1 else turn)],
       replies := s.replies + [Reply(c, outputLen, text)],
       queue := if more then s.queue + [c] else s.queue,
       putBlocked := s.putBlocked || (more && |s.queue| >= Capacity(cfg)),
       done := if more then s.done else s.done + [c])
  }

  function DoFinishFail(s: State, k: nat): State
    requires k < |s.running|
  {
    s.(running := RemoveAt(s.running, k), failed := s.failed + [s.running[k]])
  }

  function Apply(cfg: Config, s: State, step: Step): (s': State)
    requires Shaped(cfg, s) && Enabled(cfg, s, step)
    ensures Shaped(cfg, s')
  {
    match step
    case Issue =>
      assert s.queue[0] in s.queue && forall c :: c in s.queue[1..] ==> c in s.queue;
      DoIssue(s)
    case Start(k) => assert s.waiting[k] in s.waiting; DoStart(cfg, s, k)
    case FinishOk(k, outputLen, text) => assert s.running[k] in s.running; DoFinishOk(cfg, s, k, outputLen, text)
    case FinishFail(k) => DoFinishFail(s, k)
    case GiveUp => s.(gaveUp := true)
  }

  datatype Outcome = Stuck | Reached(state: State)

  /** The state a run reaches by taking `steps` from the start, if each is enabled where it is taken. */
  ghost function Run(cfg: Config, steps: seq<Step>): (o: Outcome)
    requires WellFormed(cfg)
    ensures o.Reached? ==> Shaped(cfg, o.state)
  {
    if steps == [] then Reached(Initial(cfg)) else
    var before := Run(cfg, steps[..|steps| - 1]);
    var step := steps[|steps| - 1];
    if before.Reached? && Enabled(cfg, before.state, step) then Reached(Apply(cfg, before.state, step)) else Stuck
  }
}
