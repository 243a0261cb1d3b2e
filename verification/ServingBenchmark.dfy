/** The serving benchmark's request loop and request task as methods that update the shared state in place. Each adds
    its step to the run the object has gone through, so the theorems about runs hold of the object. */
module ServingBenchmarks {
  import opened ConversationQueue
  import opened ConversationProofs
  import opened ConversationTheorems

  lemma RunSnoc(cfg: Config, steps: seq<Step>, step: Step, s: State)
    requires WellFormed(cfg) && Run(cfg, steps) == Reached(s) && Enabled(cfg, s, step)
    ensures Run(cfg, steps + [step]) == Reached(Apply(cfg, s, step))
  {
    assert (steps + [step])[..|steps|] == steps;
  }

  lemma AtSomeTurn(cfg: Config, s: State, k: nat)
    requires Shaped(cfg, s) && k < |s.running|
    ensures s.running[k] < |s.convs| && s.convs[s.running[k]].finished < |s.convs[s.running[k]].prompts|
  {
    assert s.running[k] in s.running;
  }

  class ServingBenchmark {
    const cfg: Config
    const numActualRequests: int

    var convs: seq<Conversation>
    var queue: seq<ConvId>
    var waiting: seq<ConvId>
    var running: seq<ConvId>
    var done: seq<ConvId>
    var failed: seq<ConvId>
    var issued: nat
    var gaveUp: bool
    var putBlocked: bool
    var sent: seq<Sent>
    var replies: seq<Reply>

    /** The run the object has gone through. */
    ghost var trace: seq<Step>

    ghost function Snapshot(): State
      reads this
    {
      State(convs, queue, waiting, running, done, failed, issued, gaveUp, putBlocked, sent, replies)
    }

    ghost predicate Valid()
      reads this
    {
      WellFormed(cfg) && Run(cfg, trace) == Reached(Snapshot()) && numActualRequests == TotalTurns(cfg)
    }

    /** Fills the queue, one request input per conversation. */
    constructor (cfg: Config)
      requires WellFormed(cfg)
      ensures this.cfg == cfg && Valid() && trace == []
    {
      this.cfg := cfg;
      numActualRequests := TotalTurns(cfg);
      convs, queue := [], [];
      waiting, running, done, failed, sent, replies := [], [], [], [], [], [];
      issued, gaveUp, putBlocked, trace := 0, false, false, [];
      new;
      for i := 0 to |cfg.input|
        modifies this`convs, this`queue
        invariant |convs| == |queue| == i
        invariant forall c :: 0 <= c < i ==> convs[c] == Conversation(cfg.input[c], [], 0) && queue[c] == c
      {
        convs := convs + [Conversation(cfg.input[i], [], 0)];
        queue := queue + [i];
      }
      assert Snapshot() == Initial(cfg);
    }

    // ---- what every object satisfies between turns ------------------------------------------

    lemma PutNeverWaits()
      requires Valid()
      ensures |queue| <= |cfg.input| && !putBlocked
      ensures forall c: ConvId :: c < |cfg.input| ==> Places(Snapshot())[c] == 1
    {
      QueueProtocol(cfg, trace);
    }

    /** Any request sent carries the prompts of its conversation, and the texts and lengths its finished tasks got. */
    lemma RequestsQuoteReplies(i: nat)
      requires Valid() && i < |sent|
      ensures sent[i].conv < |cfg.input|
      ensures CarriesAll(cfg.input[sent[i].conv], Received(cfg, trace, sent[i].conv), sent[i])
    {
      RequestsCarryTheConversation(cfg, trace, i);
    }

    // ---- the turns of the loop and of a task --------------------------------------------------

    /** One turn of the request loop: take the next conversation and create its task, or give up when the wait
        for one has timed out. */
    method NextRequest(timedOut: bool) returns (created: bool)
      requires Valid() && (timedOut ==> queue == [])
      modifies this`queue, this`waiting, this`issued, this`gaveUp, this`trace
      ensures Valid()
      ensures var s := old(Snapshot());
        && (created <==> Enabled(cfg, s, Issue))
        && trace == old(trace)
             + if created then [Issue] else if timedOut && Enabled(cfg, s, GiveUp) then [GiveUp] else []
    {
      hide Run, WellFormed, Shaped, TotalTurns;
      ghost var s := Snapshot();
      created := false;
      if issued < numActualRequests && !gaveUp {
        if queue != [] {
          created := true;
          waiting := waiting + [queue[0]];
          queue := queue[1..];
          issued := issued + 1;
          RunSnoc(cfg, trace, Issue, s);
          trace := trace + [Issue];
        } else if timedOut {
          gaveUp := true;
          RunSnoc(cfg, trace, GiveUp, s);
          trace := trace + [GiveUp];
        }
      }
    }

    /** Tokens of the earlier turns, summed over the recorded turns. */
    method ComputePromptLen(prompts: seq<Turn>, turn: nat) returns (len: int)
      requires turn < |prompts|
      ensures len == PromptLen(prompts, turn)
    {
      len := 0;
      for j := 0 to turn
        invariant len == EarlierTokens(prompts[..j])
      {
        assert prompts[..j + 1][..j] == prompts[..j];
        len := len + (prompts[j].inputLen + prompts[j].outputLen);
      }
      len := len + prompts[turn].inputLen;
    }

    /** The coroutine up to the request. */
    method StartTask(k: nat)
      requires Valid() && Enabled(cfg, Snapshot(), Start(k))
      modifies this`convs, this`sent, this`waiting, this`running, this`trace
      ensures Valid() && trace == old(trace) + [Start(k)]
    {
      ghost var s := Snapshot();
      RunSnoc(cfg, trace, Start(k), s);
      trace := trace + [Start(k)];
      hide Run, WellFormed, PromptLen;
      var c := waiting[k];
      assert c in waiting;
      var conv := convs[c];
      var promptLen := ComputePromptLen(conv.prompts, conv.finished);
      var messages := conv.messages + [User(conv.prompts[conv.finished].prompt)];
      convs := convs[c := conv.(messages := messages)];
      sent := sent + [Sent(c, conv.finished, promptLen, messages)];
      waiting := waiting[..k] + waiting[k + 1..];
      running := running + [c];
      assert Snapshot() == DoStart(cfg, s, k);
    }

    /** The coroutine after a good response. */
    method FinishTask(k: nat, outputLen: nat, text: string)
      requires Valid() && k < |running|
      modifies this`convs, this`replies, this`running, this`queue, this`done, this`putBlocked, this`trace
      ensures Valid() && trace == old(trace) + [FinishOk(k, outputLen, text)]
    {
      RunSnoc(cfg, trace, FinishOk(k, outputLen, text), Snapshot());
      hide Run, WellFormed, Shaped, DoFinishOk;
      trace := trace + [FinishOk(k, outputLen, text)];
      RecordReply(k, outputLen, text);
    }

    method RecordReply(k: nat, outputLen: nat, text: string)
      requires Shaped(cfg, Snapshot()) && k < |running|
      modifies this`convs, this`replies, this`running, this`queue, this`done, this`putBlocked
      ensures Snapshot() == DoFinishOk(cfg, old(Snapshot()), k, outputLen, text)
    {
      AtSomeTurn(cfg, Snapshot(), k);
      hide Shaped;
      var c := running[k];
      var conv := convs[c];
      var turn := conv.finished;
      var prompts := conv.prompts[turn := conv.prompts[turn].(outputLen := outputLen)];
      var messages := conv.messages + [Assistant(text)];
      replies := replies + [Reply(c, outputLen, text)];
      running := running[..k] + running[k + 1..];
      if turn + 1 < |prompts| {
        convs := convs[c := Conversation(prompts, messages, turn + 1)];
        putBlocked := putBlocked || |queue| >= |cfg.input|;
        queue := queue + [c];
      } else {
        convs := convs[c := Conversation(prompts, messages, turn)];
        done := done + [c];
      }
    }

    /** The coroutine after a failed request: the conversation is dropped. */
    method FailTask(k: nat)
      requires Valid() && k < |running|
      modifies this`failed, this`running, this`trace
      ensures Valid() && trace == old(trace) + [FinishFail(k)]
    {
      ghost var s := Snapshot();
      RunSnoc(cfg, trace, FinishFail(k), s);
      trace := trace + [FinishFail(k)];
      hide Run, WellFormed, Shaped;
      failed := failed + [running[k]];
      running := running[..k] + running[k + 1..];
      assert Snapshot() == DoFinishFail(s, k);
    }
  }
}
