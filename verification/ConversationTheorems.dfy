/** What holds of every run of the conversation queue. */
module ConversationTheorems {
  import opened Sums
  import opened ConversationQueue
  import opened ConversationProofs

  ghost predicate Invariant(cfg: Config, s: State) {
    Shaped(cfg, s) && OnePlace(cfg, s) && AllInStanding(cfg, s) && SentLog(cfg, s) && Counted(cfg, s) && InOrder(cfg, s)
  }

  lemma InitialInvariant(cfg: Config)
    requires WellFormed(cfg)
    ensures Invariant(cfg, Initial(cfg))
  {
    InitialStanding(cfg);
    assert Load(cfg, Initial(cfg)) == seq(|cfg.input|, _ => 0);
    SumZeros(|cfg.input|);
    assert Enqueued(cfg, Initial(cfg)) == Ids(|cfg.input|);
  }

  lemma {:induction false} RunInvariant(cfg: Config, steps: seq<Step>)
    requires WellFormed(cfg) && Run(cfg, steps).Reached?
    ensures Invariant(cfg, Run(cfg, steps).state)
  {
    hide OnePlace, AllInStanding, SentLog, Counted, InOrder, Apply, Enabled;
    if steps == [] {
      InitialInvariant(cfg);
    } else {
      var before, step := steps[..|steps| - 1], steps[|steps| - 1];
      RunInvariant(cfg, before);
      StepKeepsOnePlace(cfg, Run(cfg, before).state, step);
      StepKeepsStanding(cfg, Run(cfg, before).state, step);
      StepKeepsSentLog(cfg, Run(cfg, before).state, step);
      StepKeepsCounted(cfg, Run(cfg, before).state, step);
      StepKeepsOrder(cfg, Run(cfg, before).state, step);
    }
  }

  /** In every run each conversation is in exactly one place, the queue stays within its capacity and the put of a
      follow-up turn never waits, and a conversation's turns are sent in order, none twice. */
  lemma QueueProtocol(cfg: Config, steps: seq<Step>)
    requires WellFormed(cfg) && Run(cfg, steps).Reached?
    ensures var s := Run(cfg, steps).state;
      && (forall c: ConvId :: c < |cfg.input| ==> Places(s)[c] == 1)
      && |s.queue| <= Capacity(cfg) && !s.putBlocked
      && (forall i :: 0 <= i < |s.sent| ==> s.sent[i].turn == TurnsSent(s.sent[..i], s.sent[i].conv))
  {
    RunInvariant(cfg, steps);
    var s := Run(cfg, steps).state;
    forall c: ConvId | c < |cfg.input| ensures Places(s)[c] == 1 { IdsCount(|cfg.input|, c); }
    QueueFits(cfg, s);
  }

  /** No run ever has more tasks past the semaphore than it admits. */
  lemma {:induction false} WithinLimit(cfg: Config, steps: seq<Step>)
    requires WellFormed(cfg) && Run(cfg, steps).Reached? && cfg.limit.AtMost?
    ensures |Run(cfg, steps).state.running| <= cfg.limit.n
  {
    if steps != [] {
      var before, step := steps[..|steps| - 1], steps[|steps| - 1];
      WithinLimit(cfg, before);
      RunningGrows(cfg, Run(cfg, before).state, step);
    }
  }

  lemma RunningGrows(cfg: Config, s: State, step: Step)
    requires Shaped(cfg, s) && Enabled(cfg, s, step)
    ensures |Apply(cfg, s, step).running| <= |s.running| + if step.Start? then 1 else 0
  {}

  /** The request loop gives up only when no conversation is queued and requests are still to be issued, and issues
      nothing from then on. */
  lemma {:induction false} GivesUpStarved(cfg: Config, steps: seq<Step>, i: nat)
    requires WellFormed(cfg) && Run(cfg, steps).Reached? && i < |steps| && steps[i].GiveUp?
    ensures Run(cfg, steps[..i]).Reached?
    ensures var t, s := Run(cfg, steps[..i]).state, Run(cfg, steps).state;
      t.queue == [] && t.issued < TotalTurns(cfg) && s.gaveUp && s.issued == t.issued
  {
    hide Apply, Enabled;
    var n := |steps| - 1;
    var before := steps[..n];
    if i < n {
      GivesUpStarved(cfg, before, i);
      assert before[..i] == steps[..i];
      StaysGivenUp(cfg, Run(cfg, before).state, steps[n]);
    } else {
      GivingUp(cfg, Run(cfg, before).state);
    }
  }

  lemma GivingUp(cfg: Config, s: State)
    requires Shaped(cfg, s) && Enabled(cfg, s, GiveUp)
    ensures s.queue == [] && s.issued < TotalTurns(cfg)
    ensures Apply(cfg, s, GiveUp).gaveUp && Apply(cfg, s, GiveUp).issued == s.issued
  {}

  lemma StaysGivenUp(cfg: Config, s: State, step: Step)
    requires Shaped(cfg, s) && Enabled(cfg, s, step) && s.gaveUp
    ensures Apply(cfg, s, step).gaveUp && Apply(cfg, s, step).issued == s.issued
  {}

  /** The queue is first in, first out in every run: conversations are issued in the order of the list, then in the
      order in which their replies came in. */
  lemma IssuedInOrder(cfg: Config, steps: seq<Step>)
    requires WellFormed(cfg) && Run(cfg, steps).Reached?
    ensures var s := Run(cfg, steps).state;
      s.issued <= |Enqueued(cfg, s)| && s.queue == Enqueued(cfg, s)[s.issued..]
  {
    RunInvariant(cfg, steps);
  }

  /** What the successful finishes of a run brought conversation `c`: the length and text each step carried, in
      order. */
  ghost function Received(cfg: Config, steps: seq<Step>, c: ConvId): seq<Reply>
    requires WellFormed(cfg) && Run(cfg, steps).Reached?
  {
    if steps == [] then [] else
    var before, step := steps[..|steps| - 1], steps[|steps| - 1];
    Received(cfg, before, c) +
    if step.FinishOk? && Run(cfg, before).state.running[step.k] == c then [Reply(c, step.outputLen, step.text)] else []
  }

  lemma StepLogsReply(cfg: Config, s: State, step: Step, c: ConvId)
    requires Shaped(cfg, s) && Enabled(cfg, s, step)
    ensures RepliesTo(Apply(cfg, s, step).replies, c) == RepliesTo(s.replies, c) +
      if step.FinishOk? && s.running[step.k] == c then [Reply(c, step.outputLen, step.text)] else []
  {
    hide RepliesTo;
    if step.FinishOk? {
      LogsGrow([], s.replies, Sent(0, 0, 0, []), Reply(s.running[step.k], step.outputLen, step.text), c);
    }
  }

  /** The log of replies holds exactly what the steps brought, conversation by conversation. */
  lemma {:induction false} RepliesAreReceived(cfg: Config, steps: seq<Step>, c: ConvId)
    requires WellFormed(cfg) && Run(cfg, steps).Reached?
    ensures RepliesTo(Run(cfg, steps).state.replies, c) == Received(cfg, steps, c)
  {
    if steps != [] {
      hide Apply, RepliesTo;
      var before := steps[..|steps| - 1];
      RepliesAreReceived(cfg, before, c);
      StepLogsReply(cfg, Run(cfg, before).state, steps[|steps| - 1], c);
    }
  }

  /** A request for turn `t` of a conversation: the `t + 1` prompts with the texts received between them, and as many
      tokens as those prompts and the lengths received. */
  ghost predicate CarriesAll(input: seq<Turn>, received: seq<Reply>, x: Sent) {
    && x.turn < |input| && x.turn <= |received| && |x.messages| == 2 * x.turn + 1
    && (forall j :: 0 <= j <= x.turn ==> x.messages[2 * j] == User(input[j].prompt))
    && (forall j :: 0 <= j < x.turn ==> x.messages[2 * j + 1] == Assistant(received[j].text))
    && x.promptLen == InputTokens(input[..x.turn + 1]) + OutputTokens(received[..x.turn])
  }

  lemma FittingPair(input: seq<Turn>, actual: seq<Reply>, m: Message, j: nat)
    ensures Fitting(input, actual, m, 2 * j) <==> j < |input| && m == User(input[j].prompt)
    ensures Fitting(input, actual, m, 2 * j + 1) <==> j < |actual| && m == Assistant(actual[j].text)
  {
    assert 2 * j / 2 == j && (2 * j + 1) / 2 == j;
  }

  lemma SentWellCarriesAll(input: seq<Turn>, actual: seq<Reply>, x: Sent)
    requires SentWell(input, actual, x)
    ensures CarriesAll(input, actual, x)
  {
    hide Fitting, InputTokens, OutputTokens;
    forall j | 0 <= j <= x.turn ensures x.messages[2 * j] == User(input[j].prompt) {
      FittingPair(input, actual, x.messages[2 * j], j);
    }
    forall j | 0 <= j < x.turn ensures x.messages[2 * j + 1] == Assistant(actual[j].text) {
      FittingPair(input, actual, x.messages[2 * j + 1], j);
    }
  }

  /** Every request sent carried the whole conversation so far and the token count of what was really said. */
  lemma RequestsCarryTheConversation(cfg: Config, steps: seq<Step>, i: nat)
    requires WellFormed(cfg) && Run(cfg, steps).Reached? && i < |Run(cfg, steps).state.sent|
    ensures var x := Run(cfg, steps).state.sent[i];
      x.conv < |cfg.input| && CarriesAll(cfg.input[x.conv], Received(cfg, steps, x.conv), x)
  {
    RunInvariant(cfg, steps);
    var s := Run(cfg, steps).state;
    var c := s.sent[i].conv;
    SentWellCarriesAll(cfg.input[c], RepliesTo(s.replies, c), s.sent[i]);
    RepliesAreReceived(cfg, steps, c);
  }

  // ---- termination -----------------------------------------------------------------------------

  function WeightOf(s: State, len: int, c: ConvId): int {
    var left := 3 * (len - |RepliesTo(s.replies, c)|);
    if c in s.failed || c in s.done then 0
    else if c in s.waiting then left - 1
    else if c in s.running then left - 2
    else left
  }

  /** Steps still ahead of each conversation. */
  function Weights(cfg: Config, s: State): (w: seq<int>)
    ensures |w| == |cfg.input|
    ensures forall c :: 0 <= c < |w| ==> w[c] == WeightOf(s, |cfg.input[c]|, c)
  {
    seq(|cfg.input|, c requires 0 <= c < |cfg.input| => WeightOf(s, |cfg.input[c]|, c))
  }

  function Measure(cfg: Config, s: State): int { Sum(Weights(cfg, s)) + if s.gaveUp then 0 else 1 }

  lemma WeightIsNatural(cfg: Config, s: State, c: ConvId)
    requires AllInStanding(cfg, s) && OnePlace(cfg, s) && c < |cfg.input|
    ensures WeightOf(s, |cfg.input[c]|, c) >= 0
    ensures c in s.running ==> WeightOf(s, |cfg.input[c]|, c) >= 1
  {
    assert InStanding(cfg, s, c);
    Elsewhere(cfg, s, c);
  }

  lemma MeasureIsNatural(cfg: Config, s: State)
    requires AllInStanding(cfg, s) && OnePlace(cfg, s)
    ensures Measure(cfg, s) >= 0
  {
    var zeros := seq(|cfg.input|, _ => 0);
    forall c | 0 <= c < |cfg.input| ensures zeros[c] <= Weights(cfg, s)[c] { WeightIsNatural(cfg, s, c); }
    SumMonotone(zeros, Weights(cfg, s));
    SumZeros(|cfg.input|);
  }

  /** A step that moves only conversation `c`, and makes it lighter, makes the whole lighter. */
  lemma LighterAt(cfg: Config, s: State, s': State, c: ConvId)
    requires c < |cfg.input| && WeightOf(s', |cfg.input[c]|, c) < WeightOf(s, |cfg.input[c]|, c)
    requires forall d :: 0 <= d < |cfg.input| && d != c ==>
      WeightOf(s', |cfg.input[d]|, d) == WeightOf(s, |cfg.input[d]|, d)
    ensures Sum(Weights(cfg, s')) < Sum(Weights(cfg, s))
  {
    var w, w' := Weights(cfg, s), Weights(cfg, s');
    assert w' == w[c := w'[c]];
    SumUpdate(w, c, w'[c]);
  }

  lemma IssueIsLighter(cfg: Config, s: State)
    requires Invariant(cfg, s) && s.queue != []
    ensures Sum(Weights(cfg, DoIssue(s))) < Sum(Weights(cfg, s))
  {
    hide AllInStanding, SentLog, Counted, InOrder;
    var c := s.queue[0];
    assert c in s.queue;
    Elsewhere(cfg, s, c);
    LighterAt(cfg, s, DoIssue(s), c);
  }

  lemma StartIsLighter(cfg: Config, s: State, k: nat)
    requires Invariant(cfg, s) && k < |s.waiting|
    ensures Sum(Weights(cfg, DoStart(cfg, s, k))) < Sum(Weights(cfg, s))
  {
    hide AllInStanding, SentLog, Counted, InOrder;
    var c, s' := s.waiting[k], DoStart(cfg, s, k);
    assert c in s.waiting;
    Elsewhere(cfg, s, c);
    NoRepeat(cfg, s, k);
    forall d | 0 <= d < |cfg.input| && d != c
      ensures WeightOf(s', |cfg.input[d]|, d) == WeightOf(s, |cfg.input[d]|, d)
    {
      OthersStay(s.waiting, k, d);
    }
    LighterAt(cfg, s, s', c);
  }

  lemma FinishedWeight(cfg: Config, s: State, k: nat, outputLen: nat, text: string)
    requires Shaped(cfg, s) && OnePlace(cfg, s) && AllInStanding(cfg, s) && k < |s.running|
    ensures var c := s.running[k];
      && c < |cfg.input|
      && WeightOf(DoFinishOk(cfg, s, k, outputLen, text), |cfg.input[c]|, c) == WeightOf(s, |cfg.input[c]|, c) - 1
  {
    hide RepliesTo;
    var c, s' := s.running[k], DoFinishOk(cfg, s, k, outputLen, text);
    assert c in s.running && InStanding(cfg, s, c);
    Elsewhere(cfg, s, c);
    NoRepeat(cfg, s, k);
    LogsGrow([], s.replies, Sent(0, 0, 0, []), Reply(c, outputLen, text), c);
    assert c !in s'.running && c !in s'.failed && c !in s'.waiting;
    assert c in s'.done <==> s.convs[c].finished + 1 == |cfg.input[c]|;
  }

  lemma OtherWeight(cfg: Config, s: State, k: nat, outputLen: nat, text: string, d: ConvId)
    requires Shaped(cfg, s) && k < |s.running| && d < |cfg.input| && d != s.running[k]
    ensures WeightOf(DoFinishOk(cfg, s, k, outputLen, text), |cfg.input[d]|, d) == WeightOf(s, |cfg.input[d]|, d)
  {
    hide RepliesTo;
    OthersStay(s.running, k, d);
    LogsGrow([], s.replies, Sent(0, 0, 0, []), Reply(s.running[k], outputLen, text), d);
  }

  lemma FinishIsLighter(cfg: Config, s: State, k: nat, outputLen: nat, text: string)
    requires Invariant(cfg, s) && k < |s.running|
    ensures Sum(Weights(cfg, DoFinishOk(cfg, s, k, outputLen, text))) < Sum(Weights(cfg, s))
  {
    hide WeightOf, AllInStanding, SentLog, Counted, InOrder;
    var c, s' := s.running[k], DoFinishOk(cfg, s, k, outputLen, text);
    FinishedWeight(cfg, s, k, outputLen, text);
    forall d | 0 <= d < |cfg.input| && d != c
      ensures WeightOf(s', |cfg.input[d]|, d) == WeightOf(s, |cfg.input[d]|, d)
    {
      OtherWeight(cfg, s, k, outputLen, text, d);
    }
    LighterAt(cfg, s, s', c);
  }

  lemma FailIsLighter(cfg: Config, s: State, k: nat)
    requires Invariant(cfg, s) && k < |s.running|
    ensures Sum(Weights(cfg, DoFinishFail(s, k))) < Sum(Weights(cfg, s))
  {
    var c, s' := s.running[k], DoFinishFail(s, k);
    assert c in s.running;
    Elsewhere(cfg, s, c);
    WeightIsNatural(cfg, s, c);
    hide AllInStanding, SentLog, Counted, InOrder;
    forall d | 0 <= d < |cfg.input| && d != c
      ensures WeightOf(s', |cfg.input[d]|, d) == WeightOf(s, |cfg.input[d]|, d)
    {
      OthersStay(s.running, k, d);
    }
    LighterAt(cfg, s, s', c);
  }

  lemma StepIsLighter(cfg: Config, s: State, step: Step)
    requires Invariant(cfg, s) && Enabled(cfg, s, step)
    ensures Measure(cfg, Apply(cfg, s, step)) < Measure(cfg, s)
  {
    hide AllInStanding, SentLog, Counted, InOrder, OnePlace;
    match step
    case Issue => IssueIsLighter(cfg, s);
    case Start(k) => StartIsLighter(cfg, s, k);
    case FinishOk(k, outputLen, text) => FinishIsLighter(cfg, s, k, outputLen, text);
    case FinishFail(k) => FailIsLighter(cfg, s, k);
    case GiveUp => assert Weights(cfg, s.(gaveUp := true)) == Weights(cfg, s);
  }

  lemma InitialMeasure(cfg: Config)
    requires WellFormed(cfg)
    ensures Measure(cfg, Initial(cfg)) == 3 * TotalTurns(cfg) + 1
  {
    Tripled(Lengths(cfg.input), Weights(cfg, Initial(cfg)));
  }

  lemma {:induction false} Tripled(xs: seq<int>, ys: seq<int>)
    requires |xs| == |ys| && forall i :: 0 <= i < |xs| ==> ys[i] == 3 * xs[i]
    ensures Sum(ys) == 3 * Sum(xs)
  {
    if xs != [] { Tripled(xs[..|xs| - 1], ys[..|ys| - 1]); }
  }

  /** Every run ends: three steps per turn at most, and one timeout. */
  lemma {:induction false} RunsAreBounded(cfg: Config, steps: seq<Step>)
    requires WellFormed(cfg) && Run(cfg, steps).Reached?
    ensures |steps| + Measure(cfg, Run(cfg, steps).state) <= 3 * TotalTurns(cfg) + 1
    ensures |steps| <= 3 * TotalTurns(cfg) + 1
  {
    hide Measure, Apply, OnePlace, AllInStanding, SentLog, Counted, InOrder;
    RunInvariant(cfg, steps);
    MeasureIsNatural(cfg, Run(cfg, steps).state);
    if steps == [] {
      InitialMeasure(cfg);
    } else {
      var before := steps[..|steps| - 1];
      RunsAreBounded(cfg, before);
      RunInvariant(cfg, before);
      StepIsLighter(cfg, Run(cfg, before).state, steps[|steps| - 1]);
    }
  }

  // ---- how runs end ----------------------------------------------------------------------------

  /** No task can move and none can be created; only the timeout could still fire. */
  ghost predicate Idle(cfg: Config, s: State) {
    forall step :: Enabled(cfg, s, step) ==> step.GiveUp?
  }

  lemma LoadWithinLength(cfg: Config, s: State, c: ConvId)
    requires AllInStanding(cfg, s) && OnePlace(cfg, s) && c < |cfg.input|
    ensures Load(cfg, s)[c] <= |cfg.input[c]|
    ensures c in s.queue ==> Load(cfg, s)[c] < |cfg.input[c]|
    ensures c in s.done ==> Load(cfg, s)[c] == |cfg.input[c]|
  {
    assert InStanding(cfg, s, c);
    Elsewhere(cfg, s, c);
    PlaceCount(cfg, s, c);
    InSeq(s.done, c);
    InSeq(s.waiting, c);
  }

  /** All requests issued exactly when every conversation has issued all of its turns; then nothing is queued. */
  lemma AllIssuedIff(cfg: Config, s: State)
    requires Invariant(cfg, s)
    ensures s.issued <= TotalTurns(cfg)
    ensures s.issued == TotalTurns(cfg) <==> forall c :: 0 <= c < |cfg.input| ==> Load(cfg, s)[c] == |cfg.input[c]|
    ensures s.issued == TotalTurns(cfg) ==> s.queue == []
  {
    var load, lengths := Load(cfg, s), Lengths(cfg.input);
    forall c | 0 <= c < |cfg.input| ensures load[c] <= lengths[c] { LoadWithinLength(cfg, s, c); }
    SumMonotone(load, lengths);
    if forall c :: 0 <= c < |cfg.input| ==> load[c] == lengths[c] { assert load == lengths; }
    if s.issued == TotalTurns(cfg) && s.queue != [] {
      assert s.queue[0] in s.queue;
      LoadWithinLength(cfg, s, s.queue[0]);
    }
  }

  /** What can happen next in a run, exactly: the loop takes a queued conversation unless it gave up, any waiting task
      passes the semaphore if that has room, any running one ends in any way, and an empty queue can time out. */
  lemma WhatCanHappen(cfg: Config, steps: seq<Step>, step: Step)
    requires WellFormed(cfg) && Run(cfg, steps).Reached?
    ensures var s := Run(cfg, steps).state;
      Run(cfg, steps + [step]).Reached? <==>
        match step
        case Issue => s.queue != [] && !s.gaveUp
        case Start(k) => k < |s.waiting| && (cfg.limit.Unlimited? || |s.running| < cfg.limit.n)
        case FinishOk(k, _, _) => k < |s.running|
        case FinishFail(k) => k < |s.running|
        case GiveUp => s.queue == [] && !s.gaveUp && s.issued < TotalTurns(cfg)
  {
    assert (steps + [step])[..|steps|] == steps;
    RunInvariant(cfg, steps);
    AllIssuedIff(cfg, Run(cfg, steps).state);
    hide Invariant, Apply, Shaped, TotalTurns;
  }

  lemma IdleQueues(cfg: Config, s: State)
    requires WellFormed(cfg) && Idle(cfg, s)
    ensures s.waiting == [] && s.running == []
    ensures s.queue == [] || s.gaveUp || s.issued >= TotalTurns(cfg)
  {
    assert !Enabled(cfg, s, FinishFail(0));
    assert !Enabled(cfg, s, Start(0));
    assert !Enabled(cfg, s, Issue);
  }

  /** A run that never timed out comes to rest with an empty queue, and has issued every request exactly when each
      dropped conversation failed on its last turn; with no failure at all, everything was issued and answered. */
  lemma HowRunsEnd(cfg: Config, steps: seq<Step>)
    requires WellFormed(cfg) && Run(cfg, steps).Reached?
    requires Idle(cfg, Run(cfg, steps).state) && !Run(cfg, steps).state.gaveUp
    ensures var s := Run(cfg, steps).state;
      && s.queue == [] && s.waiting == [] && s.running == [] && s.issued == |s.sent|
      && (s.issued == TotalTurns(cfg) <==>
            forall c :: c in s.failed && c < |cfg.input| ==> TurnsSent(s.sent, c) == |cfg.input[c]|)
      && (s.failed == [] ==>
            && s.issued == TotalTurns(cfg)
            && forall c :: 0 <= c < |cfg.input| ==> |RepliesTo(s.replies, c)| == |cfg.input[c]|)
  {
    RunInvariant(cfg, steps);
    AtRest(cfg, Run(cfg, steps).state);
  }

  lemma AtRest(cfg: Config, s: State)
    requires WellFormed(cfg) && Invariant(cfg, s) && Idle(cfg, s) && !s.gaveUp
    ensures s.queue == [] && s.waiting == [] && s.running == [] && s.issued == |s.sent|
    ensures s.issued == TotalTurns(cfg) <==>
      forall c :: c in s.failed && c < |cfg.input| ==> TurnsSent(s.sent, c) == |cfg.input[c]|
    ensures s.failed == [] ==> s.issued == TotalTurns(cfg)
    ensures s.failed == [] ==> forall c :: 0 <= c < |cfg.input| ==> |RepliesTo(s.replies, c)| == |cfg.input[c]|
  {
    IdleQueues(cfg, s);
    AllIssuedIff(cfg, s);
    forall c | 0 <= c < |cfg.input|
      ensures Load(cfg, s)[c] == TurnsSent(s.sent, c)
      ensures c in s.done ==> TurnsSent(s.sent, c) == |cfg.input[c]| == |RepliesTo(s.replies, c)|
      ensures c in s.done || c in s.failed
    {
      Elsewhere(cfg, s, c);
      LoadWithinLength(cfg, s, c);
      assert InStanding(cfg, s, c);
    }
  }
}
