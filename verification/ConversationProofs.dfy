/** What every step of the conversation queue keeps. */
module ConversationProofs {
  import opened Prelude
  import opened Sums
  import opened ConversationQueue

  // ---- one place per conversation --------------------------------------------------------------

  function Ids(n: nat): seq<ConvId> { seq(n, c requires 0 <= c < n => c) }

  lemma {:induction false} IdsCount(n: nat, c: ConvId)
    ensures multiset(Ids(n))[c] == if c < n then 1 else 0
  {
    if n > 0 {
      IdsCount(n - 1, c);
      assert Ids(n) == Ids(n - 1) + [n - 1];
    }
  }

  function Places(s: State): multiset<ConvId> {
    multiset(s.queue) + multiset(s.waiting) + multiset(s.running) + multiset(s.done) + multiset(s.failed)
  }

  /** Each conversation is in exactly one of queue, created task, running task, finished and dropped. */
  ghost predicate OnePlace(cfg: Config, s: State) {
    Places(s) == multiset(Ids(|cfg.input|))
  }

  lemma PlaceCount(cfg: Config, s: State, c: ConvId)
    requires OnePlace(cfg, s)
    ensures multiset(s.queue)[c] + multiset(s.waiting)[c] + multiset(s.running)[c] + multiset(s.done)[c]
          + multiset(s.failed)[c]
         == if c < |cfg.input| then 1 else 0
  {
    IdsCount(|cfg.input|, c);
    assert Places(s)[c] == multiset(Ids(|cfg.input|))[c];
  }

  lemma Removed(xs: seq<ConvId>, k: nat)
    requires k < |xs|
    ensures multiset(xs) == multiset(RemoveAt(xs, k)) + multiset{xs[k]}
  {
    assert xs == xs[..k] + [xs[k]] + xs[k + 1..];
  }

  lemma IssueKeepsOnePlace(cfg: Config, s: State)
    requires OnePlace(cfg, s) && s.queue != []
    ensures OnePlace(cfg, DoIssue(s))
  {
    assert s.queue == [s.queue[0]] + s.queue[1..];
    assert Places(DoIssue(s)) == Places(s);
  }

  lemma StartKeepsOnePlace(cfg: Config, s: State, k: nat)
    requires Shaped(cfg, s) && OnePlace(cfg, s) && k < |s.waiting|
    ensures OnePlace(cfg, DoStart(cfg, s, k))
  {
    Removed(s.waiting, k);
    assert Places(DoStart(cfg, s, k)) == Places(s);
  }

  lemma FinishKeepsOnePlace(cfg: Config, s: State, k: nat, outputLen: nat, text: string)
    requires Shaped(cfg, s) && OnePlace(cfg, s) && k < |s.running|
    ensures OnePlace(cfg, DoFinishOk(cfg, s, k, outputLen, text))
  {
    Removed(s.running, k);
    assert Places(DoFinishOk(cfg, s, k, outputLen, text)) == Places(s);
  }

  lemma FailKeepsOnePlace(cfg: Config, s: State, k: nat)
    requires OnePlace(cfg, s) && k < |s.running|
    ensures OnePlace(cfg, DoFinishFail(s, k))
  {
    Removed(s.running, k);
    assert Places(DoFinishFail(s, k)) == Places(s);
  }

  lemma StepKeepsOnePlace(cfg: Config, s: State, step: Step)
    requires Shaped(cfg, s) && OnePlace(cfg, s) && Enabled(cfg, s, step)
    ensures OnePlace(cfg, Apply(cfg, s, step))
  {
    match step
    case Issue => IssueKeepsOnePlace(cfg, s);
    case Start(k) => StartKeepsOnePlace(cfg, s, k);
    case FinishOk(k, outputLen, text) => FinishKeepsOnePlace(cfg, s, k, outputLen, text);
    case FinishFail(k) => FailKeepsOnePlace(cfg, s, k);
    case GiveUp =>
  }

  /** The queue never holds more than its capacity, and has room whenever a task is running. */
  lemma QueueFits(cfg: Config, s: State)
    requires OnePlace(cfg, s)
    ensures |s.queue| + |s.waiting| + |s.running| + |s.done| + |s.failed| == Capacity(cfg)
  {
    assert |Places(s)| == |s.queue| + |s.waiting| + |s.running| + |s.done| + |s.failed|;
    assert |multiset(Ids(|cfg.input|))| == |cfg.input|;
  }

  // ---- the bookkeeping of one conversation -----------------------------------------------------

  /** The replies to conversation `c`, in order. */
  function RepliesTo(replies: seq<Reply>, c: ConvId): seq<Reply> {
    if replies == [] then [] else
    RepliesTo(replies[..|replies| - 1], c) + if replies[|replies| - 1].conv == c then [replies[|replies| - 1]] else []
  }

  /** How many requests conversation `c` has sent. */
  function TurnsSent(sent: seq<Sent>, c: ConvId): nat {
    if sent == [] then 0 else TurnsSent(sent[..|sent| - 1], c) + if sent[|sent| - 1].conv == c then 1 else 0
  }

  /** Message `i` of a conversation: a turn of the input or the text of a reply, in turn. */
  ghost predicate Fitting(input: seq<Turn>, actual: seq<Reply>, m: Message, i: nat) {
    if i % 2 == 0 then i / 2 < |input| && m == User(input[i / 2].prompt)
    else i / 2 < |actual| && m == Assistant(actual[i / 2].text)
  }

  ghost predicate Alternates(input: seq<Turn>, actual: seq<Reply>, messages: seq<Message>) {
    forall i :: 0 <= i < |messages| ==> Fitting(input, actual, messages[i], i)
  }

  /** The recorded turns: actual output lengths where the server has replied, the input elsewhere. */
  ghost predicate Recorded(input: seq<Turn>, prompts: seq<Turn>, actual: seq<Reply>) {
    && |prompts| == |input| && |actual| <= |input|
    && forall j :: 0 <= j < |input| ==>
         prompts[j] == if j < |actual| then input[j].(outputLen := actual[j].outputLen) else input[j]
  }

  ghost predicate Standing(input: seq<Turn>, conv: Conversation, actual: seq<Reply>, sent: nat, asking: bool,
                           finished: bool)
  {
    && Recorded(input, conv.prompts, actual) && Alternates(input, actual, conv.messages)
    && sent == |actual| + (if asking then 1 else 0)
    && |conv.messages| == 2 * |actual| + (if asking then 1 else 0)
    && if finished then |actual| == |input| && !asking && conv.finished + 1 == |input|
       else conv.finished == |actual| < |input|
  }

  ghost predicate InStanding(cfg: Config, s: State, c: ConvId) {
    && c < |cfg.input| == |s.convs|
    && Standing(cfg.input[c], s.convs[c], RepliesTo(s.replies, c), TurnsSent(s.sent, c),
                c in s.running || c in s.failed, c in s.done)
  }

  ghost predicate AllInStanding(cfg: Config, s: State) {
    && |cfg.input| == |s.convs|
    && forall c :: 0 <= c < |cfg.input| ==> InStanding(cfg, s, c)
  }

  lemma LogsGrow(sent: seq<Sent>, replies: seq<Reply>, x: Sent, r: Reply, c: ConvId)
    ensures TurnsSent(sent + [x], c) == TurnsSent(sent, c) + if x.conv == c then 1 else 0
    ensures RepliesTo(replies + [r], c) == if r.conv == c then RepliesTo(replies, c) + [r] else RepliesTo(replies, c)
  {
    assert RepliesTo(replies, c) + [] == RepliesTo(replies, c);
    assert (sent + [x])[..|sent|] == sent && (replies + [r])[..|replies|] == replies;
  }

  lemma InitialStanding(cfg: Config)
    requires WellFormed(cfg)
    ensures AllInStanding(cfg, Initial(cfg)) && OnePlace(cfg, Initial(cfg))
  {}

  lemma NextFits(input: seq<Turn>, conv: Conversation, actual: seq<Reply>, sent: nat)
    requires Standing(input, conv, actual, sent, false, false)
    ensures Fitting(input, actual, User(conv.prompts[conv.finished].prompt), |conv.messages|)
  {}

  lemma ReplyFits(input: seq<Turn>, conv: Conversation, actual: seq<Reply>, sent: nat, r: Reply)
    requires Standing(input, conv, actual, sent, true, false)
    ensures Alternates(input, actual + [r], conv.messages + [Assistant(r.text)])
  {}

  lemma StartStanding(input: seq<Turn>, conv: Conversation, actual: seq<Reply>, sent: nat)
    requires Standing(input, conv, actual, sent, false, false)
    ensures var messages := conv.messages + [User(conv.prompts[conv.finished].prompt)];
      Standing(input, conv.(messages := messages), actual, sent + 1, true, false)
  {
    hide Fitting;
    NextFits(input, conv, actual, sent);
  }

  lemma FinishStanding(input: seq<Turn>, conv: Conversation, actual: seq<Reply>, sent: nat, r: Reply)
    requires Standing(input, conv, actual, sent, true, false)
    ensures var prompts := conv.prompts[conv.finished := conv.prompts[conv.finished].(outputLen := r.outputLen)];
      var more := conv.finished + 1 < |prompts|;
      var finished := if more then conv.finished + 1 else conv.finished;
      Standing(input, Conversation(prompts, conv.messages + [Assistant(r.text)], finished),
               actual + [r], sent, false, !more)
  {
    ReplyFits(input, conv, actual, sent, r);
    hide Alternates;
  }

  /** Where conversation `c` is not, in terms of the queues. */
  lemma Elsewhere(cfg: Config, s: State, c: ConvId)
    requires OnePlace(cfg, s)
    ensures c in s.queue ==> c !in s.waiting && c !in s.running && c !in s.done && c !in s.failed
    ensures c in s.waiting ==> c !in s.queue && c !in s.running && c !in s.done && c !in s.failed
    ensures c in s.running ==> c !in s.queue && c !in s.waiting && c !in s.done && c !in s.failed
    ensures c in s.queue || c in s.waiting || c in s.running || c in s.done || c in s.failed <==> c < |cfg.input|
  {
    PlaceCount(cfg, s, c);
    InSeq(s.queue, c); InSeq(s.waiting, c); InSeq(s.running, c); InSeq(s.done, c); InSeq(s.failed, c);
  }

  lemma InSeq(xs: seq<ConvId>, c: ConvId)
    ensures c in xs <==> multiset(xs)[c] > 0
  {}

  lemma NoRepeat(cfg: Config, s: State, k: nat)
    requires OnePlace(cfg, s)
    ensures k < |s.waiting| ==> s.waiting[k] !in RemoveAt(s.waiting, k)
    ensures k < |s.running| ==> s.running[k] !in RemoveAt(s.running, k)
  {
    if k < |s.waiting| {
      Removed(s.waiting, k);
      PlaceCount(cfg, s, s.waiting[k]);
      InSeq(RemoveAt(s.waiting, k), s.waiting[k]);
    }
    if k < |s.running| {
      Removed(s.running, k);
      PlaceCount(cfg, s, s.running[k]);
      InSeq(RemoveAt(s.running, k), s.running[k]);
    }
  }

  lemma OthersStay(xs: seq<ConvId>, k: nat, d: ConvId)
    requires k < |xs| && d != xs[k]
    ensures d in RemoveAt(xs, k) <==> d in xs
  {
    if d in xs {
      var i :| 0 <= i < |xs| && xs[i] == d;
      if i < k { assert RemoveAt(xs, k)[i] == d; } else { assert RemoveAt(xs, k)[i - 1] == d; }
    }
  }

  lemma StartKeepsStanding(cfg: Config, s: State, k: nat, d: ConvId)
    requires Shaped(cfg, s) && OnePlace(cfg, s) && AllInStanding(cfg, s) && k < |s.waiting| && d < |cfg.input|
    ensures InStanding(cfg, DoStart(cfg, s, k), d)
  {
    hide Standing, TurnsSent, RepliesTo, PromptLen, OnePlace;
    var c := s.waiting[k];
    assert c in s.waiting && InStanding(cfg, s, d);
    Elsewhere(cfg, s, c);
    var s' := DoStart(cfg, s, k);
    LogsGrow(s.sent, s.replies, s'.sent[|s.sent|], Reply(0, 0, []), d);
    if d == c {
      StartStanding(cfg.input[c], s.convs[c], RepliesTo(s.replies, c), TurnsSent(s.sent, c));
    }
  }

  lemma FinishMovesStanding(cfg: Config, s: State, k: nat, outputLen: nat, text: string)
    requires Shaped(cfg, s) && OnePlace(cfg, s) && AllInStanding(cfg, s) && k < |s.running|
    ensures InStanding(cfg, DoFinishOk(cfg, s, k, outputLen, text), s.running[k])
  {
    hide Standing, RepliesTo, TurnsSent;
    var c := s.running[k];
    var s' := DoFinishOk(cfg, s, k, outputLen, text);
    assert c in s.running && InStanding(cfg, s, c);
    Elsewhere(cfg, s, c);
    NoRepeat(cfg, s, k);
    LogsGrow([], s.replies, Sent(0, 0, 0, []), Reply(c, outputLen, text), c);
    FinishStanding(cfg.input[c], s.convs[c], RepliesTo(s.replies, c), TurnsSent(s.sent, c), Reply(c, outputLen, text));
    assert !(c in s'.running || c in s'.failed);
    assert c in s'.done <==> s.convs[c].finished + 1 >= |s.convs[c].prompts|;
  }

  lemma FinishLeavesStanding(cfg: Config, s: State, k: nat, outputLen: nat, text: string, d: ConvId)
    requires Shaped(cfg, s) && AllInStanding(cfg, s) && k < |s.running| && d < |cfg.input| && d != s.running[k]
    ensures InStanding(cfg, DoFinishOk(cfg, s, k, outputLen, text), d)
  {
    hide Standing, RepliesTo, TurnsSent;
    var s' := DoFinishOk(cfg, s, k, outputLen, text);
    assert s.running[k] in s.running && InStanding(cfg, s, d);
    LogsGrow([], s.replies, Sent(0, 0, 0, []), Reply(s.running[k], outputLen, text), d);
    OthersStay(s.running, k, d);
    assert s'.convs[d] == s.convs[d] && s'.sent == s.sent && s'.failed == s.failed;
    assert d in s'.done <==> d in s.done;
  }

  lemma FinishKeepsStanding(cfg: Config, s: State, k: nat, outputLen: nat, text: string, d: ConvId)
    requires Shaped(cfg, s) && OnePlace(cfg, s) && AllInStanding(cfg, s) && k < |s.running| && d < |cfg.input|
    ensures InStanding(cfg, DoFinishOk(cfg, s, k, outputLen, text), d)
  {
    if d == s.running[k] {
      FinishMovesStanding(cfg, s, k, outputLen, text);
    } else {
      FinishLeavesStanding(cfg, s, k, outputLen, text, d);
    }
  }

  lemma FailKeepsStanding(cfg: Config, s: State, k: nat, d: ConvId)
    requires AllInStanding(cfg, s) && k < |s.running| && d < |cfg.input|
    ensures InStanding(cfg, DoFinishFail(s, k), d)
  {
    assert InStanding(cfg, s, d);
    if d != s.running[k] { OthersStay(s.running, k, d); }
  }

  lemma StepKeepsStanding(cfg: Config, s: State, step: Step)
    requires Shaped(cfg, s) && OnePlace(cfg, s) && AllInStanding(cfg, s) && Enabled(cfg, s, step)
    ensures AllInStanding(cfg, Apply(cfg, s, step))
  {
    hide InStanding;
    var s' := Apply(cfg, s, step);
    forall d | 0 <= d < |cfg.input| ensures InStanding(cfg, s', d) {
      match step
      case Issue => SameStanding(cfg, s, s', d);
      case Start(k) => StartKeepsStanding(cfg, s, k, d);
      case FinishOk(k, outputLen, text) => FinishKeepsStanding(cfg, s, k, outputLen, text, d);
      case FinishFail(k) => FailKeepsStanding(cfg, s, k, d);
      case GiveUp => SameStanding(cfg, s, s', d);
    }
  }

  lemma SameStanding(cfg: Config, s: State, s': State, d: ConvId)
    requires AllInStanding(cfg, s) && d < |cfg.input|
    requires s'.convs == s.convs && s'.sent == s.sent && s'.replies == s.replies
    requires s'.running == s.running && s'.failed == s.failed && s'.done == s.done
    ensures InStanding(cfg, s', d)
  {
    assert InStanding(cfg, s, d);
  }

  // ---- what each request carried ---------------------------------------------------------------

  function InputTokens(input: seq<Turn>): int {
    if input == [] then 0 else InputTokens(input[..|input| - 1]) + input[|input| - 1].inputLen
  }

  function OutputTokens(actual: seq<Reply>): int {
    if actual == [] then 0 else OutputTokens(actual[..|actual| - 1]) + actual[|actual| - 1].outputLen
  }

  /** The request of turn `t` has `2t + 1` alternating messages, and its prompt length is all input so far plus the
      output lengths the server actually reported for the earlier turns. */
  ghost predicate SentWell(input: seq<Turn>, actual: seq<Reply>, x: Sent) {
    && x.turn < |input| && x.turn <= |actual|
    && |x.messages| == 2 * x.turn + 1 && Alternates(input, actual, x.messages)
    && x.promptLen == InputTokens(input[..x.turn + 1]) + OutputTokens(actual[..x.turn])
  }

  ghost predicate SentLog(cfg: Config, s: State) {
    forall i :: 0 <= i < |s.sent| ==>
      && s.sent[i].conv < |cfg.input|
      && s.sent[i].turn == TurnsSent(s.sent[..i], s.sent[i].conv)
      && SentWell(cfg.input[s.sent[i].conv], RepliesTo(s.replies, s.sent[i].conv), s.sent[i])
  }

  /** Recorded tokens of the answered turns. */
  lemma {:induction false} EarlierTokensSum(input: seq<Turn>, prompts: seq<Turn>, actual: seq<Reply>, t: nat)
    requires Recorded(input, prompts, actual) && t <= |actual|
    ensures EarlierTokens(prompts[..t]) == InputTokens(input[..t]) + OutputTokens(actual[..t])
  {
    if t > 0 {
      EarlierTokensSum(input, prompts, actual, t - 1);
      assert prompts[..t][..t - 1] == prompts[..t - 1] && input[..t][..t - 1] == input[..t - 1];
      assert actual[..t][..t - 1] == actual[..t - 1];
    }
  }

  lemma StartSendsWell(input: seq<Turn>, conv: Conversation, actual: seq<Reply>, sent: nat, c: ConvId)
    requires Standing(input, conv, actual, sent, false, false)
    ensures var messages := conv.messages + [User(conv.prompts[conv.finished].prompt)];
      SentWell(input, actual, Sent(c, conv.finished, PromptLen(conv.prompts, conv.finished), messages))
  {
    var t := conv.finished;
    StartStanding(input, conv, actual, sent);
    EarlierTokensSum(input, conv.prompts, actual, t);
    assert input[..t + 1][..t] == input[..t];
  }

  lemma SentWellStays(input: seq<Turn>, actual: seq<Reply>, x: Sent, more: seq<Reply>)
    requires SentWell(input, actual, x)
    ensures SentWell(input, actual + more, x)
  {
    assert (actual + more)[..x.turn] == actual[..x.turn];
  }

  lemma StartKeepsSentLog(cfg: Config, s: State, k: nat)
    requires Shaped(cfg, s) && OnePlace(cfg, s) && AllInStanding(cfg, s) && SentLog(cfg, s) && k < |s.waiting|
    ensures SentLog(cfg, DoStart(cfg, s, k))
  {
    hide Standing, SentWell;
    var c := s.waiting[k];
    assert c in s.waiting && InStanding(cfg, s, c);
    Elsewhere(cfg, s, c);
    var s' := DoStart(cfg, s, k);
    StartSendsWell(cfg.input[c], s.convs[c], RepliesTo(s.replies, c), TurnsSent(s.sent, c), c);
    StandingTurn(cfg.input[c], s.convs[c], RepliesTo(s.replies, c), TurnsSent(s.sent, c));
    forall i | 0 <= i < |s'.sent| ensures s'.sent[..i] == s.sent[..i] && (i < |s.sent| ==> s'.sent[i] == s.sent[i]) {}
    assert s.sent[..|s.sent|] == s.sent;
  }

  lemma StandingTurn(input: seq<Turn>, conv: Conversation, actual: seq<Reply>, sent: nat)
    requires Standing(input, conv, actual, sent, false, false)
    ensures conv.finished == sent
  {}

  lemma FinishKeepsSentLog(cfg: Config, s: State, k: nat, outputLen: nat, text: string)
    requires Shaped(cfg, s) && SentLog(cfg, s) && k < |s.running|
    ensures SentLog(cfg, DoFinishOk(cfg, s, k, outputLen, text))
  {
    hide SentWell;
    var c := s.running[k];
    assert c in s.running;
    var s' := DoFinishOk(cfg, s, k, outputLen, text);
    forall i | 0 <= i < |s.sent|
      ensures SentWell(cfg.input[s.sent[i].conv], RepliesTo(s'.replies, s.sent[i].conv), s.sent[i])
    {
      LogsGrow([], s.replies, Sent(0, 0, 0, []), Reply(c, outputLen, text), s.sent[i].conv);
      var input, actual := cfg.input[s.sent[i].conv], RepliesTo(s.replies, s.sent[i].conv);
      SentWellStays(input, actual, s.sent[i], [Reply(c, outputLen, text)]);
    }
  }

  lemma StepKeepsSentLog(cfg: Config, s: State, step: Step)
    requires Shaped(cfg, s) && OnePlace(cfg, s) && AllInStanding(cfg, s) && SentLog(cfg, s) && Enabled(cfg, s, step)
    ensures SentLog(cfg, Apply(cfg, s, step))
  {
    match step
    case Issue =>
    case Start(k) => StartKeepsSentLog(cfg, s, k);
    case FinishOk(k, outputLen, text) => FinishKeepsSentLog(cfg, s, k, outputLen, text);
    case FinishFail(k) =>
    case GiveUp =>
  }

  // ---- counting requests -----------------------------------------------------------------------

  /** Requests issued for each conversation: those sent and the one whose task has not started. */
  function Load(cfg: Config, s: State): (l: seq<int>)
    ensures |l| == |cfg.input|
    ensures forall c :: 0 <= c < |l| ==> l[c] == TurnsSent(s.sent, c) + if c in s.waiting then 1 else 0
  {
    seq(|cfg.input|, c requires 0 <= c < |cfg.input| => TurnsSent(s.sent, c) + if c in s.waiting then 1 else 0)
  }

  ghost predicate Counted(cfg: Config, s: State) {
    s.issued == Sum(Load(cfg, s)) == |s.sent| + |s.waiting| && !s.putBlocked
  }

  lemma IssueKeepsCounted(cfg: Config, s: State)
    requires Shaped(cfg, s) && OnePlace(cfg, s) && Counted(cfg, s) && s.queue != []
    ensures Counted(cfg, DoIssue(s))
  {
    var c := s.queue[0];
    assert c in s.queue;
    Elsewhere(cfg, s, c);
    var l := Load(cfg, s);
    assert Load(cfg, DoIssue(s)) == l[c := l[c] + 1];
    SumUpdate(l, c, l[c] + 1);
  }

  lemma StartKeepsCounted(cfg: Config, s: State, k: nat)
    requires Shaped(cfg, s) && OnePlace(cfg, s) && Counted(cfg, s) && k < |s.waiting|
    ensures Counted(cfg, DoStart(cfg, s, k))
  {
    var s' := DoStart(cfg, s, k);
    assert s.waiting[k] in s.waiting;
    forall d | 0 <= d < |cfg.input| ensures Load(cfg, s')[d] == Load(cfg, s)[d] { StartKeepsLoad(cfg, s, k, d); }
    assert Load(cfg, s') == Load(cfg, s);
  }

  lemma StartKeepsLoad(cfg: Config, s: State, k: nat, d: ConvId)
    requires Shaped(cfg, s) && OnePlace(cfg, s) && k < |s.waiting| && d < |cfg.input|
    ensures var s' := DoStart(cfg, s, k);
      TurnsSent(s'.sent, d) + (if d in s'.waiting then 1 else 0)
        == TurnsSent(s.sent, d) + if d in s.waiting then 1 else 0
  {
    hide TurnsSent, OnePlace, PromptLen;
    var s' := DoStart(cfg, s, k);
    NoRepeat(cfg, s, k);
    LogsGrow(s.sent, [], s'.sent[|s.sent|], Reply(0, 0, []), d);
    if d != s.waiting[k] { OthersStay(s.waiting, k, d); } else { assert d in s.waiting; }
  }

  lemma FinishKeepsCounted(cfg: Config, s: State, k: nat, outputLen: nat, text: string)
    requires Shaped(cfg, s) && OnePlace(cfg, s) && Counted(cfg, s) && k < |s.running|
    ensures Counted(cfg, DoFinishOk(cfg, s, k, outputLen, text))
  {
    QueueFits(cfg, s);
    assert Load(cfg, DoFinishOk(cfg, s, k, outputLen, text)) == Load(cfg, s);
  }

  lemma StepKeepsCounted(cfg: Config, s: State, step: Step)
    requires Shaped(cfg, s) && OnePlace(cfg, s) && Counted(cfg, s) && Enabled(cfg, s, step)
    ensures Counted(cfg, Apply(cfg, s, step))
  {
    match step
    case Issue => IssueKeepsCounted(cfg, s);
    case Start(k) => StartKeepsCounted(cfg, s, k);
    case FinishOk(k, outputLen, text) => FinishKeepsCounted(cfg, s, k, outputLen, text);
    case FinishFail(k) => assert Load(cfg, DoFinishFail(s, k)) == Load(cfg, s);
    case GiveUp => assert Load(cfg, s.(gaveUp := true)) == Load(cfg, s);
  }

  // ---- the order of the queue ------------------------------------------------------------------

  /** The conversations put back into the queue, in order: one for each reply that was not the conversation's last. */
  function Requeued(cfg: Config, replies: seq<Reply>): seq<ConvId> {
    if replies == [] then [] else
    var front, r := replies[..|replies| - 1], replies[|replies| - 1];
    var more := r.conv < |cfg.input| && |RepliesTo(front, r.conv)| + 1 < |cfg.input[r.conv]|;
    Requeued(cfg, front) + if more then [r.conv] else []
  }

  /** All that was ever put into the queue, in order. */
  function Enqueued(cfg: Config, s: State): seq<ConvId> { Ids(|cfg.input|) + Requeued(cfg, s.replies) }

  /** The queue is first in, first out: it holds what was put in last, and everything before that has been issued. */
  ghost predicate InOrder(cfg: Config, s: State) {
    s.issued <= |Enqueued(cfg, s)| && s.queue == Enqueued(cfg, s)[s.issued..]
  }

  lemma IssueKeepsOrder(cfg: Config, s: State)
    requires InOrder(cfg, s) && s.queue != []
    ensures InOrder(cfg, DoIssue(s))
  {
    assert Enqueued(cfg, DoIssue(s)) == Enqueued(cfg, s);
    assert Enqueued(cfg, s)[s.issued..][1..] == Enqueued(cfg, s)[s.issued + 1..];
  }

  lemma EnqueuedGrows(cfg: Config, s: State, s': State, r: Reply)
    requires s'.replies == s.replies + [r] && r.conv < |cfg.input|
    ensures Enqueued(cfg, s') ==
      if |RepliesTo(s.replies, r.conv)| + 1 < |cfg.input[r.conv]| then Enqueued(cfg, s) + [r.conv] else Enqueued(cfg, s)
  {
    assert s'.replies[..|s'.replies| - 1] == s.replies;
    assert Requeued(cfg, s.replies) + [] == Requeued(cfg, s.replies);
    assert Ids(|cfg.input|) + (Requeued(cfg, s.replies) + [r.conv]) == Enqueued(cfg, s) + [r.conv];
  }

  lemma FinishKeepsOrder(cfg: Config, s: State, k: nat, outputLen: nat, text: string)
    requires Shaped(cfg, s) && OnePlace(cfg, s) && AllInStanding(cfg, s) && InOrder(cfg, s) && k < |s.running|
    ensures InOrder(cfg, DoFinishOk(cfg, s, k, outputLen, text))
  {
    hide Enqueued, RepliesTo;
    var c, s' := s.running[k], DoFinishOk(cfg, s, k, outputLen, text);
    assert c in s.running && InStanding(cfg, s, c);
    Elsewhere(cfg, s, c);
    EnqueuedGrows(cfg, s, s', Reply(c, outputLen, text));
  }

  lemma StepKeepsOrder(cfg: Config, s: State, step: Step)
    requires Shaped(cfg, s) && OnePlace(cfg, s) && AllInStanding(cfg, s) && InOrder(cfg, s) && Enabled(cfg, s, step)
    ensures InOrder(cfg, Apply(cfg, s, step))
  {
    match step
    case Issue => IssueKeepsOrder(cfg, s);
    case Start(k) =>
    case FinishOk(k, outputLen, text) => FinishKeepsOrder(cfg, s, k, outputLen, text);
    case FinishFail(k) =>
    case GiveUp =>
  }
}
