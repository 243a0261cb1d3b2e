/** What is sent to the server, in raw token ids: read off the steps of the run and the samples, not off the histories
    the load generator keeps. */
module MultiTurnPayload {
  import opened MultiTurn
  import opened MultiTurnInvariant
  import opened MultiTurnBarrier
  import opened MultiTurnHistory
  import opened MultiTurnTheorems

  /** A request that was answered: whose it was, and the token ids of the answer. */
  datatype Success = Success(client: ClientId, output: seq<Token>)

  /** The successful `Complete` steps of a run, in order. */
  ghost function Successes(cfg: Config, steps: seq<Step>): seq<Success>
    requires WellFormed(cfg) && Run(cfg, steps).Reached?
  {
    if steps == [] then [] else
    var before, step := steps[..|steps| - 1], steps[|steps| - 1];
    Successes(cfg, before) +
    if step.Complete? && step.success
      then [Success(Run(cfg, before).state.inflight[step.k].client, step.output)] else []
  }

  /** The answers client `c` got. */
  function AnswersTo(all: seq<Success>, c: ClientId): seq<seq<Token>> {
    if all == [] then [] else
    var last := all[|all| - 1];
    AnswersTo(all[..|all| - 1], c) + if last.client == c then [last.output] else []
  }

  /** Whether the last of the answers is followed by another turn of its client. */
  predicate AsksAgain(cfg: Config, all: seq<Success>)
    requires all != []
  {
    var c := all[|all| - 1].client;
    c < Clients(cfg) && |AnswersTo(all, c)| < cfg.totalRounds[c]
  }

  /** How many sub-questions have been drawn. */
  function Draws(cfg: Config, all: seq<Success>): nat {
    if all == [] then 0 else Draws(cfg, all[..|all| - 1]) + if AsksAgain(cfg, all) then 1 else 0
  }

  /** The sub-questions drawn for client `c`; each draw takes the last of the samples that are left. */
  function QuestionsTo(cfg: Config, all: seq<Success>, c: ClientId): seq<seq<Token>>
    requires Draws(cfg, all) <= |cfg.subQuestions|
  {
    if all == [] then [] else
    var earlier := all[..|all| - 1];
    QuestionsTo(cfg, earlier, c) +
    if all[|all| - 1].client == c && AsksAgain(cfg, all)
      then [cfg.subQuestions[|cfg.subQuestions| - 1 - Draws(cfg, earlier)].prompt] else []
  }

  /** The ids of the first prompt, then answer and question in turn; the last answer may be without a question. */
  function TokenRun(first: seq<Token>, answers: seq<seq<Token>>, questions: seq<seq<Token>>): seq<Token>
    requires |questions| <= |answers| <= |questions| + 1
    decreases |answers|
  {
    if answers == [] then first else
    var n := |answers| - 1;
    TokenRun(first, answers[..n], questions[..n]) + answers[n] + if n < |questions| then questions[n] else []
  }

  /** The same as chat messages: the user asks, and the assistant's answer is left out when it is empty. */
  function MessageRun(first: seq<Token>, answers: seq<seq<Token>>, questions: seq<seq<Token>>): seq<Item>
    requires |questions| <= |answers| <= |questions| + 1
    decreases |answers|
  {
    if answers == [] then [UserMessage(first)] else
    var n := |answers| - 1;
    MessageRun(first, answers[..n], questions[..n])
    + (if answers[n] == [] then [] else [AssistantMessage(answers[n])])
    + if n < |questions| then [UserMessage(questions[n])] else []
  }

  /** The items are exactly these token ids. */
  ghost predicate Spells(items: seq<Item>, ids: seq<Token>) {
    |items| == |ids| && forall i :: 0 <= i < |ids| ==> items[i] == TokenItem(ids[i])
  }

  /** The items are the conversation, in the form the interface wants it. */
  ghost predicate Tells(format: ApiFormat, items: seq<Item>, first: seq<Token>,
                        answers: seq<seq<Token>>, questions: seq<seq<Token>>)
    requires |questions| <= |answers| <= |questions| + 1
  {
    match format
    case Native => Spells(items, TokenRun(first, answers, questions))
    case OpenAI => items == MessageRun(first, answers, questions)
  }

  // ---- the metrics log and the response queue hold the successes ------------------------------------

  function Logged(log: seq<Metric>): (l: seq<Success>)
    ensures |l| == |log|
  {
    seq(|log|, i requires 0 <= i < |log| => Success(log[i].client, log[i].output))
  }

  function Waiting(responses: seq<Response>): seq<Success> {
    if responses == [] then [] else
    var r := responses[0];
    (if r.success then [Success(r.client, r.output)] else []) + Waiting(responses[1..])
  }

  lemma {:induction false} WaitingPush(responses: seq<Response>, r: Response)
    ensures Waiting(responses + [r]) == Waiting(responses) + if r.success then [Success(r.client, r.output)] else []
  {
    if responses == [] {
      assert [r][1..] == [];
    } else {
      WaitingPush(responses[1..], r);
      assert (responses + [r])[1..] == responses[1..] + [r];
    }
  }

  lemma StepKeepsSuccesses(cfg: Config, s: State, step: Step)
    requires Shaped(cfg, s) && Enabled(cfg, s, step)
    ensures var s' := Next(cfg, s, step);
      Logged(s'.metrics) + Waiting(s'.responses) == Logged(s.metrics) + Waiting(s.responses) +
      if step.Complete? && step.success then [Success(s.inflight[step.k].client, step.output)] else []
  {
    hide OutputItems, PromptItems, ClientsPerRound;
    var s' := Next(cfg, s, step);
    match step
    case Complete(k, success, output, _) =>
      WaitingPush(s.responses, Response(s.inflight[k].client, success, output));
    case Handle =>
      if s.responses[0].success {
        assert s'.responses == s.responses[1..];
        assert Logged(s'.metrics) == Logged(s.metrics) + [Success(s.responses[0].client, s.responses[0].output)];
      }
    case _ =>
  }

  /** The metrics log holds the answers handled so far and the queue the rest, in the order they came. */
  lemma {:induction false} LogFollowsSteps(cfg: Config, steps: seq<Step>)
    requires WellFormed(cfg) && Run(cfg, steps).Reached?
    ensures var s := Run(cfg, steps).state;
      Successes(cfg, steps) == Logged(s.metrics) + Waiting(s.responses)
  {
    if steps != [] {
      var before := steps[..|steps| - 1];
      LogFollowsSteps(cfg, before);
      StepKeepsSuccesses(cfg, Run(cfg, before).state, steps[|steps| - 1]);
    }
  }

  // ---- the dialogue in raw ids ----------------------------------------------------------------------

  lemma {:induction false} SameCounts(cfg: Config, log: seq<Metric>, c: ClientId)
    requires Numbered(cfg, log)
    ensures |AnswersTo(Logged(log), c)| == TurnsOf(log, c)
  {
    if log != [] {
      var n := |log| - 1;
      NumberedPrefix(cfg, log);
      SameCounts(cfg, log[..n], c);
      assert Logged(log)[..n] == Logged(log[..n]);
    }
  }

  lemma NumberedPrefix(cfg: Config, log: seq<Metric>)
    requires Numbered(cfg, log) && log != []
    ensures Numbered(cfg, log[..|log| - 1])
  {
    var earlier := log[..|log| - 1];
    forall i | 0 <= i < |earlier|
      ensures earlier[i].client < Clients(cfg) && earlier[i].turn == TurnsOf(earlier[..i], earlier[i].client)
    {
      assert earlier[..i] == log[..i];
    }
  }

  lemma AsksAgainIff(cfg: Config, log: seq<Metric>)
    requires Numbered(cfg, log) && log != []
    ensures AsksAgain(cfg, Logged(log)) <==> Continues(cfg, log[|log| - 1])
  {
    var n := |log| - 1;
    SameCounts(cfg, log, log[n].client);
    assert TurnsOf(log, log[n].client) == TurnsOf(log[..n], log[n].client) + 1;
  }

  lemma {:induction false} SameDraws(cfg: Config, log: seq<Metric>)
    requires Numbered(cfg, log)
    ensures Draws(cfg, Logged(log)) == Asked(cfg, log)
  {
    hide AsksAgain, Continues, Numbered;
    if log != [] {
      var n := |log| - 1;
      NumberedPrefix(cfg, log);
      SameDraws(cfg, log[..n]);
      AsksAgainIff(cfg, log);
      assert Logged(log)[..n] == Logged(log[..n]);
    }
  }

  lemma AnswersGrow(all: seq<Success>, x: Success, c: ClientId)
    ensures AnswersTo(all + [x], c) == AnswersTo(all, c) + if x.client == c then [x.output] else []
  {
    assert (all + [x])[..|all|] == all;
  }

  lemma QuestionsGrow(cfg: Config, all: seq<Success>, x: Success, c: ClientId)
    requires Draws(cfg, all + [x]) <= |cfg.subQuestions|
    ensures Draws(cfg, all + [x]) == Draws(cfg, all) + if AsksAgain(cfg, all + [x]) then 1 else 0
    ensures QuestionsTo(cfg, all + [x], c) == QuestionsTo(cfg, all, c) +
      if x.client == c && AsksAgain(cfg, all + [x])
        then [cfg.subQuestions[|cfg.subQuestions| - 1 - Draws(cfg, all)].prompt] else []
  {
    hide AsksAgain;
    assert (all + [x])[..|all|] == all;
  }

  /** One more answer, with or without a question, on both sides. */
  lemma TellsMore(format: ApiFormat, items: seq<Item>, first: seq<Token>, answers: seq<seq<Token>>,
                  questions: seq<seq<Token>>, answer: seq<Token>, question: seq<Token>)
    requires |answers| == |questions| && Tells(format, items, first, answers, questions)
    ensures Tells(format, items + OutputItems(format, answer), first, answers + [answer], questions)
    ensures Tells(format, items + OutputItems(format, answer) + PromptItems(format, question), first,
                  answers + [answer], questions + [question])
  {
    assert (answers + [answer])[..|answers|] == answers && questions[..|answers|] == questions;
    assert (questions + [question])[..|answers|] == questions;
  }

  /** A dialogue in raw ids, given as many answers as turns handled and a question to each but the last turn's. */
  ghost predicate Retold(cfg: Config, log: seq<Metric>, c: ClientId)
    requires c < Clients(cfg) == |cfg.firstPrompts| && Asked(cfg, log) <= |cfg.subQuestions|
  {
    && Draws(cfg, Logged(log)) == Asked(cfg, log)
    && var answers, questions := AnswersTo(Logged(log), c), QuestionsTo(cfg, Logged(log), c);
       && |answers| == TurnsOf(log, c) <= |questions| + 1
       && |questions| == (if TurnsOf(log, c) < cfg.totalRounds[c] then |answers| else |answers| - 1)
       && Tells(cfg.format, Flatten(Dialogue(cfg, log, c)), cfg.firstPrompts[c].prompt, answers, questions)
  }

  lemma RetoldAtFirst(cfg: Config, c: ClientId)
    requires c < Clients(cfg) == |cfg.firstPrompts| && cfg.totalRounds[c] > 0
    ensures Retold(cfg, [], c)
  {
    var p := Prompt(PromptItems(cfg.format, cfg.firstPrompts[c].prompt));
    FlattenPush([], p);
    assert [] + [p] == [p] && Logged([]) == [];
  }

  lemma RetoldGrows(cfg: Config, log: seq<Metric>, m: Metric, c: ClientId)
    requires c < Clients(cfg) == |cfg.firstPrompts| && Asked(cfg, log + [m]) <= |cfg.subQuestions|
    requires Numbered(cfg, log + [m]) && TurnsOf(log + [m], c) <= cfg.totalRounds[c]
    requires Asked(cfg, log) <= |cfg.subQuestions| && Retold(cfg, log, c)
    ensures Retold(cfg, log + [m], c)
  {
    hide Tells, Dialogue, Flatten, OutputItems, PromptItems, AsksAgain, Draws, QuestionsTo, AnswersTo, Asked, Numbered;
    hide TurnsOf;
    var x := Success(m.client, m.output);
    assert Logged(log + [m]) == Logged(log) + [x];
    SameDraws(cfg, log + [m]);
    AsksAgainIff(cfg, log + [m]);
    LogGrows(cfg, log, m);
    SameCounts(cfg, log + [m], c);
    DialogueGrows(cfg, log, m, c);
    AnswersGrow(Logged(log), x, c);
    QuestionsGrow(cfg, Logged(log), x, c);
    var answers, questions := AnswersTo(Logged(log), c), QuestionsTo(cfg, Logged(log), c);
    if m.client == c {
      LastTurn(cfg, log, m);
      var items, first := Flatten(Dialogue(cfg, log, c)), cfg.firstPrompts[c].prompt;
      if Continues(cfg, m) {
        var question := cfg.subQuestions[|cfg.subQuestions| - 1 - Asked(cfg, log)].prompt;
        TellsMore(cfg.format, items, first, answers, questions, m.output, question);
      } else {
        TellsMore(cfg.format, items, first, answers, questions, m.output, []);
        assert questions + [] == questions;
      }
    } else {
      assert answers + [] == answers && questions + [] == questions;
    }
  }

  lemma LastTurn(cfg: Config, log: seq<Metric>, m: Metric)
    requires Numbered(cfg, log + [m])
    ensures m.client < Clients(cfg) && m.turn == TurnsOf(log, m.client)
  {
    assert (log + [m])[|log|] == m && (log + [m])[..|log|] == log;
  }

  lemma {:induction false} DialogueRetold(cfg: Config, log: seq<Metric>, c: ClientId)
    requires c < Clients(cfg) == |cfg.firstPrompts| && Asked(cfg, log) <= |cfg.subQuestions|
    requires Numbered(cfg, log) && TurnsOf(log, c) <= cfg.totalRounds[c] && cfg.totalRounds[c] > 0
    ensures Retold(cfg, log, c)
  {
    hide Retold, Numbered;
    if log == [] {
      RetoldAtFirst(cfg, c);
    } else {
      var n := |log| - 1;
      assert log == log[..n] + [log[n]];
      NumberedPrefix(cfg, log);
      DialogueRetold(cfg, log[..n], c);
      RetoldGrows(cfg, log[..n], log[n], c);
    }
  }

  // ---- what is sent -------------------------------------------------------------------------------------

  /** The conversation of client `c` after the answers `handled`, as it is to be sent. */
  ghost predicate Conversation(cfg: Config, handled: seq<Success>, c: ClientId, items: seq<Item>) {
    && c < |cfg.firstPrompts| && Draws(cfg, handled) <= |cfg.subQuestions|
    && var answers, questions := AnswersTo(handled, c), QuestionsTo(cfg, handled, c);
       && |questions| <= |answers| <= |questions| + 1
       && Tells(cfg.format, items, cfg.firstPrompts[c].prompt, answers, questions)
  }

  /** In every run a client's history is its first prompt followed by the outputs of its successful `Complete` steps
      handled so far, each with the sub-question drawn after it. */
  lemma HistoryInRawIds(cfg: Config, steps: seq<Step>, c: ClientId)
    requires WellFormed(cfg) && Run(cfg, steps).Reached? && c < Clients(cfg)
    ensures var s := Run(cfg, steps).state;
      && |s.metrics| <= |Successes(cfg, steps)|
      && Conversation(cfg, Successes(cfg, steps)[..|s.metrics|], c, s.history[c])
      && |AnswersTo(Successes(cfg, steps)[..|s.metrics|], c)| == s.round[c]
  {
    var s := Run(cfg, steps).state;
    RunInvariant(cfg, steps);
    LogFollowsSteps(cfg, steps);
    assert Successes(cfg, steps)[..|s.metrics|] == Logged(s.metrics);
    DialogueRetold(cfg, s.metrics, c);
  }

  lemma {:induction false} NoneWaiting(responses: seq<Response>, c: ClientId)
    requires forall r :: r in responses ==> r.client != c
    ensures forall x :: x in Waiting(responses) ==> x.client != c
  {
    if responses != [] {
      NoneWaiting(responses[1..], c);
      assert responses[0] in responses;
    }
  }

  lemma {:induction false} AnswersOfOthers(all: seq<Success>, more: seq<Success>, c: ClientId)
    requires forall x :: x in more ==> x.client != c
    ensures AnswersTo(all + more, c) == AnswersTo(all, c)
  {
    if more == [] {
      assert all + more == all;
    } else {
      var n := |more| - 1;
      AnswersOfOthers(all, more[..n], c);
      assert all + more == all + more[..n] + [more[n]] && more[n] in more;
      AnswersGrow(all + more[..n], more[n], c);
    }
  }

  /** The client of an unanswered request has no response in the queue. */
  lemma NoResponseWaiting(cfg: Config, s: State, q: Request)
    requires Ownership(cfg, s) && (q in s.ready || q in s.inflight || q in s.parked)
    ensures forall r :: r in s.responses ==> r.client != q.client
  {
    forall r | r in s.responses ensures r.client != q.client {
      QueuedIsLive(cfg, s, q);
      OutstandingIsLive(cfg, s, q.client);
      var i :| 0 <= i < |s.responses| && s.responses[i] == r;
      assert Responders(s.responses)[i] == r.client;
    }
  }

  /** Every request still to be answered carries its client's first prompt, then in turn the raw output of each of the
      client's successful `Complete` steps, none left out, and the sub-question drawn after it. */
  lemma PayloadInRawIds(cfg: Config, steps: seq<Step>, q: Request)
    requires WellFormed(cfg) && Run(cfg, steps).Reached?
    requires var s := Run(cfg, steps).state; q in s.ready || q in s.inflight || q in s.parked
    ensures var s := Run(cfg, steps).state;
      && q.client < |s.history| && |s.metrics| <= |Successes(cfg, steps)|
      && var handled := Successes(cfg, steps)[..|s.metrics|];
         && Conversation(cfg, handled, q.client, Payload(s, q))
         && AnswersTo(handled, q.client) == AnswersTo(Successes(cfg, steps), q.client)
         && |QuestionsTo(cfg, handled, q.client)| == |AnswersTo(handled, q.client)| == s.round[q.client]
  {
    var s := Run(cfg, steps).state;
    RunInvariant(cfg, steps);
    LogFollowsSteps(cfg, steps);
    assert Successes(cfg, steps)[..|s.metrics|] == Logged(s.metrics);
    QueuedIsLive(cfg, s, q);
    DialogueRetold(cfg, s.metrics, q.client);
    NoResponseWaiting(cfg, s, q);
    NoneWaiting(s.responses, q.client);
    AnswersOfOthers(Logged(s.metrics), Waiting(s.responses), q.client);
  }
}
