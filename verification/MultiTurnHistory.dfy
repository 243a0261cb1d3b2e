/** What a request carries: the client's dialogue so far, replayed from the metrics log. */
module MultiTurnHistory {
  import opened MultiTurn
  import opened MultiTurnInvariant
  import opened MultiTurnLedger
  import opened MultiTurnBarrier

  datatype Segment = Prompt(items: seq<Item>) | Answer(items: seq<Item>) | Question(items: seq<Item>)

  /** Whether the handled turn `m` was followed by another one. */
  predicate Continues(cfg: Config, m: Metric) {
    m.client < Clients(cfg) && m.turn + 1 < cfg.totalRounds[m.client]
  }

  /** How many sub-questions the turns of the log have drawn. */
  function Asked(cfg: Config, log: seq<Metric>): nat {
    if log == [] then 0
    else Asked(cfg, log[..|log| - 1]) + if Continues(cfg, log[|log| - 1]) then 1 else 0
  }

  /** How many turns of client `c` the log holds. */
  function TurnsOf(log: seq<Metric>, c: ClientId): nat {
    if log == [] then 0
    else TurnsOf(log[..|log| - 1], c) + if log[|log| - 1].client == c then 1 else 0
  }

  /** The dialogue of client `c` after the turns in the log: its first prompt, then for each of
      its turns the answer and, unless it was the last, the sub-question drawn then. Questions
      are drawn from the end of the sampled list. */
  function Dialogue(cfg: Config, log: seq<Metric>, c: ClientId): (d: seq<Segment>)
    requires c < |cfg.firstPrompts| && Asked(cfg, log) <= |cfg.subQuestions|
  {
    if log == [] then [Prompt(PromptItems(cfg.format, cfg.firstPrompts[c].prompt))] else
    var m := log[|log| - 1];
    var earlier := log[..|log| - 1];
    var sofar := Dialogue(cfg, earlier, c);
    if m.client != c then sofar else
    var answered := sofar + [Answer(OutputItems(cfg.format, m.output))];
    if !Continues(cfg, m) then answered else
    var question := cfg.subQuestions[|cfg.subQuestions| - 1 - Asked(cfg, earlier)];
    answered + [Question(PromptItems(cfg.format, question.prompt))]
  }

  function Flatten(d: seq<Segment>): seq<Item> {
    if d == [] then [] else Flatten(d[..|d| - 1]) + d[|d| - 1].items
  }

  /** The log numbers the turns of each client 0, 1, 2, ... */
  ghost predicate Numbered(cfg: Config, log: seq<Metric>) {
    forall i :: 0 <= i < |log| ==> log[i].client < Clients(cfg) && log[i].turn == TurnsOf(log[..i], log[i].client)
  }

  /** The output length client `c`'s current request asks for: that of its first prompt, or of the sub-question drawn
      last. */
  function Requested(cfg: Config, log: seq<Metric>, c: ClientId): nat
    requires c < |cfg.firstPrompts| && Asked(cfg, log) <= |cfg.subQuestions|
  {
    if log == [] then cfg.firstPrompts[c].outputLen else
    var m := log[|log| - 1];
    var earlier := log[..|log| - 1];
    if m.client == c && Continues(cfg, m) then cfg.subQuestions[|cfg.subQuestions| - 1 - Asked(cfg, earlier)].outputLen
    else Requested(cfg, earlier, c)
  }

  /** The requests of a queue carry no stale copy of a history and ask for the right output length. */
  ghost predicate Bodies(cfg: Config, s: State, q: seq<Request>)
    requires Asked(cfg, s.metrics) <= |cfg.subQuestions|
  {
    forall x :: x in q ==>
      && x.client < |s.history| && x.client < |cfg.firstPrompts|
      && (x.body.Own? ==> x.body.items == s.history[x.client])
      && x.outputLen == Requested(cfg, s.metrics, x.client)
  }

  /** The pool is what the turns of the log have left of the sample. */
  ghost predicate Left(cfg: Config, log: seq<Metric>, pool: seq<Sample>) {
    Asked(cfg, log) <= |cfg.subQuestions| && pool == cfg.subQuestions[..|cfg.subQuestions| - Asked(cfg, log)]
  }

  ghost predicate Histories(cfg: Config, s: State) {
    && Shaped(cfg, s) && |cfg.firstPrompts| == Clients(cfg)
    && Left(cfg, s.metrics, s.pool)
    && Numbered(cfg, s.metrics)
    && (forall c :: 0 <= c < Clients(cfg) ==> TurnsOf(s.metrics, c) == s.round[c])
    && (forall c :: 0 <= c < Clients(cfg) ==> s.history[c] == Flatten(Dialogue(cfg, s.metrics, c)))
    && Bodies(cfg, s, s.ready) && Bodies(cfg, s, s.inflight) && Bodies(cfg, s, s.parked)
  }

  /** What is actually sent for a request, reading the shared list if the request holds it. */
  function Payload(s: State, q: Request): seq<Item>
    requires q.client < |s.history|
  {
    if q.body.Own? then q.body.items else s.history[q.client]
  }

  lemma FlattenPush(d: seq<Segment>, x: Segment)
    ensures Flatten(d + [x]) == Flatten(d) + x.items
  {
    assert (d + [x])[..|d|] == d;
  }

  lemma InitialHistories(cfg: Config)
    requires WellFormed(cfg)
    ensures Histories(cfg, Initial(cfg))
  {
    var s := Initial(cfg);
    assert s.pool == cfg.subQuestions[..|cfg.subQuestions|];
    forall c | 0 <= c < Clients(cfg)
      ensures s.history[c] == Flatten(Dialogue(cfg, [], c))
    {
      var p := Prompt(PromptItems(cfg.format, cfg.firstPrompts[c].prompt));
      FlattenPush([], p);
      assert [] + [p] == [p];
    }
  }

  /** The log after one more handled turn of client `c`. */
  lemma LogGrows(cfg: Config, log: seq<Metric>, m: Metric)
    ensures Asked(cfg, log + [m]) == Asked(cfg, log) + if Continues(cfg, m) then 1 else 0
    ensures forall c :: TurnsOf(log + [m], c) == TurnsOf(log, c) + if m.client == c then 1 else 0
  {
    assert (log + [m])[..|log|] == log;
  }

  lemma NumberedGrows(cfg: Config, log: seq<Metric>, m: Metric)
    requires Numbered(cfg, log) && m.client < Clients(cfg) && m.turn == TurnsOf(log, m.client)
    ensures Numbered(cfg, log + [m])
  {
    forall i | 0 <= i < |log + [m]|
      ensures (log + [m])[i].client < Clients(cfg)
      ensures (log + [m])[i].turn == TurnsOf((log + [m])[..i], (log + [m])[i].client)
    {
      assert (log + [m])[..i] == log[..i];
      if i == |log| { assert log[..i] == log; }
    }
  }

  lemma DialogueGrows(cfg: Config, log: seq<Metric>, m: Metric, c: ClientId)
    requires c < |cfg.firstPrompts| && Asked(cfg, log + [m]) <= |cfg.subQuestions|
    ensures Asked(cfg, log) <= |cfg.subQuestions|
    ensures m.client != c ==> Flatten(Dialogue(cfg, log + [m], c)) == Flatten(Dialogue(cfg, log, c))
    ensures m.client == c && !Continues(cfg, m) ==>
      Flatten(Dialogue(cfg, log + [m], c)) == Flatten(Dialogue(cfg, log, c)) + OutputItems(cfg.format, m.output)
    ensures m.client == c && Continues(cfg, m) ==>
      && Asked(cfg, log) < |cfg.subQuestions|
      && Flatten(Dialogue(cfg, log + [m], c)) == Flatten(Dialogue(cfg, log, c)) + OutputItems(cfg.format, m.output)
         + PromptItems(cfg.format, cfg.subQuestions[|cfg.subQuestions| - 1 - Asked(cfg, log)].prompt)
  {
    hide OutputItems, PromptItems, Continues, Flatten, TurnsOf;
    LogGrows(cfg, log, m);
    assert (log + [m])[..|log|] == log;
    var d := Dialogue(cfg, log, c);
    var answer := Answer(OutputItems(cfg.format, m.output));
    FlattenPush(d, answer);
    if Continues(cfg, m) {
      var question := cfg.subQuestions[|cfg.subQuestions| - 1 - Asked(cfg, log)].prompt;
      FlattenPush(d + [answer], Question(PromptItems(cfg.format, question)));
    }
  }

  lemma DrawKeepsLeft(cfg: Config, log: seq<Metric>, m: Metric, pool: seq<Sample>)
    requires Left(cfg, log, pool) && (Continues(cfg, m) ==> pool != [])
    ensures Left(cfg, log + [m], if Continues(cfg, m) then pool[..|pool| - 1] else pool)
    ensures Continues(cfg, m) ==> pool[|pool| - 1] == cfg.subQuestions[|cfg.subQuestions| - 1 - Asked(cfg, log)]
  {
    hide Asked;
    LogGrows(cfg, log, m);
  }

  lemma TurnIsCounted(log: seq<Metric>, m: Metric, round: seq<nat>, d: ClientId)
    requires m.client < |round| && d < |round| && TurnsOf(log, d) == round[d]
    ensures TurnsOf(log + [m], d) == round[m.client := round[m.client] + 1][d]
  {
    assert (log + [m])[..|log|] == log;
  }

  /** One more handled turn extends the history of its client as it extends the dialogue, and no other. */
  lemma HistoryFollows(cfg: Config, log: seq<Metric>, m: Metric, pool: seq<Sample>, h: seq<Item>, d: ClientId)
    requires d < |cfg.firstPrompts| && Left(cfg, log, pool) && (Continues(cfg, m) ==> pool != [])
    requires h == Flatten(Dialogue(cfg, log, d))
    ensures Asked(cfg, log + [m]) <= |cfg.subQuestions|
    ensures Flatten(Dialogue(cfg, log + [m], d)) ==
      var answered := h + OutputItems(cfg.format, m.output);
      if m.client != d then h
      else if Continues(cfg, m) then answered + PromptItems(cfg.format, pool[|pool| - 1].prompt)
      else answered
  {
    hide Flatten, Dialogue, OutputItems, PromptItems;
    DrawKeepsLeft(cfg, log, m, pool);
    DialogueGrows(cfg, log, m, d);
  }

  lemma TurnKeepsHistory(cfg: Config, s: State, s': State, c: ClientId, m: Metric, d: ClientId)
    requires Shaped(cfg, s) && s.responses != [] && c < Clients(cfg) && TurnTaken(cfg, s, s', c)
    requires m == Metric(c, s.round[c], s.responses[0].output) && d < Clients(cfg) == |cfg.firstPrompts|
    requires Left(cfg, s.metrics, s.pool) && TurnsOf(s.metrics, d) == s.round[d]
    requires s.history[d] == Flatten(Dialogue(cfg, s.metrics, d))
    ensures Asked(cfg, s'.metrics) <= |cfg.subQuestions|
    ensures TurnsOf(s'.metrics, d) == s'.round[d] && s'.history[d] == Flatten(Dialogue(cfg, s'.metrics, d))
  {
    hide OutputItems, PromptItems, Dialogue, Flatten, TurnsOf, Left;
    TurnIsCounted(s.metrics, m, s.round, d);
    HistoryFollows(cfg, s.metrics, m, s.pool, s.history[d], d);
    assert Continues(cfg, m) <==> HasMore(cfg, s, c);
    var answered := s.history[c] + OutputItems(cfg.format, m.output);
    assert answered + [] == answered;
  }

  lemma TurnKeepsLog(cfg: Config, s: State, s': State, c: ClientId, m: Metric)
    requires Shaped(cfg, s) && s.responses != [] && c < Clients(cfg) && TurnTaken(cfg, s, s', c)
    requires m == Metric(c, s.round[c], s.responses[0].output) && Left(cfg, s.metrics, s.pool)
    requires Numbered(cfg, s.metrics) && TurnsOf(s.metrics, c) == s.round[c]
    ensures Left(cfg, s'.metrics, s'.pool) && Numbered(cfg, s'.metrics)
  {
    hide OutputItems, PromptItems, TurnsOf, Left, Numbered;
    assert Continues(cfg, m) <==> HasMore(cfg, s, c);
    DrawKeepsLeft(cfg, s.metrics, m, s.pool);
    NumberedGrows(cfg, s.metrics, m);
  }

  lemma SuccessKeepsHistories(cfg: Config, s: State, s': State, c: ClientId)
    requires Ownership(cfg, s) && Histories(cfg, s) && s.responses != []
    requires c == s.responses[0].client && c < Clients(cfg) && Succeeded(cfg, s, s', c) && Shaped(cfg, s')
    ensures Histories(cfg, s')
  {
    var m := Metric(c, s.round[c], s.responses[0].output);
    SuccessKeepsBodies(cfg, s, s', c, m);
    hide Ownership, Shaped, Bodies, Dialogue, Flatten, Numbered, TurnsOf, TurnTaken, RequestMoved, TurnCounted;
    TurnKeepsLog(cfg, s, s', c, m);
    forall d | 0 <= d < Clients(cfg)
      ensures TurnsOf(s'.metrics, d) == s'.round[d] && s'.history[d] == Flatten(Dialogue(cfg, s'.metrics, d))
    {
      TurnKeepsHistory(cfg, s, s', c, m, d);
    }
  }

  lemma RequestedGrows(cfg: Config, log: seq<Metric>, m: Metric, c: ClientId)
    requires c < |cfg.firstPrompts| && Asked(cfg, log + [m]) <= |cfg.subQuestions|
    ensures Asked(cfg, log) <= |cfg.subQuestions|
    ensures m.client != c ==> Requested(cfg, log + [m], c) == Requested(cfg, log, c)
    ensures m.client == c && Continues(cfg, m) ==>
      && Asked(cfg, log) < |cfg.subQuestions|
      && Requested(cfg, log + [m], c) == cfg.subQuestions[|cfg.subQuestions| - 1 - Asked(cfg, log)].outputLen
  {
    LogGrows(cfg, log, m);
    assert (log + [m])[..|log|] == log;
  }

  /** The requests of the other clients are as right after a turn of client `c` as before it. */
  lemma OtherBodiesStay(cfg: Config, s: State, s': State, m: Metric, q: seq<Request>)
    requires Asked(cfg, s.metrics + [m]) <= |cfg.subQuestions| && s'.metrics == s.metrics + [m]
    requires Asked(cfg, s.metrics) <= |cfg.subQuestions| && Bodies(cfg, s, q)
    requires |s'.history| == |s.history|
    requires forall d :: 0 <= d < |s.history| && d != m.client ==> s'.history[d] == s.history[d]
    requires forall x :: x in q ==> x.client != m.client
    ensures Bodies(cfg, s', q)
  {
    hide Requested;
    forall x | x in q ensures Requested(cfg, s'.metrics, x.client) == Requested(cfg, s.metrics, x.client) {
      RequestedGrows(cfg, s.metrics, m, x.client);
    }
  }

  lemma BodiesPush(cfg: Config, s: State, q: seq<Request>, x: Request)
    requires Asked(cfg, s.metrics) <= |cfg.subQuestions| && Bodies(cfg, s, q)
    requires x.client < |s.history| && x.client < |cfg.firstPrompts| && x.body.SharedHistory?
    requires x.outputLen == Requested(cfg, s.metrics, x.client)
    ensures Bodies(cfg, s, q + [x])
  {
    hide Requested;
  }

  lemma SuccessKeepsBodies(cfg: Config, s: State, s': State, c: ClientId, m: Metric)
    requires Ownership(cfg, s) && Histories(cfg, s) && s.responses != []
    requires c == s.responses[0].client && c < Clients(cfg) && Succeeded(cfg, s, s', c)
    requires m == Metric(c, s.round[c], s.responses[0].output)
    ensures Asked(cfg, s'.metrics) <= |cfg.subQuestions|
    ensures Bodies(cfg, s', s'.ready) && Bodies(cfg, s', s'.inflight) && Bodies(cfg, s', s'.parked)
  {
    ResponderOwnsNoOther(cfg, s);
    hide Ownership, Shaped, Bodies, Numbered, Dialogue, Requested;
    hide OutputItems, PromptItems, TurnsOf, Flatten, TurnCounted;
    assert Continues(cfg, m) <==> HasMore(cfg, s, c);
    DrawKeepsLeft(cfg, s.metrics, m, s.pool);
    OtherBodiesStay(cfg, s, s', m, s.ready);
    OtherBodiesStay(cfg, s, s', m, s.inflight);
    OtherBodiesStay(cfg, s, s', m, s.parked);
    hide TurnTaken;
    if HasMore(cfg, s, c) {
      RequestedGrows(cfg, s.metrics, m, c);
      var q := Request(c, SharedHistory, s.pool[|s.pool| - 1].outputLen);
      BodiesPush(cfg, s', s.ready, q);
      BodiesPush(cfg, s', s.parked, q);
    } else {
      assert s.ready + [] == s.ready && s.parked + [] == s.parked;
    }
  }

  lemma StepKeepsHistories(cfg: Config, s: State, step: Step)
    requires WellFormed(cfg) && Ownership(cfg, s) && Pool(cfg, s) && Histories(cfg, s) && Enabled(cfg, s, step)
    ensures Histories(cfg, Next(cfg, s, step))
  {
    match step
    case Send(k) => assert s.ready[k] in s.ready;
    case Complete(k, _, _, _) =>
    case Handle =>
      if s.responses[0].success {
        PoolSufficesHere(cfg, s);
        SuccessFields(cfg, s, s.responses[0].client);
        SuccessKeepsHistories(cfg, s, Next(cfg, s, step), s.responses[0].client);
      }
    case Release =>
      if s.parked != [] { assert s.parked[0] in s.parked; }
  }

  /** The dialogue alternates: prompt, answer, question, answer, ..., and a client with `k` turns handled and
      more to come has exactly `2k + 1` segments. */
  lemma {:induction false} DialogueAlternates(cfg: Config, log: seq<Metric>, c: ClientId)
    requires c < Clients(cfg) == |cfg.firstPrompts| && Asked(cfg, log) <= |cfg.subQuestions|
    requires Numbered(cfg, log) && TurnsOf(log, c) <= cfg.totalRounds[c] && cfg.totalRounds[c] > 0
    ensures var d := Dialogue(cfg, log, c); var k := TurnsOf(log, c);
      && |d| == (if k < cfg.totalRounds[c] then 2 * k + 1 else 2 * k)
      && forall i :: 0 <= i < |d| ==>
           if i == 0 then d[i].Prompt? else if i % 2 == 1 then d[i].Answer? else d[i].Question?
  {
    if log != [] {
      var n := |log| - 1;
      var earlier := log[..n];
      forall i | 0 <= i < n
        ensures earlier[i].client < Clients(cfg) && earlier[i].turn == TurnsOf(earlier[..i], earlier[i].client)
      {
        assert earlier[..i] == log[..i];
      }
      DialogueAlternates(cfg, earlier, c);
    }
  }
}
