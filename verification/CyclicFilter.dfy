/** Filtering conversations by length, cycling through the data set until enough are collected. */
module CyclicFilter {

  import opened Prelude

  /** One question and answer of the data set, with the token counts of both. */
  datatype Exchange = Exchange(prompt: string, promptTokens: nat, completionTokens: nat)

  datatype Kept = Kept(prompt: string, promptLen: nat, outputLen: int)

  datatype Bounds = Bounds(minPrompt: Option<int>, minOutput: Option<int>,
                           maxPrompt: Option<int>, maxOutput: Option<int>,
                           fixedOutput: Option<int>)

  function OutputLen(b: Bounds, x: Exchange): int {
    if b.fixedOutput.None? then x.completionTokens else b.fixedOutput.value
  }

  predicate Pruned(b: Bounds, x: Exchange) {
    || (b.minPrompt.Some? && x.promptTokens < b.minPrompt.value)
    || (b.minOutput.Some? && OutputLen(b, x) < b.minOutput.value)
    || (b.maxPrompt.Some? && x.promptTokens > b.maxPrompt.value)
    || (b.maxOutput.Some? && OutputLen(b, x) > b.maxOutput.value)
  }

  function Filtered(b: Bounds, conv: seq<Exchange>): seq<Kept> {
    if conv == [] then [] else
    var x := conv[|conv| - 1];
    Filtered(b, conv[..|conv| - 1]) + if Pruned(b, x) then [] else [Kept(x.prompt, x.promptTokens, OutputLen(b, x))]
  }

  /** Of a conversation exactly the exchanges within all the bounds given are kept, in order, each with its prompt, its
      prompt's length, and the fixed output length or else its own. */
  lemma {:induction false} FilteredMeans(b: Bounds, conv: seq<Exchange>) returns (from: seq<nat>)
    ensures |from| == |Filtered(b, conv)|
    ensures forall j :: 0 <= j < |from| ==> from[j] < |conv|
    ensures forall i, j :: 0 <= i < j < |from| ==> from[i] < from[j]
    ensures forall i :: 0 <= i < |conv| ==>
      var x := conv[i]; var out := if b.fixedOutput.Some? then b.fixedOutput.value else x.completionTokens;
      i in from <==>
        && (b.minPrompt.Some? ==> b.minPrompt.value <= x.promptTokens)
        && (b.maxPrompt.Some? ==> x.promptTokens <= b.maxPrompt.value)
        && (b.minOutput.Some? ==> b.minOutput.value <= out)
        && (b.maxOutput.Some? ==> out <= b.maxOutput.value)
    ensures forall j :: 0 <= j < |from| ==>
      var x := conv[from[j]];
      Filtered(b, conv)[j] ==
        Kept(x.prompt, x.promptTokens, if b.fixedOutput.Some? then b.fixedOutput.value else x.completionTokens)
  {
    from := [];
    if conv != [] {
      var n := |conv| - 1;
      var front := FilteredMeans(b, conv[..n]);
      from := front + if Pruned(b, conv[n]) then [] else [n];
    }
  }

  /** The conversations that keep at least one exchange, filtered, in order. */
  function Qualifying(b: Bounds, data: seq<seq<Exchange>>): (q: seq<seq<Kept>>)
    ensures |q| <= |data| && forall i :: 0 <= i < |q| ==> q[i] != []
  {
    if data == [] then [] else
    var f := Filtered(b, data[|data| - 1]);
    Qualifying(b, data[..|data| - 1]) + if f == [] then [] else [f]
  }

  function PromptTokens(conv: seq<Kept>): int {
    if conv == [] then 0 else PromptTokens(conv[..|conv| - 1]) + conv[|conv| - 1].promptLen
  }

  function OutputTokens(conv: seq<Kept>): int {
    if conv == [] then 0 else OutputTokens(conv[..|conv| - 1]) + conv[|conv| - 1].outputLen
  }

  function AllPromptTokens(convs: seq<seq<Kept>>): int {
    if convs == [] then 0 else AllPromptTokens(convs[..|convs| - 1]) + PromptTokens(convs[|convs| - 1])
  }

  function AllOutputTokens(convs: seq<seq<Kept>>): int {
    if convs == [] then 0 else AllOutputTokens(convs[..|convs| - 1]) + OutputTokens(convs[|convs| - 1])
  }

  /** The innermost loop: one conversation. */
  method FilterOne(b: Bounds, conv: seq<Exchange>) returns (processed: seq<Kept>, inputTokens: int, outputTokens: int)
    ensures processed == Filtered(b, conv)
    ensures inputTokens == PromptTokens(processed) && outputTokens == OutputTokens(processed)
  {
    processed, inputTokens, outputTokens := [], 0, 0;
    for j := 0 to |conv|
      invariant processed == Filtered(b, conv[..j])
      invariant inputTokens == PromptTokens(processed) && outputTokens == OutputTokens(processed)
    {
      assert conv[..j + 1][..j] == conv[..j];
      var x := conv[j];
      if !Pruned(b, x) {
        inputTokens := inputTokens + x.promptTokens;
        outputTokens := outputTokens + OutputLen(b, x);
        var kept := Kept(x.prompt, x.promptTokens, OutputLen(b, x));
        assert (processed + [kept])[..|processed|] == processed;
        processed := processed + [kept];
      }
    }
    assert conv[..|conv|] == conv;
  }

  /** What has been collected, with the running token totals. */
  datatype Collected = Collected(convs: seq<seq<Kept>>, inputTokens: int, outputTokens: int)

  ghost predicate Totalled(c: Collected) {
    c.inputTokens == AllPromptTokens(c.convs) && c.outputTokens == AllOutputTokens(c.convs)
  }

  /** The collection after one pass over the data: as many qualifying conversations as are still wanted. */
  function AfterPass(b: Bounds, data: seq<seq<Exchange>>, convs: seq<seq<Kept>>, wanted: int): seq<seq<Kept>>
    requires |convs| <= wanted
  {
    var q := Qualifying(b, data);
    convs + q[..if |q| <= wanted - |convs| then |q| else wanted - |convs|]
  }

  lemma TotalsGrow(convs: seq<seq<Kept>>, conv: seq<Kept>)
    ensures AllPromptTokens(convs + [conv]) == AllPromptTokens(convs) + PromptTokens(conv)
    ensures AllOutputTokens(convs + [conv]) == AllOutputTokens(convs) + OutputTokens(conv)
  {
    assert (convs + [conv])[..|convs|] == convs;
  }

  method OnePass(b: Bounds, data: seq<seq<Exchange>>, c: Collected, wanted: int) returns (r: Collected)
    requires |c.convs| <= wanted && Totalled(c)
    ensures Totalled(r) && r.convs == AfterPass(b, data, c.convs, wanted)
  {
    hide Filtered, AllPromptTokens, AllOutputTokens, PromptTokens, OutputTokens;
    r := c;
    assert c.convs + [] == c.convs;
    for i := 0 to |data|
      invariant |r.convs| <= wanted && Totalled(r)
      invariant r.convs == AfterPass(b, data[..i], c.convs, wanted)
    {
      assert data[..i + 1][..i] == data[..i];
      if |r.convs| == wanted {
        StaysFull(b, data, i, c.convs, wanted);
        return;
      }
      var processed, inputTokens, outputTokens := FilterOne(b, data[i]);
      if processed != [] {
        TotalsGrow(r.convs, processed);
        r := Collected(r.convs + [processed], r.inputTokens + inputTokens, r.outputTokens + outputTokens);
      }
    }
    assert data[..|data|] == data;
  }

  lemma {:induction false} QualifyingPrefix(b: Bounds, data: seq<seq<Exchange>>, i: nat)
    requires i <= |data|
    ensures Qualifying(b, data[..i]) <= Qualifying(b, data)
    decreases |data| - i
  {
    if i == |data| {
      assert data[..i] == data;
    } else {
      QualifyingPrefix(b, data, i + 1);
      assert data[..i + 1][..i] == data[..i];
    }
  }

  lemma StaysFull(b: Bounds, data: seq<seq<Exchange>>, i: nat, convs: seq<seq<Kept>>, wanted: int)
    requires i <= |data| && |convs| <= wanted && |AfterPass(b, data[..i], convs, wanted)| == wanted
    ensures AfterPass(b, data, convs, wanted) == AfterPass(b, data[..i], convs, wanted)
  {
    QualifyingPrefix(b, data, i);
  }

  /** A pass that wants more adds nothing exactly when no conversation qualifies: then the outer loop never ends. */
  lemma StuckIff(b: Bounds, data: seq<seq<Exchange>>, convs: seq<seq<Kept>>, wanted: int)
    requires |convs| < wanted
    ensures AfterPass(b, data, convs, wanted) == convs <==> Qualifying(b, data) == []
  {
    var q := Qualifying(b, data);
    if q != [] {
      assert |AfterPass(b, data, convs, wanted)| > |convs|;
    }
  }

  /** Going round and round a list. */
  ghost predicate Cycles(q: seq<seq<Kept>>, convs: seq<seq<Kept>>)
    requires q != []
  {
    forall i :: 0 <= i < |convs| ==> convs[i] == q[i % |q|]
  }

  lemma RoundAgain(m: nat, k: nat, j: nat)
    requires j < k
    ensures (m * k + j) % k == j
  {
    var q := (m * k + j) / k;
    assert m * k + j == k * q + (m * k + j) % k;
    if q < m { MulMonotone(q + 1, m, k); } else if q > m { MulMonotone(m + 1, q, k); }
    assert q * k == k * q;
  }

  lemma PassCycles(b: Bounds, data: seq<seq<Exchange>>, convs: seq<seq<Kept>>, wanted: int, m: nat)
    requires Qualifying(b, data) != [] && |convs| <= wanted
    requires Cycles(Qualifying(b, data), convs) && |convs| == m * |Qualifying(b, data)|
    ensures Cycles(Qualifying(b, data), AfterPass(b, data, convs, wanted))
  {
    var q, r := Qualifying(b, data), AfterPass(b, data, convs, wanted);
    forall i | 0 <= i < |r| ensures r[i] == q[i % |q|] {
      if i >= |convs| { RoundAgain(m, |q|, i - |convs|); }
    }
  }

  /** Collects `wanted` conversations; entry `i` is the filtered form of qualifying conversation `i` modulo their
      number, and the totals are those of the result. Without a qualifying conversation the loop would not end. */
  method CommonFilterChat(b: Bounds, data: seq<seq<Exchange>>, wanted: int) returns (r: Collected)
    requires wanted <= 0 || Qualifying(b, data) != []
    ensures |r.convs| == if wanted <= 0 then 0 else wanted
    ensures forall i :: 0 <= i < |r.convs| ==>
      Qualifying(b, data) != [] && r.convs[i] == Qualifying(b, data)[i % |Qualifying(b, data)|]
    ensures r.inputTokens == AllPromptTokens(r.convs) && r.outputTokens == AllOutputTokens(r.convs)
    ensures forall i :: 0 <= i < |r.convs| ==> r.convs[i] != []
  {
    hide Qualifying, AllPromptTokens, AllOutputTokens;
    r := Collected([], 0, 0);
    EmptyTotals();
    ghost var m: nat := 0;
    while |r.convs| < wanted
      invariant wanted > 0 ==> |r.convs| <= wanted
      invariant wanted <= 0 ==> r.convs == []
      invariant Totalled(r)
      invariant wanted > 0 ==> Cycles(Qualifying(b, data), r.convs)
      invariant 0 < wanted && |r.convs| < wanted ==> |r.convs| == m * |Qualifying(b, data)|
      decreases wanted - |r.convs|
    {
      PassCycles(b, data, r.convs, wanted, m);
      StuckIff(b, data, r.convs, wanted);
      r := OnePass(b, data, r, wanted);
      m := m + 1;
    }
  }

  lemma EmptyTotals()
    ensures Totalled(Collected([], 0, 0))
  {}

  // ---- prompts of an exact length ------------------------------------------------------------------

  function Repeat(ids: seq<int>, n: nat): (r: seq<int>)
    ensures |r| == n * |ids|
  {
    if n == 0 then [] else
    var before := Repeat(ids, n - 1);
    assert n * |ids| == (n - 1) * |ids| + |ids|;
    before + ids
  }

  lemma {:induction false} RepeatAt(ids: seq<int>, n: nat, j: nat)
    requires j < n * |ids| && ids != []
    ensures Repeat(ids, n)[j] == ids[j % |ids|]
  {
    var k := |ids|;
    assert n * k == (n - 1) * k + k;
    if j < (n - 1) * k {
      RepeatAt(ids, n - 1, j);
    } else {
      RoundAgain(n - 1, k, j - (n - 1) * k);
    }
  }

  /** The prompt cut or repeated to exactly `len` tokens. */
  function FitPrompt(ids: seq<int>, len: nat): (r: seq<int>)
    requires ids != []
    ensures |r| == len
  {
    if |ids| > len then ids[..len] else
    var ratio := (len + |ids| - 1) / |ids|;
    EnoughCopies(len, |ids|, ratio);
    Repeat(ids, ratio)[..len]
  }

  lemma EnoughCopies(len: nat, k: nat, ratio: nat)
    requires k > 0 && ratio == (len + k - 1) / k
    ensures len <= ratio * k
  {
    assert len + k - 1 == k * ratio + (len + k - 1) % k;
    assert k * ratio == ratio * k;
  }

  lemma FitPromptCycles(ids: seq<int>, len: nat, j: nat)
    requires ids != [] && j < len
    ensures FitPrompt(ids, len)[j] == ids[j % |ids|]
  {
    if |ids| > len {
      RoundAgain(0, |ids|, j);
    } else {
      var ratio := (len + |ids| - 1) / |ids|;
      EnoughCopies(len, |ids|, ratio);
      RepeatAt(ids, ratio, j);
    }
  }
}
