/** From the command line to a configuration: the set-up yields exactly the well-formed configurations. */
module MultiTurnSetUp {
  import opened Prelude
  import opened Sums
  import opened MultiTurn

  datatype RoundBounds = Rounds(min: int, max: int) | InvalidRounds

  /** The per-client round bounds: zero means "not given". */
  function ResolveRounds(minRounds: int, maxRounds: int, numRounds: int): (r: RoundBounds)
    ensures r.Rounds? ==> 1 <= r.min <= r.max
    ensures r.Rounds? && minRounds != 0 ==> r.min == minRounds
    ensures r.Rounds? && maxRounds != 0 ==> r.max == maxRounds
    ensures r.Rounds? && (minRounds == 0 || maxRounds == 0) ==> r.min == r.max
    ensures r.Rounds? && minRounds == 0 && maxRounds == 0 ==> r.min == numRounds
    ensures r.InvalidRounds? <==>
      var given := {minRounds, maxRounds} - {0};
      if given == {} then numRounds < 1
      else (exists x :: x in given && x < 1) || (minRounds > maxRounds && maxRounds != 0)
  {
    var lo := if minRounds == 0 && maxRounds == 0 then numRounds
              else if minRounds == 0 then maxRounds else minRounds;
    var hi := if minRounds == 0 && maxRounds == 0 then numRounds
              else if maxRounds == 0 then minRounds else maxRounds;
    assert minRounds != 0 ==> minRounds in {minRounds, maxRounds} - {0};
    assert maxRounds != 0 ==> maxRounds in {minRounds, maxRounds} - {0};
    if lo < 1 then InvalidRounds
    else if lo > hi then InvalidRounds
    else Rounds(lo, hi)
  }

  datatype Arguments = Arguments(
    minRounds: int,
    maxRounds: int,
    numRounds: int,
    numClients: nat,
    maxParallel: int,
    barrier: bool,
    policy: Policy,
    format: ApiFormat)

  function Bounds(args: Arguments): RoundBounds { ResolveRounds(args.minRounds, args.maxRounds, args.numRounds) }

  /** What a random draw between two bounds may give; with equal bounds nothing is drawn. */
  ghost predicate Drawable(bounds: RoundBounds, n: nat, draws: seq<int>) {
    bounds.Rounds? && bounds.min < bounds.max ==>
      |draws| == n && forall i :: 0 <= i < n ==> bounds.min <= draws[i] <= bounds.max
  }

  /** The sampler returns as many rows as it is asked for. */
  ghost predicate Sampler(sample: nat -> seq<Sample>) {
    forall n :: |sample(n)| == n
  }

  /** Every turn but the first of each client owes a sub-question. */
  lemma {:induction false} OwedInAll(totals: seq<nat>)
    requires forall c :: 0 <= c < |totals| ==> totals[c] >= 1
    ensures Sum(OwedAll(totals)) == Sum(totals) - |totals|
  {
    if totals != [] {
      var n := |totals| - 1;
      OwedInAll(totals[..n]);
      assert OwedAll(totals)[..n] == OwedAll(totals[..n]);
    }
  }

  /** The configuration the program sets up, or none when it raises an error. */
  function SetUp(args: Arguments, draws: seq<int>, prompts: nat -> seq<Sample>, questions: nat -> seq<Sample>)
    : (r: Option<Config>)
    requires Drawable(Bounds(args), args.numClients, draws) && Sampler(prompts) && Sampler(questions)
    ensures r.Some? <==> Bounds(args).Rounds?
    ensures r.Some? ==> WellFormed(r.value) && Clients(r.value) == args.numClients && r.value.maxRounds >= 1
    ensures r.Some? ==> var cfg, bounds := r.value, Bounds(args);
      && cfg.maxRounds == bounds.max
      && (forall c :: 0 <= c < args.numClients ==>
            cfg.totalRounds[c] == if bounds.min < bounds.max then draws[c] else bounds.min)
      && cfg.maxParallel == args.maxParallel && cfg.barrier == args.barrier
      && cfg.policy == args.policy && cfg.format == args.format
      && cfg.firstPrompts == prompts(args.numClients)
      && cfg.subQuestions == questions(Max(Sum(cfg.totalRounds) - args.numClients, 1))
  {
    var bounds := Bounds(args);
    if bounds.InvalidRounds? then None else
    var totals: seq<nat> :=
      if bounds.min == bounds.max then seq(args.numClients, _ => bounds.min)
      else seq(args.numClients, i requires 0 <= i < args.numClients => draws[i]);
    OwedInAll(totals);
    Some(Config(totals, bounds.max, args.maxParallel, args.barrier, args.policy, args.format, prompts(args.numClients),
                questions(Max(Sum(OwedAll(totals)), 1))))
  }

  /** A list cut or filled up to a length. */
  function Resized(rows: seq<Sample>, n: nat): (r: seq<Sample>)
    ensures |r| == n
    ensures n == |rows| ==> r == rows
  {
    if n <= |rows| then rows[..n] else rows + seq(n - |rows|, _ => Sample([], 0))
  }

  /** Conversely every well-formed configuration is set up by some arguments, draws and samples. */
  lemma EveryConfigIsSetUp(cfg: Config)
    requires WellFormed(cfg) && cfg.maxRounds >= 1
    ensures exists args, draws, prompts, questions ::
      && Drawable(Bounds(args), args.numClients, draws) && Sampler(prompts) && Sampler(questions)
      && SetUp(args, draws, prompts, questions) == Some(cfg)
  {
    var args := Arguments(1, cfg.maxRounds, 0, Clients(cfg), cfg.maxParallel, cfg.barrier, cfg.policy, cfg.format);
    assert Bounds(args) == Rounds(1, cfg.maxRounds);
    var prompts := (n: nat) => Resized(cfg.firstPrompts, n);
    var questions := (n: nat) => Resized(cfg.subQuestions, n);
    assert Sampler(prompts) && Sampler(questions);
    var got := SetUp(args, cfg.totalRounds, prompts, questions).value;
    assert got.totalRounds == cfg.totalRounds;
    assert got == cfg;
  }
}
