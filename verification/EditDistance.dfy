/** Character-level edit distance: scripts, their least cost, and the single-row table that computes it. */
module EditDistance {

  /** One edit, from left to right over both texts. */
  datatype Edit = Keep(c: char) | Substitute(was: char, now: char) | Insert(c: char) | Delete(c: char)

  datatype Script = Empty | Then(before: Script, edit: Edit)

  /** The text a script reads. */
  function Source(s: Script): string {
    match s
    case Empty => []
    case Then(before, e) =>
      match e
      case Keep(c) => Source(before) + [c]
      case Substitute(was, _) => Source(before) + [was]
      case Insert(_) => Source(before)
      case Delete(c) => Source(before) + [c]
  }

  /** The text a script writes. */
  function Target(s: Script): string {
    match s
    case Empty => []
    case Then(before, e) =>
      match e
      case Keep(c) => Target(before) + [c]
      case Substitute(_, now) => Target(before) + [now]
      case Insert(c) => Target(before) + [c]
      case Delete(_) => Target(before)
  }

  /** Everything but keeping a character costs one. */
  function Cost(s: Script): nat {
    match s
    case Empty => 0
    case Then(before, e) => Cost(before) + if e.Keep? then 0 else 1
  }

  ghost predicate Edits(s: Script, a: string, b: string) {
    Source(s) == a && Target(s) == b
  }

  /** `d` is the least cost of turning `a` into `b`. */
  ghost predicate IsDistance(d: nat, a: string, b: string) {
    && (exists s :: Edits(s, a, b) && Cost(s) == d)
    && (forall s :: Edits(s, a, b) ==> d <= Cost(s))
  }

  function Min3(a: nat, b: nat, c: nat): nat {
    if a <= b && a <= c then a else if b <= c then b else c
  }

  function Butlast(a: string): string
    requires a != []
  {
    a[..|a| - 1]
  }

  function Last(a: string): char
    requires a != []
  {
    a[|a| - 1]
  }

  /** The table entry for the prefixes `a` and `b`, with the shortcut that equal last characters cost nothing. */
  function Table(a: string, b: string): nat
    decreases |a| + |b|
  {
    if a == [] then |b|
    else if b == [] then |a|
    else if Last(a) == Last(b) then Table(Butlast(a), Butlast(b))
    else 1 + Min3(Table(Butlast(a), Butlast(b)), Table(Butlast(a), b), Table(a, Butlast(b)))
  }

  // ---- the table is the least cost ------------------------------------------------------

  lemma {:induction false} Achieved(a: string, b: string) returns (s: Script)
    ensures Edits(s, a, b) && Cost(s) == Table(a, b)
    decreases |a| + |b|
  {
    if a == [] && b == [] {
      s := Empty;
    } else if a == [] {
      var p := Achieved(a, Butlast(b));
      s := Then(p, Insert(Last(b)));
    } else if b == [] {
      var p := Achieved(Butlast(a), b);
      s := Then(p, Delete(Last(a)));
    } else if Last(a) == Last(b) {
      var p := Achieved(Butlast(a), Butlast(b));
      s := Then(p, Keep(Last(a)));
    } else {
      var diagonal, up, left := Table(Butlast(a), Butlast(b)), Table(Butlast(a), b), Table(a, Butlast(b));
      if diagonal <= up && diagonal <= left {
        var p := Achieved(Butlast(a), Butlast(b));
        s := Then(p, Substitute(Last(a), Last(b)));
      } else if up <= left {
        var p := Achieved(Butlast(a), b);
        s := Then(p, Delete(Last(a)));
      } else {
        var p := Achieved(a, Butlast(b));
        s := Then(p, Insert(Last(b)));
      }
    }
  }

  /** Dropping the last character of either text changes the entry by at most one: what justifies the shortcut. */
  lemma {:induction false} NeighboursDifferByOne(a: string, b: string)
    ensures a != [] ==> Table(Butlast(a), b) <= Table(a, b) + 1 && Table(a, b) <= Table(Butlast(a), b) + 1
    ensures b != [] ==> Table(a, Butlast(b)) <= Table(a, b) + 1 && Table(a, b) <= Table(a, Butlast(b)) + 1
    decreases |a| + |b|
  {
    if a != [] { NeighboursDifferByOne(Butlast(a), b); }
    if b != [] { NeighboursDifferByOne(a, Butlast(b)); }
    if a != [] && b != [] { NeighboursDifferByOne(Butlast(a), Butlast(b)); }
  }

  /** The last edit of a script accounts for the difference of two neighbouring entries. */
  lemma LastEditPays(a: string, b: string, e: Edit)
    ensures e.Keep? ==> Table(a + [e.c], b + [e.c]) == Table(a, b)
    ensures e.Substitute? ==> Table(a + [e.was], b + [e.now]) <= Table(a, b) + 1
    ensures e.Insert? ==> Table(a, b + [e.c]) <= Table(a, b) + 1
    ensures e.Delete? ==> Table(a + [e.c], b) <= Table(a, b) + 1
  {
    match e
    case Keep(c) => assert Butlast(a + [c]) == a && Butlast(b + [c]) == b;
    case Substitute(was, now) => assert Butlast(a + [was]) == a && Butlast(b + [now]) == b;
    case Insert(c) =>
      assert Butlast(b + [c]) == b;
      NeighboursDifferByOne(a, b + [c]);
    case Delete(c) =>
      assert Butlast(a + [c]) == a;
      NeighboursDifferByOne(a + [c], b);
  }

  lemma {:induction false} NoCheaper(s: Script)
    ensures Table(Source(s), Target(s)) <= Cost(s)
    decreases s
  {
    match s
    case Empty =>
    case Then(before, e) =>
      NoCheaper(before);
      LastEditPays(Source(before), Target(before), e);
  }

  lemma {:induction false} TableIsDistance(a: string, b: string)
    ensures IsDistance(Table(a, b), a, b)
  {
    var s := Achieved(a, b);
    forall t | Edits(t, a, b) ensures Table(a, b) <= Cost(t) { NoCheaper(t); }
  }

  lemma DistanceIsTable(d: nat, a: string, b: string)
    ensures IsDistance(d, a, b) <==> d == Table(a, b)
  {
    TableIsDistance(a, b);
  }

  // ---- metric laws ------------------------------------------------------------------------

  function Invert(s: Script): Script {
    match s
    case Empty => Empty
    case Then(before, e) =>
      Then(Invert(before),
           match e
           case Keep(c) => Keep(c)
           case Substitute(was, now) => Substitute(now, was)
           case Insert(c) => Delete(c)
           case Delete(c) => Insert(c))
  }

  lemma {:induction false} InvertSwaps(s: Script)
    ensures Source(Invert(s)) == Target(s) && Target(Invert(s)) == Source(s) && Cost(Invert(s)) == Cost(s)
  {
    match s
    case Empty =>
    case Then(before, _) => InvertSwaps(before);
  }

  lemma {:induction false} Symmetric(a: string, b: string)
    ensures Table(a, b) == Table(b, a)
  {
    var s := Achieved(a, b);
    var t := Achieved(b, a);
    InvertSwaps(s);
    InvertSwaps(t);
    NoCheaper(Invert(s));
    NoCheaper(Invert(t));
  }

  lemma {:induction false} FreeScriptCopies(s: Script)
    requires Cost(s) == 0
    ensures Source(s) == Target(s)
  {
    match s
    case Empty =>
    case Then(before, _) => FreeScriptCopies(before);
  }

  function Copy(a: string): Script {
    if a == [] then Empty else Then(Copy(Butlast(a)), Keep(Last(a)))
  }

  lemma {:induction false} CopyIsFree(a: string)
    ensures Edits(Copy(a), a, a) && Cost(Copy(a)) == 0
  {
    if a != [] { CopyIsFree(Butlast(a)); }
  }

  lemma {:induction false} ZeroMeansEqual(a: string, b: string)
    ensures Table(a, b) == 0 <==> a == b
  {
    var s := Achieved(a, b);
    if Cost(s) == 0 { FreeScriptCopies(s); }
    CopyIsFree(a);
    NoCheaper(Copy(a));
  }

  /** The script that does `s` and then `t`, edit by edit. */
  function Compose(s: Script, t: Script): Script
    requires Target(s) == Source(t)
    decreases s, t
  {
    if s.Then? && s.edit.Delete? then Then(Compose(s.before, t), s.edit)
    else if t.Then? && t.edit.Insert? then Then(Compose(s, t.before), t.edit)
    else if s.Empty? || t.Empty? then Empty
    else
      LastCharacterMeets(s, t);
      var r := Compose(s.before, t.before);
      match (s.edit, t.edit)
      case (Insert(_), Delete(_)) => r
      case (Insert(_), Keep(_)) => Then(r, s.edit)
      case (Insert(_), Substitute(_, now)) => Then(r, Insert(now))
      case (Keep(_), e) => Then(r, e)
      case (Substitute(_, _), Keep(_)) => Then(r, s.edit)
      case (Substitute(was, _), Substitute(_, now)) => Then(r, Substitute(was, now))
      case (Substitute(was, _), Delete(_)) => Then(r, Delete(was))
  }

  lemma LastCharacterMeets(s: Script, t: Script)
    requires Target(s) == Source(t) && s.Then? && t.Then? && !s.edit.Delete? && !t.edit.Insert?
    ensures Target(s.before) == Source(t.before)
    ensures Last(Target(s)) == Last(Source(t))
  {
    assert Target(s)[..|Target(s)| - 1] == Target(s.before);
    assert Source(t)[..|Source(t)| - 1] == Source(t.before);
  }

  lemma {:induction false} Composed(s: Script, t: Script)
    requires Target(s) == Source(t)
    ensures Source(Compose(s, t)) == Source(s) && Target(Compose(s, t)) == Target(t)
    ensures Cost(Compose(s, t)) <= Cost(s) + Cost(t)
    decreases s, t
  {
    if s.Then? && s.edit.Delete? {
      Composed(s.before, t);
    } else if t.Then? && t.edit.Insert? {
      Composed(s, t.before);
    } else if s.Then? && t.Then? {
      LastCharacterMeets(s, t);
      Composed(s.before, t.before);
    }
  }

  lemma {:induction false} Triangle(a: string, b: string, c: string)
    ensures Table(a, c) <= Table(a, b) + Table(b, c)
  {
    var s := Achieved(a, b);
    var t := Achieved(b, c);
    Composed(s, t);
    NoCheaper(Compose(s, t));
  }

  function AbsDiff(m: int, n: int): int { if m <= n then n - m else m - n }

  function Longer(a: string, b: string): nat { if |a| >= |b| then |a| else |b| }

  lemma {:induction false} LengthGap(s: Script)
    ensures AbsDiff(|Source(s)|, |Target(s)|) <= Cost(s)
  {
    match s
    case Empty =>
    case Then(before, _) => LengthGap(before);
  }

  lemma {:induction false} AtMostLonger(a: string, b: string)
    ensures Table(a, b) <= Longer(a, b)
    decreases |a| + |b|
  {
    if a != [] && b != [] { AtMostLonger(Butlast(a), Butlast(b)); }
  }

  lemma {:induction false} Bounds(a: string, b: string)
    ensures AbsDiff(|a|, |b|) <= Table(a, b) <= Longer(a, b)
  {
    var s := Achieved(a, b);
    LengthGap(s);
    AtMostLonger(a, b);
  }

  // ---- the single-row computation -----------------------------------------------------------

  /** The entry for the first `i` characters of `pred` and the first `j` of `ref`. */
  ghost function Entry(pred: string, ref: string, i: nat, j: nat): nat
    requires i <= |pred| && j <= |ref|
  {
    Table(pred[..i], ref[..j])
  }

  lemma EntryStep(pred: string, ref: string, i: nat, j: nat)
    requires 1 <= i <= |pred| && 1 <= j <= |ref|
    ensures Entry(pred, ref, i, j) ==
      if pred[i - 1] == ref[j - 1] then Entry(pred, ref, i - 1, j - 1)
      else 1 + Min3(Entry(pred, ref, i - 1, j - 1), Entry(pred, ref, i - 1, j), Entry(pred, ref, i, j - 1))
  {
    assert Butlast(pred[..i]) == pred[..i - 1] && Butlast(ref[..j]) == ref[..j - 1];
  }

  /** The row `dp` holds the entries of row `i` before column `j` and those of row `i - 1` from there on. */
  ghost predicate RowSplit(dp: seq<nat>, pred: string, ref: string, i: nat, j: nat)
    requires 1 <= i <= |pred|
  {
    && |dp| == |ref| + 1
    && (forall k :: 0 <= k < j && k <= |ref| ==> dp[k] == Entry(pred, ref, i, k))
    && (forall k :: j <= k <= |ref| ==> dp[k] == Entry(pred, ref, i - 1, k))
  }

  /** One pass over the row, in place; `prev` keeps the diagonal entry that is about to be overwritten. */
  method NextRow(dp: array<nat>, pred: string, ref: string, i: nat)
    requires 1 <= i <= |pred| && RowSplit(dp[..], pred, ref, i, 0)
    modifies dp
    ensures RowSplit(dp[..], pred, ref, i, |ref| + 1)
  {
    var n := |ref|;
    var prev := dp[0];
    dp[0] := i;
    assert dp[0] == Entry(pred, ref, i, 0);
    for j := 1 to n + 1
      invariant dp.Length == n + 1
      invariant prev == Entry(pred, ref, i - 1, j - 1)
      invariant RowSplit(dp[..], pred, ref, i, j)
    {
      var temp := dp[j];
      EntryStep(pred, ref, i, j);
      assert dp[..][j] == Entry(pred, ref, i - 1, j) && dp[..][j - 1] == Entry(pred, ref, i, j - 1);
      if pred[i - 1] == ref[j - 1] {
        dp[j] := prev;
      } else {
        dp[j] := 1 + Min3(prev, dp[j], dp[j - 1]);
      }
      prev := temp;
    }
  }

  method RowDistance(pred: string, ref: string) returns (d: nat)
    ensures IsDistance(d, pred, ref)
  {
    var m, n := |pred|, |ref|;
    var dp := new nat[n + 1](j => j);
    for i := 1 to m + 1
      invariant forall k :: 0 <= k <= n ==> dp[k] == Entry(pred, ref, i - 1, k)
    {
      NextRow(dp, pred, ref, i);
      forall k | 0 <= k <= n ensures dp[k] == Entry(pred, ref, i, k) { assert dp[..][k] == dp[k]; }
    }
    assert pred[..m] == pred && ref[..n] == ref;
    d := dp[n];
    TableIsDistance(pred, ref);
  }

  /** The distance of two texts as a fraction of the longer one, after `prepare`, which strips and normalises a text. */
  method NormalizedEditDistance(prepare: string -> string, predicted: string, reference: string) returns (r: real)
    ensures 0.0 <= r <= 1.0
    ensures r == 0.0 <==> prepare(predicted) == prepare(reference)
    ensures var pred, ref := prepare(predicted), prepare(reference);
      Longer(pred, ref) > 0 ==> forall d: nat :: IsDistance(d, pred, ref) ==> r == d as real / Longer(pred, ref) as real
  {
    var pred, ref := prepare(predicted), prepare(reference);
    forall d: nat ensures IsDistance(d, pred, ref) <==> d == Table(pred, ref) { DistanceIsTable(d, pred, ref); }
    Bounds(pred, ref);
    ZeroMeansEqual(pred, ref);
    if ref == [] && pred == [] {
      return 0.0;
    }
    if ref == [] || pred == [] {
      return 1.0;
    }
    var d := RowDistance(pred, ref);
    r := d as real / Longer(pred, ref) as real;
    FractionBounds(d, Longer(pred, ref));
  }

  lemma FractionBounds(d: nat, n: nat)
    requires d <= n && n > 0
    ensures 0.0 <= d as real / n as real <= 1.0
    ensures d as real / n as real == 0.0 <==> d == 0
  {
    var q := d as real / n as real;
    assert q * n as real == d as real;
  }
}
