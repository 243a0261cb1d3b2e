/** Finite sums and counts over sequences, with the update laws the protocol proofs use. */
module Sums {

  function Sum(xs: seq<int>): int {
    if xs == [] then 0 else Sum(xs[..|xs| - 1]) + xs[|xs| - 1]
  }

  lemma {:induction false} SumUpdate(xs: seq<int>, i: nat, v: int)
    requires i < |xs|
    ensures Sum(xs[i := v]) == Sum(xs) - xs[i] + v
  {
    var ys := xs[i := v];
    var n := |xs| - 1;
    if i == n {
      assert ys[..n] == xs[..n];
    } else {
      assert ys[..n] == xs[..n][i := v];
      SumUpdate(xs[..n], i, v);
    }
  }

  lemma {:induction false} SumAppend(xs: seq<int>, ys: seq<int>)
    ensures Sum(xs + ys) == Sum(xs) + Sum(ys)
  {
    if ys == [] {
      assert xs + ys == xs;
    } else {
      var n := |ys| - 1;
      assert (xs + ys)[..|xs + ys| - 1] == xs + ys[..n];
      SumAppend(xs, ys[..n]);
    }
  }

  lemma {:induction false} SumMonotone(xs: seq<int>, ys: seq<int>)
    requires |xs| == |ys|
    requires forall i :: 0 <= i < |xs| ==> xs[i] <= ys[i]
    ensures Sum(xs) <= Sum(ys)
    ensures Sum(xs) == Sum(ys) ==> xs == ys
  {
    if xs != [] {
      var n := |xs| - 1;
      SumMonotone(xs[..n], ys[..n]);
      assert xs == xs[..n] + [xs[n]] && ys == ys[..n] + [ys[n]];
    }
  }

  lemma {:induction false} SumZeros(n: nat)
    ensures Sum(seq(n, _ => 0)) == 0
  {
    if n > 0 {
      assert seq(n, _ => 0)[..n - 1] == seq(n - 1, _ => 0);
      SumZeros(n - 1);
    }
  }

  /** How many entries exceed `bound`. */
  function CountAbove(xs: seq<nat>, bound: int): (k: nat)
    ensures k <= |xs|
  {
    if xs == [] then 0
    else CountAbove(xs[..|xs| - 1], bound) + if xs[|xs| - 1] > bound then 1 else 0
  }

  /** How many entries equal `v`. */
  function CountAt(xs: seq<nat>, v: nat): (k: nat)
    ensures k <= |xs|
  {
    if xs == [] then 0
    else CountAt(xs[..|xs| - 1], v) + if xs[|xs| - 1] == v then 1 else 0
  }

  lemma {:induction false} CountAtUpdate(xs: seq<nat>, i: nat, u: nat, v: nat)
    requires i < |xs|
    ensures CountAt(xs[i := u], v)
         == CountAt(xs, v) - (if xs[i] == v then 1 else 0) + (if u == v then 1 else 0)
  {
    var ys := xs[i := u];
    var n := |xs| - 1;
    if i == n {
      assert ys[..n] == xs[..n];
    } else {
      assert ys[..n] == xs[..n][i := u];
      CountAtUpdate(xs[..n], i, u, v);
    }
  }

  lemma {:induction false} CountAtNone(xs: seq<nat>, v: nat)
    requires forall i :: 0 <= i < |xs| ==> xs[i] != v
    ensures CountAt(xs, v) == 0
  {
    if xs != [] {
      CountAtNone(xs[..|xs| - 1], v);
    }
  }

  /** If the entries of `xs` equal to `v` sit only where `bounds` exceeds `b`, there are no
      more of them than such bounds, and exactly as many only if they sit everywhere there. */
  lemma {:induction false} CountsCompare(xs: seq<nat>, bounds: seq<nat>, v: nat, b: int)
    requires |xs| == |bounds|
    requires forall i :: 0 <= i < |xs| && xs[i] == v ==> bounds[i] > b
    ensures CountAt(xs, v) <= CountAbove(bounds, b)
    ensures CountAt(xs, v) == CountAbove(bounds, b)
       <==> forall i :: 0 <= i < |xs| && bounds[i] > b ==> xs[i] == v
  {
    if xs != [] {
      var n := |xs| - 1;
      CountsCompare(xs[..n], bounds[..n], v, b);
      if forall i :: 0 <= i < |xs| && bounds[i] > b ==> xs[i] == v {
        assert forall i :: 0 <= i < n && bounds[..n][i] > b ==> xs[..n][i] == v;
      }
      if CountAt(xs, v) == CountAbove(bounds, b) {
        forall i | 0 <= i < |xs| && bounds[i] > b
          ensures xs[i] == v
        {
          if i < n {
            assert bounds[..n][i] > b ==> xs[..n][i] == v;
          }
        }
      }
    }
  }

  /** `CountAbove` over every bound below `limit`, as a sequence. */
  function Profile(xs: seq<nat>, limit: nat): (p: seq<int>)
    ensures |p| == limit
    ensures forall r :: 0 <= r < limit ==> p[r] == CountAbove(xs, r)
  {
    seq(limit, r => CountAbove(xs, r))
  }

  lemma {:induction false} SumIndicator(t: nat, limit: nat)
    ensures Sum(seq(limit, r requires 0 <= r < limit => if t > r then 1 else 0)) == if t < limit then t else limit
  {
    var f := seq(limit, r requires 0 <= r < limit => if t > r then 1 else 0);
    if limit > 0 {
      assert f[..limit - 1] == seq(limit - 1, r requires 0 <= r < limit - 1 => if t > r then 1 else 0);
      SumIndicator(t, limit - 1);
    }
  }

  lemma {:induction false} SumPointwise(xs: seq<int>, ys: seq<int>, zs: seq<int>)
    requires |xs| == |ys| == |zs|
    requires forall i :: 0 <= i < |xs| ==> zs[i] == xs[i] + ys[i]
    ensures Sum(zs) == Sum(xs) + Sum(ys)
  {
    if xs != [] {
      var n := |xs| - 1;
      SumPointwise(xs[..n], ys[..n], zs[..n]);
    }
  }

  /** Counting by rounds and counting by clients give the same total. */
  lemma {:induction false} DoubleCounting(xs: seq<nat>, limit: nat)
    requires forall i :: 0 <= i < |xs| ==> xs[i] <= limit
    ensures Sum(Profile(xs, limit)) == Sum(xs)
  {
    if xs == [] {
      assert Profile(xs, limit) == seq(limit, _ => 0);
      SumZeros(limit);
    } else {
      var n := |xs| - 1;
      DoubleCounting(xs[..n], limit);
      var last := seq(limit, r requires 0 <= r < limit => if xs[n] > r then 1 else 0);
      SumIndicator(xs[n], limit);
      SumPointwise(Profile(xs[..n], limit), last, Profile(xs, limit));
    }
  }
}
