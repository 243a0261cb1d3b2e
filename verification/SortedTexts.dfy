/** Texts in code-point order. */
module SortedTexts {

  /** Code-point order on texts. */
  predicate Leq(a: string, b: string) {
    a == [] || (b != [] && (a[0] < b[0] || (a[0] == b[0] && Leq(a[1..], b[1..]))))
  }

  /** The texts agree up to position `k`, and there the first has the smaller character. */
  ghost predicate SmallerAt(a: string, b: string, k: nat) {
    k < |a| && k < |b| && a[k] < b[k] && forall i :: 0 <= i < k ==> a[i] == b[i]
  }

  lemma SmallerInTail(a: string, b: string, k: nat)
    requires a != [] && b != [] && a[0] == b[0]
    ensures SmallerAt(a[1..], b[1..], k) <==> SmallerAt(a, b, k + 1)
  {
    if SmallerAt(a[1..], b[1..], k) {
      forall i | 0 <= i < k + 1 ensures a[i] == b[i] { if i > 0 { assert a[1..][i - 1] == b[1..][i - 1]; } }
    }
  }

  /** The order of texts: a prefix comes first, otherwise the first difference decides. */
  lemma {:induction false} LeqIff(a: string, b: string)
    ensures Leq(a, b) <==> a <= b || exists k: nat :: SmallerAt(a, b, k)
  {
    if a != [] && b != [] {
      if a[0] == b[0] {
        LeqIff(a[1..], b[1..]);
        assert a == [a[0]] + a[1..] && b == [b[0]] + b[1..];
        assert a <= b <==> a[1..] <= b[1..];
        if k: nat :| SmallerAt(a[1..], b[1..], k) { SmallerInTail(a, b, k); }
        if k: nat :| SmallerAt(a, b, k) { SmallerInTail(a, b, k - 1); }
      } else if a[0] < b[0] {
        assert SmallerAt(a, b, 0);
      }
    }
  }

  lemma {:induction false} LeqTotal(a: string, b: string)
    ensures Leq(a, b) || Leq(b, a)
    ensures Leq(a, b) && Leq(b, a) ==> a == b
  {
    if a != [] && b != [] {
      LeqTotal(a[1..], b[1..]);
      assert a == [a[0]] + a[1..] && b == [b[0]] + b[1..];
    }
  }

  lemma {:induction false} LeqTransitive(a: string, b: string, c: string)
    requires Leq(a, b) && Leq(b, c)
    ensures Leq(a, c)
  {
    if a != [] && b[0] == a[0] && c[0] == b[0] { LeqTransitive(a[1..], b[1..], c[1..]); }
  }

  ghost predicate IsLeast(m: string, s: set<string>) {
    m in s && forall x :: x in s ==> Leq(m, x)
  }

  lemma {:induction false} LeastExists(s: set<string>) returns (m: string)
    requires s != {}
    ensures IsLeast(m, s)
  {
    var x :| x in s;
    LeqTotal(x, x);
    if s == {x} {
      m := x;
    } else {
      var rest := LeastExists(s - {x});
      LeqTotal(x, rest);
      m := if Leq(x, rest) then x else rest;
      forall y | y in s ensures Leq(m, y) {
        if y != x { LeqTransitive(m, rest, y); }
      }
    }
  }

  lemma SomeLeast(s: set<string>)
    requires s != {}
    ensures exists m :: IsLeast(m, s)
  {
    var m := LeastExists(s);
  }

  /** The elements of a set in ascending order. */
  ghost function SortSet(s: set<string>): (r: seq<string>)
    ensures forall x :: x in r <==> x in s
    ensures forall i, j :: 0 <= i < j < |r| ==> r[i] != r[j] && Leq(r[i], r[j])
  {
    if s == {} then [] else
    SomeLeast(s);
    var m :| IsLeast(m, s);
    [m] + SortSet(s - {m})
  }

  /** The least element of a set is unique, so sorting leaves no choice. */
  lemma SortSetHead(s: set<string>, m: string)
    requires IsLeast(m, s)
    ensures SortSet(s) == [m] + SortSet(s - {m})
  {
    forall x | IsLeast(x, s) ensures x == m { LeqTotal(x, m); }
  }

  /** Sorting by taking the least element again and again. */
  method Sort(s: set<string>) returns (r: seq<string>)
    ensures r == SortSet(s)
  {
    r := [];
    var rest := s;
    SortOfNone();
    hide SortSet, IsLeast;
    while rest != {}
      invariant SortSet(s) == r + SortSet(rest)
      decreases rest
    {
      var m := Least(rest);
      assert m in rest by { LeastIsIn(m, rest); }
      SortSetHead(rest, m);
      r := r + [m];
      rest := rest - {m};
    }
  }

  lemma SortOfNone()
    ensures SortSet({}) == []
  {}

  lemma LeastIsIn(m: string, s: set<string>)
    requires IsLeast(m, s)
    ensures m in s
  {}

  method Least(s: set<string>) returns (m: string)
    requires s != {}
    ensures IsLeast(m, s)
  {
    m :| m in s;
    var rest := s - {m};
    LeqTotal(m, m);
    while rest != {}
      invariant rest <= s && m in s && forall x :: x in s - rest ==> Leq(m, x)
      decreases rest
    {
      var x :| x in rest;
      LeqTotal(m, x);
      if !Leq(m, x) {
        forall y | y in s - rest ensures Leq(x, y) { LeqTransitive(x, m, y); }
        m := x;
      }
      LeqTotal(x, x);
      rest := rest - {x};
    }
  }
}
