/** Small definitions shared by the models. */
module Prelude {

  datatype Option<T> = None | Some(value: T)

  function Min(a: int, b: int): int { if a <= b then a else b }

  function Max(a: int, b: int): int { if a >= b then a else b }

  /** A list without its element at `k`. */
  function RemoveAt<T>(xs: seq<T>, k: nat): (ys: seq<T>)
    requires k < |xs|
    ensures |ys| == |xs| - 1
    ensures forall y :: y in ys ==> y in xs
  {
    xs[..k] + xs[k + 1..]
  }

  /** `p` occurs in `text` at position `i`. */
  predicate At(text: string, p: string, i: nat) {
    i + |p| <= |text| && text[i..i + |p|] == p
  }

  predicate Contains(text: string, p: string) {
    exists i :: 0 <= i <= |text| && At(text, p, i)
  }

  lemma MulMonotone(a: nat, b: nat, p: nat)
    requires a <= b
    ensures 0 <= a * p <= b * p
  {}
}
