/** The optional value used throughout the model for std::optional and nullable pointers. */
module Options {
  datatype Option<+T> = None | Some(value: T)

  /** A key for facts that are kept folded, so that proofs which only pass them on need not look
      inside: such a fact is quantified over `Unfold(n)`, and used by asserting `Unfold(0)`. */
  ghost predicate Unfold(n: nat) {
    true
  }

  function Min(a: int, b: int): int {
    if a <= b then a else b
  }

  function Max(a: int, b: int): int {
    if a >= b then a else b
  }

  /** `assign(n, x)` on a vector. */
  function Filled<T>(n: nat, x: T): (r: seq<T>)
    ensures |r| == n && forall i :: 0 <= i < n ==> r[i] == x
  {
    seq(n, _ => x)
  }
}
