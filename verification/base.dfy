/** Small shared vocabulary: an optional value, the opaque handle that the
    external login library hands back for a logged-in session, and the
    uniqueness of integer quotient and remainder used by both cursors. */
module Base {

  /** `null` / `undefined` in the original program. */
  datatype Option<+T> = None | Some(value: T)

  /** A live session handle obtained from the external login library. The core
      never looks inside it; it only stores it, passes it on, or drops it. */
  type Handle = nat

  /** If `n == q * total + r` with `0 <= r < total`, then q and r are the
      quotient and remainder. */
  lemma DivModUnique(n: nat, total: nat, q: nat, r: nat)
    requires 0 <= r < total && n == q * total + r
    ensures q == n / total && r == n % total
  {
    var q', r' := n / total, n % total;
    var d := q - q';
    assert d * total == q * total - q' * total;
    assert d * total == r' - r;
  }
}
