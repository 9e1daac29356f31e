/** Facts about Euclidean remainder by a positive divisor, used by the
    wrap-around cursors of the results and loading screens. */
module Modular {

  /** `q * n - q0 * n` is `(q - q0) * n`. */
  lemma MulDistributes(q: int, q0: int, n: int)
    ensures q * n - q0 * n == (q - q0) * n
  {
  }

  /** `(q + 1) * n` is `q * n + n`. */
  lemma MulSucc(q: int, n: int)
    ensures (q + 1) * n == q * n + n
  {
  }

  /** Euclidean division splits `a` into a multiple of `n` and a remainder. */
  lemma DivMod(a: int, n: int)
    requires n > 0
    ensures a == (a / n) * n + a % n && 0 <= a % n < n
  {
  }

  /** The only multiple of a positive `n` strictly between `-n` and `n` is 0. */
  lemma MulBetween(d: int, n: int)
    requires n > 0 && -n < d * n < n
    ensures d == 0
  {
  }

  /** The remainder of `a` by `n` is the `r` of any decomposition
      `a == q * n + r` with `0 <= r < n`. */
  lemma ModUnique(a: int, n: int, q: int, r: int)
    requires n > 0 && 0 <= r < n && a == q * n + r
    ensures a % n == r
  {
    var q0, r0 := a / n, a % n;
    assert a == q0 * n + r0;
    MulDistributes(q, q0, n);
    MulBetween(q - q0, n);
  }

  /** Taking the remainder before adding one does not change the remainder
      after it. */
  lemma ModSucc(a: int, n: int)
    requires n > 0
    ensures ((a % n) + 1) % n == (a + 1) % n
  {
    var q, r := a / n, a % n;
    DivMod(a, n);
    if r + 1 < n {
      ModUnique(r + 1, n, 0, r + 1);
      ModUnique(a + 1, n, q, r + 1);
    } else {
      ModUnique(n, n, 1, 0);
      MulSucc(q, n);
      ModUnique(a + 1, n, q + 1, 0);
    }
  }
}
