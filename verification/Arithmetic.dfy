/** Division with remainder, and the width of the program's unsigned integers. */
module Arithmetic {

  const UINT32: int := 0x1_0000_0000

  lemma Covers(n: int, d: int)
    requires n > 0
    ensures d >= 1 ==> n * d >= n
  {
  }

  /** Quotient and remainder are unique. */
  lemma DivIs(t: int, m: int, r: int)
    requires 0 <= r < m
    ensures (t * m + r) / m == t && (t * m + r) % m == r
  {
    var x := t * m + r;
    var q, s := x / m, x % m;
    assert m * (t - q) == s - r;
    assert m * (q - t) == r - s;
    Covers(m, t - q);
    Covers(m, q - t);
  }

  lemma ModUnique(v: int, m: int)
    requires m > 0
    ensures 0 <= v < m ==> v % m == v
    ensures -m <= v < 0 ==> v % m == v + m
  {
  }
}
