/** Naturals: smaller and larger, powers of two, quotient and remainder. */
module Numbers {

  function Min(a: nat, b: nat): nat { if a <= b then a else b }

  function Max(a: nat, b: nat): nat { if a <= b then b else a }

  function Pow2(n: nat): nat { if n == 0 then 1 else 2 * Pow2(n - 1) }

  lemma AtLeastOnce(a: nat, t: nat)
    requires a >= 1
    ensures a * t >= t
  {
  }

  lemma Difference(a: nat, b: nat, t: nat, r: nat, s: nat)
    requires a * t + r == b * t + s && s < t
    ensures a <= b
  {
    assert (a - b) * t == a * t - b * t;
    if a > b { AtLeastOnce(a - b, t); }
  }

  lemma DivideExactly(k: nat, m: nat, t: nat, rest: nat)
    requires k == m * t + rest && rest < t
    ensures k / t == m && k % t == rest
  {
    var q, s := k / t, k % t;
    assert k == q * t + s && 0 <= s < t;
    Difference(m, q, t, rest, s);
    Difference(q, m, t, s, rest);
  }

  lemma SmallRemainder(c: nat, n: nat)
    requires c < n
    ensures c % n == c
  {
    DivideExactly(c, 0, n, c);
  }

  lemma PeriodicRemainder(c: nat, n: nat)
    requires n > 0
    ensures (c + n) % n == c % n
  {
    var q, r := c / n, c % n;
    assert c == q * n + r;
    assert (q + 1) * n == q * n + n;
    DivideExactly(c + n, q + 1, n, r);
  }
}
