/** Division that rounds up. */
module Division {
  import opened Binary

  function Ceil(n: int, m: nat): int
    requires m > 0
  {
    (n + m - 1) / m
  }

  lemma CeilBounds(n: nat, m: nat)
    requires m > 0
    ensures Ceil(n, m) >= 0 && n <= m * Ceil(n, m) <= n + m - 1
    ensures n > 0 ==> Ceil(n, m) > 0
  {
    var q := (n + m - 1) / m;
    assert n + m - 1 == m * q + (n + m - 1) % m;
  }

  lemma Times(a: nat, x: int, y: int)
    requires x >= y
    ensures a * x >= a * y
  {
  }

  lemma CeilUnique(n: nat, m: nat, p: nat)
    requires m > 0 && m * p >= n && (p > 0 ==> m * (p - 1) < n)
    ensures Ceil(n, m) == p
  {
    LessOne(m, p);
    Remainder(n + m - 1, p, n + m - 1 - m * p, m);
  }

  lemma Associate(a: int, b: int, c: int)
    ensures a * (b * c) == a * b * c
  {
  }

  lemma LessOne(a: int, x: int)
    ensures a * (x - 1) == a * x - a
  {
  }

  lemma CeilAbove(n: nat, a: nat, b: nat, q: nat, p: nat)
    requires n <= a * q && q <= b * p
    ensures n <= a * b * p
  {
    Times(a, b * p, q);
    Associate(a, b, p);
  }

  lemma CeilBelow(n: nat, a: nat, b: nat, q: nat, p: nat)
    requires a * q < n + a && b * p < q + b
    ensures a * b * (p - 1) < n
  {
    LessOne(b, p);
    Times(a, q - 1, b * (p - 1));
    LessOne(a, q);
    Associate(a, b, p - 1);
  }

  /** ceil(ceil(n / a) / b) is ceil(n / (a b)). */
  lemma CeilCeil(n: nat, a: nat, b: nat)
    requires a > 0 && b > 0 && a * b > 0
    ensures Ceil(n, a) >= 0 && Ceil(Ceil(n, a), b) == Ceil(n, a * b)
  {
    hide Ceil;
    CeilBounds(n, a);
    var q := Ceil(n, a);
    CeilBounds(q, b);
    var p := Ceil(q, b);
    CeilAbove(n, a, b, q, p);
    CeilBelow(n, a, b, q, p);
    CeilUnique(n, a * b, p);
  }

  lemma CeilStep(n: nat, s: nat)
    requires s > 0
    ensures Ceil(n, s) >= 0 && Ceil(n + s, s) == Ceil(n, s) + 1
  {
    CeilBounds(n, s);
    var q := Ceil(n, s);
    assert s * (q + 1) == s * q + s && s * (q + 1 - 1) == s * q;
    if q > 0 {
      assert s * (q - 1) == s * q - s;
    }
    CeilUnique(n + s, s, q + 1);
  }

  lemma CeilOne(n: nat, s: nat)
    requires 0 < n <= s
    ensures Ceil(n, s) == 1
  {
    CeilUnique(n, s, 1);
  }
}
