/** How many multiplexers of a fixed size make up one with more inputs. */
module MuxCount {
  import opened Division

  lemma CeilSmaller(n: nat, m: nat)
    requires m >= 2 && n > m
    ensures 1 < Ceil(n, m) < n
  {
    CeilBounds(n, m);
    Scale(m, Ceil(n, m), n);
  }

  lemma Scale(m: nat, q: nat, n: nat)
    requires m >= 2
    ensures q >= n ==> m * q >= n + q
    ensures q <= 1 ==> m * q <= m
  {
    Times(q, m, 2);
  }

  /** Multiplexers of size m for n inputs: one, plus those of every level of the tree below it. */
  function Muxes(n: int, m: nat): (r: int)
    requires m >= 2
    decreases if n > 0 then n else 0
  {
    if n <= m then 1 else CeilSmaller(n, m); Ceil(n, m) + Muxes(Ceil(n, m), m)
  }

  /** Levels of the tree. */
  function Depth(n: int, m: nat): (d: nat)
    requires m >= 2
    ensures d >= 1
    decreases if n > 0 then n else 0
  {
    if n <= m then 1 else CeilSmaller(n, m); 1 + Depth(Ceil(n, m), m)
  }

  function Power(m: nat, d: nat): nat {
    if d == 0 then 1 else m * Power(m, d - 1)
  }

  /** The input size after k rounds of the loop. */
  function AfterRounds(n: nat, m: nat, k: nat): int
    requires m >= 2
  {
    if k == 0 then n else Ceil(AfterRounds(n, m, k - 1), m)
  }

  /** Rounding up once at the end is rounding up every time. */
  lemma {:induction false} RoundsExact(n: nat, m: nat, k: nat)
    requires m >= 2
    ensures Power(m, k) > 0 && AfterRounds(n, m, k) == Ceil(n, Power(m, k)) >= 0
  {
    if k == 0 {
      CeilUnique(n, 1, n);
    } else {
      RoundsExact(n, m, k - 1);
      Positive(m, Power(m, k - 1));
      CeilCeil(n, Power(m, k - 1), m);
      CeilBounds(n, Power(m, k));
    }
  }

  lemma Positive(m: nat, p: nat)
    requires m > 0 && p > 0
    ensures p * m == m * p > 0
  {
  }

  /** The loop of num_default_muxes. */
  method NumDefaultMuxes(inputSize: int, m: nat) returns (i: int)
    requires m >= 2
    ensures i == Muxes(inputSize, m)
  {
    var n := inputSize;
    ghost var k := 0;
    i := 1;
    while n > m
      invariant i + Muxes(n, m) == 1 + Muxes(inputSize, m)
      invariant if inputSize >= 0 then n == AfterRounds(inputSize, m, k) else n == inputSize
      decreases n
    {
      CeilSmaller(n, m);
      n := Ceil(n, m);
      i := i + n;
      k := k + 1;
    }
  }

  /** The count is n - 1 over m - 1, up to one multiplexer a level. */
  lemma {:induction false} MuxBounds(n: nat, m: nat)
    requires m >= 2 && n >= 1
    ensures n - 1 <= (m - 1) * Muxes(n, m) <= n - 1 + (m - 1) * Depth(n, m)
    decreases n
  {
    if n > m {
      CeilSmaller(n, m);
      var q := Ceil(n, m);
      CeilBounds(n, m);
      MuxBounds(q, m);
      BoundStep(n, m, q, Muxes(q, m), Depth(q, m));
    }
  }

  lemma BoundStep(n: nat, m: nat, q: nat, r: int, d: nat)
    requires m >= 2 && n <= m * q <= n + m - 1 && q - 1 <= (m - 1) * r <= q - 1 + (m - 1) * d
    ensures n - 1 <= (m - 1) * (q + r) <= n - 1 + (m - 1) * (1 + d)
  {
    assert (m - 1) * (q + r) == m * q - q + (m - 1) * r;
    assert (m - 1) * (1 + d) == m - 1 + (m - 1) * d;
  }

  /** The depth is the logarithm to base m, rounded up, and at least 1. */
  lemma {:induction false} DepthIsLogarithm(n: nat, m: nat)
    requires m >= 2 && n >= 1
    ensures n <= Power(m, Depth(n, m))
    ensures Depth(n, m) > 1 ==> Power(m, Depth(n, m) - 1) < n
    decreases n
  {
    hide Power, Ceil;
    PowerUnfold(m, 0);
    if n > m {
      CeilSmaller(n, m);
      var q, d := Ceil(n, m), Depth(Ceil(n, m), m);
      CeilBounds(n, m);
      DepthIsLogarithm(q, m);
      PowerUnfold(m, d);
      Times(m, Power(m, d), q);
      if d > 1 {
        PowerUnfold(m, d - 1);
        Times(m, q - 1, Power(m, d - 1));
        assert m * (q - 1) == m * q - m;
      }
    }
  }

  lemma PowerUnfold(m: nat, d: nat)
    ensures Power(m, 0) == 1 && Power(m, d + 1) == m * Power(m, d)
  {
  }

  /** No multiplexer input is wasted exactly when the tree is full: n is m to the depth. */
  lemma {:induction false} MuxesExact(n: nat, m: nat)
    requires m >= 2 && n >= 1
    ensures (m - 1) * Muxes(n, m) == n - 1 <==> n == Power(m, Depth(n, m))
    decreases n
  {
    if n <= m {
      assert Power(m, 1) == m * Power(m, 0) == m;
    } else {
      CeilSmaller(n, m);
      var q, d, r := Ceil(n, m), Depth(Ceil(n, m), m), Muxes(Ceil(n, m), m);
      CeilBounds(n, m);
      MuxBounds(q, m);
      MuxesExact(q, m);
      DepthIsLogarithm(q, m);
      assert Power(m, d + 1) == m * Power(m, d);
      ExactStep(n, m, q, r, Power(m, d));
    }
  }

  lemma ExactStep(n: nat, m: nat, q: nat, r: int, p: nat)
    requires m >= 2 && n <= m * q <= n + m - 1 && q - 1 <= (m - 1) * r && q <= p && ((m - 1) * r == q - 1 <==> q == p)
    ensures (m - 1) * (q + r) == n - 1 <==> n == m * p
  {
    assert (m - 1) * (q + r) == m * q - q + (m - 1) * r;
    if n == m * p {
      Times(m, p, q);
      assert m * (p - q) == m * p - m * q <= 0;
      if p > q {
        Times(m, p - q, 1);
      }
    }
  }

  /** ceil(n / m) + ceil(n / m^2) + .. + ceil(n / m^d). */
  function LevelSum(n: nat, m: nat, d: nat): int
    requires m >= 2
  {
    if d == 0 then 0 else
      PowerPositive(m, d);
      LevelSum(n, m, d - 1) + Ceil(n, Power(m, d))
  }

  lemma {:induction false} PowerPositive(m: nat, d: nat)
    requires m > 0
    ensures Power(m, d) > 0
  {
    if d > 0 {
      PowerPositive(m, d - 1);
      Positive(m, Power(m, d - 1));
    }
  }

  lemma {:induction false} SumShift(n: nat, m: nat, d: nat)
    requires m >= 2
    ensures Ceil(n, m) >= 0 && LevelSum(n, m, d + 1) == Ceil(n, m) + LevelSum(Ceil(n, m), m, d)
  {
    hide Ceil, Power;
    CeilBounds(n, m);
    PowerUnfold(m, d);
    PowerPositive(m, d);
    PowerPositive(m, d + 1);
    if d == 0 {
      PowerUnfold(m, 0);
      assert Power(m, 1) == m;
      assert LevelSum(n, m, 1) == LevelSum(n, m, 0) + Ceil(n, Power(m, 1));
    } else {
      SumShift(n, m, d - 1);
      CeilCeil(n, m, Power(m, d));
      assert LevelSum(n, m, d + 1) == LevelSum(n, m, d) + Ceil(n, Power(m, d + 1));
      assert LevelSum(Ceil(n, m), m, d) == LevelSum(Ceil(n, m), m, d - 1) + Ceil(Ceil(n, m), Power(m, d));
    }
  }

  /** Level k of the tree, counted from the inputs, has the n inputs over m^k, rounded up. */
  lemma {:induction false} MuxesSum(n: nat, m: nat)
    requires m >= 2 && n >= 1
    ensures Muxes(n, m) == LevelSum(n, m, Depth(n, m))
    decreases n
  {
    hide Ceil, Power, LevelSum;
    if n <= m {
      LastLevel(n, m);
    } else {
      CeilSmaller(n, m);
      MuxesSum(Ceil(n, m), m);
      SumShift(n, m, Depth(Ceil(n, m), m));
    }
  }

  lemma LastLevel(n: nat, m: nat)
    requires 1 <= n <= m && m >= 2
    ensures LevelSum(n, m, 1) == 1
  {
    CeilOne(n, m);
    PowerUnfold(m, 0);
    hide Ceil, Power;
    assert LevelSum(n, m, 0) == 0;
    assert Power(m, 1) == m;
  }
}
