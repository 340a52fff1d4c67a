/** Unsigned numbers as bits, least significant first. */
module Binary {
  function Bit(b: bool): nat {
    if b then 1 else 0
  }

  function Pow2(n: nat): (p: nat)
    ensures p > 0
  {
    if n == 0 then 1 else 2 * Pow2(n - 1)
  }

  lemma Pow2Next(n: nat)
    ensures Pow2(n + 1) == 2 * Pow2(n)
  {
  }

  function Num(s: seq<bool>): nat {
    if s == [] then 0 else Num(s[..|s| - 1]) + Bit(s[|s| - 1]) * Pow2(|s| - 1)
  }

  lemma {:induction false} NumBound(s: seq<bool>)
    ensures Num(s) < Pow2(|s|)
  {
    if s != [] {
      NumBound(s[..|s| - 1]);
    }
  }

  lemma NumSnoc(s: seq<bool>, b: bool)
    ensures Num(s + [b]) == Num(s) + Bit(b) * Pow2(|s|)
  {
    assert (s + [b])[..|s|] == s;
  }

  lemma {:induction false} NumCons(b: bool, s: seq<bool>)
    ensures Num([b] + s) == Bit(b) + 2 * Num(s)
  {
    if s == [] {
      assert [b] + s == [] + [b];
      NumSnoc([], b);
    } else {
      var front, last := s[..|s| - 1], s[|s| - 1];
      NumCons(b, front);
      NumSnoc([b] + front, last);
      assert [b] + s == ([b] + front) + [last];
    }
  }

  lemma {:induction false} PowAdd(m: nat, n: nat)
    ensures Pow2(m + n) == Pow2(m) * Pow2(n)
  {
    if n > 0 {
      PowAdd(m, n - 1);
    }
  }

  lemma {:induction false} NumAppend(s: seq<bool>, t: seq<bool>)
    ensures Num(s + t) == Num(s) + Pow2(|s|) * Num(t)
  {
    if t == [] {
      assert s + t == s;
    } else {
      var front, last := t[..|t| - 1], t[|t| - 1];
      NumAppend(s, front);
      hide Num, Pow2, Bit;
      NumSnoc(s + front, last);
      assert s + t == (s + front) + [last];
      NumSnoc(front, last);
      assert t == front + [last];
      PowAdd(|s|, |front|);
      Distribute(Pow2(|s|), Num(front), Bit(last), Pow2(|front|));
    }
  }

  lemma Distribute(p: nat, x: nat, b: nat, q: nat)
    ensures p * (x + b * q) == p * x + b * (p * q)
  {
    assert p * (b * q) == b * (p * q);
  }

  /** The first k bits are the remainder modulo 2^k. */
  lemma NumPrefix(s: seq<bool>, k: nat)
    requires k <= |s|
    ensures Num(s[..k]) == Num(s) % Pow2(k)
  {
    hide Num, Pow2;
    NumAppend(s[..k], s[k..]);
    assert s == s[..k] + s[k..];
    NumBound(s[..k]);
    Remainder(Num(s), Num(s[k..]), Num(s[..k]), Pow2(k));
  }

  lemma Remainder(x: int, q: int, r: int, m: int)
    requires m > 0 && 0 <= r < m && x == m * q + r
    ensures x % m == r && x / m == q
  {
    assert x == m * (x / m) + x % m;
    assert m * (x / m - q) == r - x % m;
    Multiple(m, x / m - q);
  }

  lemma Multiple(m: int, d: int)
    requires m > 0
    ensures d >= 1 ==> m * d >= m
    ensures d <= -1 ==> m * d <= -m
  {
  }

  /** Distinct bit strings of one length are distinct numbers. */
  lemma {:induction false} NumInjective(s: seq<bool>, t: seq<bool>)
    requires |s| == |t| && Num(s) == Num(t)
    ensures s == t
  {
    if s != [] {
      var n := |s| - 1;
      NumBound(s[..n]);
      NumBound(t[..n]);
      assert Num(s) == Num(s[..n]) + Bit(s[n]) * Pow2(n);
      assert Num(t) == Num(t[..n]) + Bit(t[n]) * Pow2(n);
      assert s[n] == t[n];
      NumInjective(s[..n], t[..n]);
      assert s == s[..n] + [s[n]] && t == t[..n] + [t[n]];
    }
  }
}
