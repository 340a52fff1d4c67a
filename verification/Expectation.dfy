/** Expected values over independent random bits: the sum over all assignments, each weighted by its probability. */
module Expectation {
  import opened Binary

  type Measure = seq<bool> -> real

  /** x with probability w, y otherwise. */
  function Mix(w: real, x: real, y: real): real {
    w * x + (1.0 - w) * y
  }

  /** The sum over every extension of p, bit i being 1 with probability ws[i]. */
  function Expect(g: Measure, ws: seq<real>, p: seq<bool>): real
    requires |p| <= |ws|
    decreases |ws| - |p|
  {
    if |p| == |ws| then g(p)
    else Mix(ws[|p|], Expect(g, ws, p + [true]), Expect(g, ws, p + [false]))
  }

  // ----- The same as one sum over a list of assignments -----

  function Assignments(n: nat): seq<seq<bool>> {
    if n == 0 then [[]] else Extend(Assignments(n - 1))
  }

  /** Every assignment with either bit appended. */
  function Extend(xs: seq<seq<bool>>): seq<seq<bool>> {
    if xs == [] then [] else [xs[0] + [true], xs[0] + [false]] + Extend(xs[1..])
  }

  function Weight(ws: seq<real>, x: seq<bool>): real
    requires |x| <= |ws|
  {
    if x == [] then 1.0
    else Weight(ws, x[..|x| - 1]) * (if x[|x| - 1] then ws[|x| - 1] else 1.0 - ws[|x| - 1])
  }

  predicate Lengths(xs: seq<seq<bool>>, n: nat) {
    forall i | 0 <= i < |xs| :: |xs[i]| == n
  }

  /** What an assignment, or all the extensions of one, contributes. */
  function Term(g: Measure, ws: seq<real>, x: seq<bool>): real
    requires |x| <= |ws|
  {
    Weight(ws, x) * Expect(g, ws, x)
  }

  /** The extensions by either bit share out a term. */
  lemma TermSplit(g: Measure, ws: seq<real>, x: seq<bool>)
    requires |x| < |ws|
    ensures Term(g, ws, x + [true]) + Term(g, ws, x + [false]) == Term(g, ws, x)
  {
    assert (x + [true])[..|x|] == x && (x + [false])[..|x|] == x;
    var w, c := Weight(ws, x), ws[|x|];
    assert Weight(ws, x + [true]) == w * c && Weight(ws, x + [false]) == w * (1.0 - c);
    assert Expect(g, ws, x) == Mix(c, Expect(g, ws, x + [true]), Expect(g, ws, x + [false]));
    hide Weight, Expect;
    Distribute(w, c, Expect(g, ws, x + [true]), Expect(g, ws, x + [false]));
  }

  lemma Distribute(w: real, c: real, t: real, f: real)
    ensures w * c * t + w * (1.0 - c) * f == w * Mix(c, t, f)
  {
    assert w * (c * t + (1.0 - c) * f) == w * c * t + w * (1.0 - c) * f;
  }

  /** The probability-weighted sum of g over a list of assignments. */
  function Sum(g: Measure, ws: seq<real>, xs: seq<seq<bool>>, n: nat): real
    requires Lengths(xs, n) && n <= |ws|
  {
    if xs == [] then 0.0 else Term(g, ws, xs[0]) + Sum(g, ws, xs[1..], n)
  }

  lemma {:induction false} ExtendLengths(xs: seq<seq<bool>>, n: nat)
    requires Lengths(xs, n)
    ensures Lengths(Extend(xs), n + 1)
  {
    if xs != [] {
      ExtendLengths(xs[1..], n);
    }
  }

  lemma {:induction false} AssignmentLengths(n: nat)
    ensures Lengths(Assignments(n), n)
  {
    if n > 0 {
      AssignmentLengths(n - 1);
      ExtendLengths(Assignments(n - 1), n - 1);
    }
  }

  lemma {:induction false} ExtendSum(g: Measure, ws: seq<real>, xs: seq<seq<bool>>, n: nat)
    requires Lengths(xs, n) && n < |ws| && Lengths(Extend(xs), n + 1)
    ensures Sum(g, ws, Extend(xs), n + 1) == Sum(g, ws, xs, n)
  {
    hide Term;
    if xs != [] {
      var x, rest := xs[0], Extend(xs[1..]);
      ExtendLengths(xs[1..], n);
      ExtendSum(g, ws, xs[1..], n);
      var all := Extend(xs);
      TermSplit(g, ws, x);
      assert all[1..][1..] == rest && all[1..][0] == x + [false];
    }
  }

  /** Expect is the flat sum over all assignments of g times the product of the bits' probabilities. */
  lemma {:induction false} ExpectIsSum(g: Measure, ws: seq<real>, n: nat)
    requires n <= |ws|
    ensures Lengths(Assignments(n), n)
    ensures Sum(g, ws, Assignments(n), n) == Expect(g, ws, [])
  {
    AssignmentLengths(n);
    if n > 0 {
      ExpectIsSum(g, ws, n - 1);
      ExtendSum(g, ws, Assignments(n - 1), n - 1);
    } else {
      assert Assignments(0)[1..] == [];
      assert Weight(ws, []) == 1.0;
    }
  }

  lemma {:induction false} ExtendMember(xs: seq<seq<bool>>, x: seq<bool>)
    requires x != []
    ensures x in Extend(xs) <==> x[..|x| - 1] in xs
  {
    if xs != [] {
      ExtendMember(xs[1..], x);
      var tail := x[..|x| - 1];
      assert xs == [xs[0]] + xs[1..];
      assert x == tail + [x[|x| - 1]];
      var a, b := xs[0] + [true], xs[0] + [false];
      assert a[..|xs[0]|] == xs[0] && b[..|xs[0]|] == xs[0];
      assert Extend(xs) == [a, b] + Extend(xs[1..]);
      assert x in Extend(xs) <==> x == a || x == b || x in Extend(xs[1..]);
      assert x == a || x == b <==> tail == xs[0] by { assert x[|x| - 1] ==> x == tail + [true]; assert !x[|x| - 1] ==> x == tail + [false]; }
      assert tail in xs <==> tail == xs[0] || tail in xs[1..];
    }
  }

  /** The list holds every assignment of its length. */
  lemma {:induction false} AssignmentsComplete(x: seq<bool>)
    ensures x in Assignments(|x|)
  {
    if x != [] {
      AssignmentsComplete(x[..|x| - 1]);
      ExtendMember(Assignments(|x| - 1), x);
    }
  }

  lemma {:induction false} ExtendSize(xs: seq<seq<bool>>)
    ensures |Extend(xs)| == 2 * |xs|
  {
    if xs != [] {
      ExtendSize(xs[1..]);
    }
  }

  /** The list has 2^n entries, so it holds each assignment once. */
  lemma {:induction false} AssignmentsSize(n: nat)
    ensures |Assignments(n)| == Pow2(n)
  {
    if n > 0 {
      AssignmentsSize(n - 1);
      ExtendSize(Assignments(n - 1));
    }
  }

  // ----- Laws -----

  /** Expanding on one bit. */
  lemma {:induction false} Split(g: Measure, ws: seq<real>, i: nat, p: seq<bool>)
    requires |p| <= i < |ws|
    ensures Expect(g, ws, p) == Mix(ws[i], Expect(g, ws[i := 1.0], p), Expect(g, ws[i := 0.0], p))
    decreases |ws| - |p|
  {
    hide Expect, Mix;
    var w1, w0 := ws[i := 1.0], ws[i := 0.0];
    Unfold(g, ws, p);
    Unfold(g, w1, p);
    Unfold(g, w0, p);
    if |p| == i {
      Later(g, ws, w1, p + [true]);
      Later(g, ws, w0, p + [false]);
      Certain(Expect(g, w1, p + [true]), Expect(g, w1, p + [false]));
      Certain(Expect(g, w0, p + [true]), Expect(g, w0, p + [false]));
    } else {
      Split(g, ws, i, p + [true]);
      Split(g, ws, i, p + [false]);
      Regroup(ws[|p|], ws[i], Expect(g, w1, p + [true]), Expect(g, w0, p + [true]), Expect(g, w1, p + [false]), Expect(g, w0, p + [false]));
    }
  }

  lemma Unfold(g: Measure, ws: seq<real>, p: seq<bool>)
    requires |p| < |ws|
    ensures Expect(g, ws, p) == Mix(ws[|p|], Expect(g, ws, p + [true]), Expect(g, ws, p + [false]))
  {
  }

  lemma Certain(x: real, y: real)
    ensures Mix(1.0, x, y) == x && Mix(0.0, x, y) == y
  {
  }

  lemma Regroup(a: real, b: real, t1: real, t0: real, f1: real, f0: real)
    ensures Mix(a, Mix(b, t1, t0), Mix(b, f1, f0)) == Mix(b, Mix(a, t1, f1), Mix(a, t0, f0))
  {
    assert a * (b * t1 + (1.0 - b) * t0) == b * (a * t1) + (1.0 - b) * (a * t0);
    assert (1.0 - a) * (b * f1 + (1.0 - b) * f0) == b * ((1.0 - a) * f1) + (1.0 - b) * ((1.0 - a) * f0);
  }

  /** Only the weights of the bits still to come matter. */
  lemma {:induction false} Later(g: Measure, ws: seq<real>, vs: seq<real>, p: seq<bool>)
    requires |p| <= |ws| == |vs| && forall i | |p| <= i < |ws| :: ws[i] == vs[i]
    ensures Expect(g, ws, p) == Expect(g, vs, p)
    decreases |ws| - |p|
  {
    if |p| < |ws| {
      Later(g, ws, vs, p + [true]);
      Later(g, ws, vs, p + [false]);
    }
  }

  /** The assignment has a bit that its weight excludes. */
  predicate Possible(ws: seq<real>, x: seq<bool>, from: nat) {
    |x| == |ws| && forall i | from <= i < |ws| :: (ws[i] == 1.0 ==> x[i]) && (ws[i] == 0.0 ==> !x[i])
  }

  /** Measures that agree wherever the weights allow have the same expectation. */
  lemma {:induction false} Agree(g: Measure, h: Measure, ws: seq<real>, p: seq<bool>)
    requires |p| <= |ws|
    requires forall x: seq<bool> | p <= x && Possible(ws, x, |p|) :: g(x) == h(x)
    ensures Expect(g, ws, p) == Expect(h, ws, p)
    decreases |ws| - |p|
  {
    if |p| == |ws| {
      assert Possible(ws, p, |p|);
    } else {
      var w := ws[|p|];
      if w != 0.0 {
        forall x: seq<bool> | p + [true] <= x && Possible(ws, x, |p| + 1) ensures g(x) == h(x) {
          assert x[|p|] == (p + [true])[|p|];
          assert p <= x && Possible(ws, x, |p|);
        }
        Agree(g, h, ws, p + [true]);
      }
      if w != 1.0 {
        forall x: seq<bool> | p + [false] <= x && Possible(ws, x, |p| + 1) ensures g(x) == h(x) {
          assert x[|p|] == (p + [false])[|p|];
          assert p <= x && Possible(ws, x, |p|);
        }
        Agree(g, h, ws, p + [false]);
      }
    }
  }

  predicate SameExcept(x: seq<bool>, y: seq<bool>, i: nat) {
    |x| == |y| && forall k | 0 <= k < |x| && k != i :: x[k] == y[k]
  }

  /** The measure does not depend on bit i. */
  ghost predicate Blind(g: Measure, i: nat) {
    forall x: seq<bool>, y: seq<bool> | SameExcept(x, y, i) :: g(x) == g(y)
  }

  /** A measure that does not depend on bit i has the same expectation whatever that bit's weight. */
  lemma {:induction false} Ignore(g: Measure, ws: seq<real>, i: nat, c: real, p: seq<bool>)
    requires |p| <= i < |ws| && Blind(g, i)
    ensures Expect(g, ws[i := c], p) == Expect(g, ws, p)
    decreases |ws| - |p|
  {
    hide Blind;
    var vs := ws[i := c];
    if |p| == i {
      Later(g, ws, vs, p + [true]);
      Later(g, ws, vs, p + [false]);
      Flip(g, ws, i, p + [true], p + [false]);
    } else {
      Ignore(g, ws, i, c, p + [true]);
      Ignore(g, ws, i, c, p + [false]);
    }
  }

  lemma {:induction false} Flip(g: Measure, ws: seq<real>, i: nat, p: seq<bool>, q: seq<bool>)
    requires i < |p| <= |ws| && SameExcept(p, q, i) && Blind(g, i)
    ensures Expect(g, ws, p) == Expect(g, ws, q)
    decreases |ws| - |p|
  {
    if |p| < |ws| {
      hide Blind;
      Flip(g, ws, i, p + [true], q + [true]);
      Flip(g, ws, i, p + [false], q + [false]);
    }
  }

  predicate Probabilities(ws: seq<real>) {
    forall i | 0 <= i < |ws| :: 0.0 <= ws[i] <= 1.0
  }

  /** A probability-weighted mean lies between its bounds. */
  lemma Mean(w: real, x: real, y: real, lo: real, hi: real)
    requires 0.0 <= w <= 1.0 && lo <= x <= hi && lo <= y <= hi
    ensures lo <= Mix(w, x, y) <= hi
  {
    NonNegative(w, x - lo);
    NonNegative(1.0 - w, y - lo);
    NonNegative(w, hi - x);
    NonNegative(1.0 - w, hi - y);
    assert w * x + (1.0 - w) * y - lo == w * (x - lo) + (1.0 - w) * (y - lo);
    assert hi - (w * x + (1.0 - w) * y) == w * (hi - x) + (1.0 - w) * (hi - y);
  }

  lemma NonNegative(x: real, y: real)
    requires x >= 0.0 && y >= 0.0
    ensures x * y >= 0.0
  {
  }

  lemma {:induction false} Bounds(g: Measure, ws: seq<real>, p: seq<bool>)
    requires |p| <= |ws| && Probabilities(ws) && forall x: seq<bool> :: 0.0 <= g(x) <= 1.0
    ensures 0.0 <= Expect(g, ws, p) <= 1.0
    decreases |ws| - |p|
  {
    if |p| < |ws| {
      Bounds(g, ws, p + [true]);
      Bounds(g, ws, p + [false]);
      Mean(ws[|p|], Expect(g, ws, p + [true]), Expect(g, ws, p + [false]), 0.0, 1.0);
    }
  }

  lemma {:induction false} Constant(g: Measure, ws: seq<real>, c: real, p: seq<bool>)
    requires |p| <= |ws| && forall x: seq<bool> | |x| == |ws| :: g(x) == c
    ensures Expect(g, ws, p) == c
    decreases |ws| - |p|
  {
    if |p| < |ws| {
      Constant(g, ws, c, p + [true]);
      Constant(g, ws, c, p + [false]);
      assert ws[|p|] * c + (1.0 - ws[|p|]) * c == c;
    }
  }
}
