/** Signal probabilities and transition densities of a node from its truth table. */
module Density {
  import opened Binary
  import opened Expectation

  // ----- Truth tables -----

  /** Bit l of i. */
  predicate TestBit(i: nat, l: nat) {
    (i / Pow2(l)) % 2 == 1
  }

  /** The lowest m bits of i. */
  function Bits(i: nat, m: nat): (x: seq<bool>)
    ensures |x| == m
  {
    if m == 0 then [] else Bits(i, m - 1) + [TestBit(i, m - 1)]
  }

  lemma {:induction false} NumBits(i: nat, m: nat)
    ensures Num(Bits(i, m)) == i % Pow2(m)
  {
    if m > 0 {
      NumBits(i, m - 1);
      NumSnoc(Bits(i, m - 1), TestBit(i, m - 1));
      TopBit(i, Pow2(m - 1));
    }
  }

  lemma TopBit(i: nat, p: nat)
    requires p > 0
    ensures i % (2 * p) == i % p + Bit((i / p) % 2 == 1) * p
  {
    var q, r := i / p, i % p;
    assert i == p * q + r;
    var b := Bit(q % 2 == 1);
    assert q == 2 * (q / 2) + b;
    assert p * q == (2 * p) * (q / 2) + b * p by { assert p * (2 * (q / 2) + b) == 2 * p * (q / 2) + p * b; }
    Remainder(i, q / 2, r + b * p, 2 * p);
  }

  lemma SmallBits(i: nat, m: nat)
    requires i < Pow2(m)
    ensures Num(Bits(i, m)) == i
  {
    NumBits(i, m);
    Remainder(i, 0, i, Pow2(m));
  }

  /** Adding 2^m to a number below it sets bit m and changes no lower bit. */
  lemma HighBit(i: nat, m: nat)
    requires i < Pow2(m)
    ensures Bits(Pow2(m) + i, m + 1) == Bits(i, m) + [true]
    ensures Bits(i, m + 1) == Bits(i, m) + [false]
  {
    hide Num, Bits, Pow2;
    Pow2Next(m);
    SmallBits(i, m);
    NumSnoc(Bits(i, m), true);
    NumSnoc(Bits(i, m), false);
    SmallBits(Pow2(m) + i, m + 1);
    SmallBits(i, m + 1);
    NumInjective(Bits(Pow2(m) + i, m + 1), Bits(i, m) + [true]);
    NumInjective(Bits(i, m + 1), Bits(i, m) + [false]);
  }

  /** The function's value on an assignment to its inputs. */
  predicate Value(table: seq<bool>, x: seq<bool>) {
    Num(x) < |table| && table[Num(x)]
  }

  // ----- Sums over a table -----

  /** The first k rows' contributions to an expectation, over m inputs. */
  function RangeSum(g: Measure, ws: seq<real>, m: nat, k: nat): real
    requires m <= |ws|
  {
    if k == 0 then 0.0 else RangeSum(g, ws, m, k - 1) + Term(g, ws, Bits(k - 1, m))
  }

  /** One more input doubles the rows: rows k and 2^m + k share out what row k had. */
  lemma {:induction false} RangeDouble(g: Measure, ws: seq<real>, m: nat, k: nat)
    requires m < |ws| && k <= Pow2(m)
    ensures RangeSum(g, ws, m + 1, Pow2(m) + k) - RangeSum(g, ws, m + 1, Pow2(m)) + RangeSum(g, ws, m + 1, k) == RangeSum(g, ws, m, k)
  {
    hide RangeSum, Term, Bits, Pow2, Expect;
    if k == 0 {
      NoRows(g, ws, m);
      NoRows(g, ws, m + 1);
    } else {
      RangeDouble(g, ws, m, k - 1);
      HighBit(k - 1, m);
      RangeStep(g, ws, m + 1, Pow2(m) + (k - 1));
      RangeStep(g, ws, m + 1, k - 1);
      RangeStep(g, ws, m, k - 1);
      TermSplit(g, ws, Bits(k - 1, m));
      assert Pow2(m) + (k - 1) + 1 == Pow2(m) + k;
    }
  }

  lemma RangeStep(g: Measure, ws: seq<real>, m: nat, k: nat)
    requires m <= |ws|
    ensures RangeSum(g, ws, m, k + 1) == RangeSum(g, ws, m, k) + Term(g, ws, Bits(k, m))
  {
  }

  /** The sum over all rows of the table is the expectation. */
  lemma {:induction false} RangeIsExpect(g: Measure, ws: seq<real>, m: nat)
    requires m <= |ws|
    ensures RangeSum(g, ws, m, Pow2(m)) == Expect(g, ws, [])
  {
    hide Expect, Term, RangeSum;
    if m == 0 {
      NoBits(ws, 0);
      NoRows(g, ws, 0);
      RangeStep(g, ws, 0, 0);
      EmptyTerm(g, ws);
    } else {
      Pow2Next(m - 1);
      RangeIsExpect(g, ws, m - 1);
      RangeDouble(g, ws, m - 1, Pow2(m - 1));
    }
  }

  lemma EmptyTerm(g: Measure, ws: seq<real>)
    ensures Term(g, ws, []) == Expect(g, ws, [])
  {
    assert Weight(ws, []) == 1.0;
  }

  lemma NoRows(g: Measure, ws: seq<real>, m: nat)
    requires m <= |ws|
    ensures RangeSum(g, ws, m, 0) == 0.0
  {
  }

  function Indicator(table: seq<bool>): Measure {
    x => if Value(table, x) then 1.0 else 0.0
  }

  /** One row: its weight if the function is 1 there. */
  lemma RowValue(table: seq<bool>, ws: seq<real>, i: nat)
    requires |table| == Pow2(|ws|) && i < |table|
    ensures RangeSum(Indicator(table), ws, |ws|, i + 1)
         == RangeSum(Indicator(table), ws, |ws|, i) + (if table[i] then Weight(ws, Bits(i, |ws|)) else 0.0)
  {
    SmallBits(i, |ws|);
    hide Weight, Bits, Num;
    assert Expect(Indicator(table), ws, Bits(i, |ws|)) == Indicator(table)(Bits(i, |ws|));
    hide Expect;
  }

  lemma WeightSnoc(ws: seq<real>, i: nat, l: nat)
    requires l < |ws|
    ensures Weight(ws, Bits(i, l + 1)) == Weight(ws, Bits(i, l)) * (if TestBit(i, l) then ws[l] else 1.0 - ws[l])
  {
    assert (Bits(i, l) + [TestBit(i, l)])[..l] == Bits(i, l);
  }

  /** The loops of calc_probabilities_and_init_act_data: the probability that the function is 1. */
  method TableProbability(table: seq<bool>, ps: seq<real>) returns (total: real)
    requires |table| == Pow2(|ps|)
    ensures total == Expect(Indicator(table), ps, [])
  {
    hide Expect, RangeSum, Weight, Bits, TestBit;
    total := 0.0;
    assert RangeSum(Indicator(table), ps, |ps|, 0) == 0.0 by { NoRows(Indicator(table), ps, |ps|); }
    for k := 0 to |table|
      invariant total == RangeSum(Indicator(table), ps, |ps|, k)
    {
      RowValue(table, ps, k);
      if table[k] {
        var place, probVal := 1, 1.0;
        assert probVal == Weight(ps, Bits(k, 0)) by { NoBits(ps, k); }
        for l := 0 to |ps|
          invariant place == Pow2(l) && probVal == Weight(ps, Bits(k, l))
        {
          WeightSnoc(ps, k, l);
          assert TestBit(k, l) == ((k / place) % 2 == 1) by { BitAt(k, l); }
          if (k / place) % 2 == 1 {
            probVal := probVal * ps[l];
          } else {
            probVal := probVal * (1.0 - ps[l]);
          }
          place := place * 2;
        }
        total := total + probVal;
      }
    }
    RangeIsExpect(Indicator(table), ps, |ps|);
  }

  lemma NoBits(ws: seq<real>, i: nat)
    ensures Bits(i, 0) == [] && Weight(ws, []) == 1.0
  {
  }

  lemma BitAt(i: nat, l: nat)
    ensures TestBit(i, l) == ((i / Pow2(l)) % 2 == 1)
  {
  }

  // ----- Boolean difference -----

  /** The assignment with one more input, v, of value b. */
  function Insert(x: seq<bool>, v: nat, b: bool): (r: seq<bool>)
    requires v <= |x|
    ensures |r| == |x| + 1
  {
    x[..v] + [b] + x[v..]
  }

  /** Weighted bits of i with the weights doubled from bit v on: the index of row i with a 0 inserted at v. */
  function Spread(i: nat, v: nat, l: nat): nat {
    if l == 0 then 0 else Spread(i, v, l - 1) + (if TestBit(i, l - 1) then Pow2(if l - 1 >= v then l else l - 1) else 0)
  }

  lemma {:induction false} SpreadIsInsert(i: nat, v: nat, l: nat)
    ensures l <= v ==> Spread(i, v, l) == Num(Bits(i, l))
    ensures v <= l ==> Spread(i, v, l) == Num(Insert(Bits(i, l), v, false))
  {
    hide Bits, TestBit, Num, Pow2, Spread;
    if l == 0 {
      NoSpread(i, v);
      assert Insert([], 0, false) == [false] == [] + [false];
      NumSnoc([], false);
    } else {
      SpreadIsInsert(i, v, l - 1);
      SpreadUnfold(i, v, l - 1);
      BitsSnoc(i, l);
      var x, b := Bits(i, l - 1), TestBit(i, l - 1);
      if v < l {
        assert Insert(x + [b], v, false) == Insert(x, v, false) + [b];
        NumSnoc(Insert(x, v, false), b);
      } else {
        NumSnoc(x, b);
        if v == l {
          assert Insert(x + [b], l, false) == (x + [b]) + [false];
          NumSnoc(x + [b], false);
        }
      }
    }
  }

  lemma SpreadUnfold(i: nat, v: nat, l: nat)
    ensures Spread(i, v, l + 1) == Spread(i, v, l) + Bit(TestBit(i, l)) * Pow2(if l >= v then l + 1 else l)
  {
  }

  lemma BitsSnoc(i: nat, l: nat)
    requires l > 0
    ensures Bits(i, l) == Bits(i, l - 1) + [TestBit(i, l - 1)]
  {
  }

  /** Setting the inserted bit adds its weight. */
  lemma InsertSkip(x: seq<bool>, v: nat)
    requires v <= |x|
    ensures Num(Insert(x, v, true)) == Num(Insert(x, v, false)) + Pow2(v)
    ensures Num(Insert(x, v, true)) < Pow2(|x| + 1)
  {
    hide Num, Pow2;
    NumAppend(x[..v] + [true], x[v..]);
    NumAppend(x[..v] + [false], x[v..]);
    NumSnoc(x[..v], true);
    NumSnoc(x[..v], false);
    NumBound(Insert(x, v, true));
  }

  /** The table of f with input v at 0, xor f with input v at 1. */
  predicate IsDifference(d: seq<bool>, table: seq<bool>, n: nat, v: nat)
    requires v < n
  {
    |d| == Pow2(n - 1)
    && forall i | 0 <= i < |d| :: d[i] == DifferenceAt(table, n, v, i)
  }

  predicate DifferenceAt(table: seq<bool>, n: nat, v: nat, i: nat)
    requires v < n
  {
    Value(table, Insert(Bits(i, n - 1), v, false)) != Value(table, Insert(Bits(i, n - 1), v, true))
  }

  method BooleanDifference(table: seq<bool>, n: nat, v: nat) returns (d: seq<bool>)
    requires n > 1 && v < n && |table| == Pow2(n)
    ensures IsDifference(d, table, n, v)
  {
    hide Bits, TestBit, Num, Spread, Value, DifferenceAt;
    var skipSize := PowerOfTwo(v);
    var size := PowerOfTwo(n - 1);
    d := [];
    for i := 0 to size
      invariant |d| == i && forall k | 0 <= k < i :: d[k] == DifferenceAt(table, n, v, k)
    {
      var place, indexPlus, index := 1, 1, 0;
      assert Spread(i, v, 0) == 0 by { NoSpread(i, v); }
      for l := 0 to n - 1
        invariant place == Pow2(l) && indexPlus == Pow2(if l > v then l + 1 else l) && index == Spread(i, v, l)
      {
        SpreadStep(i, v, l);
        if l == v {
          indexPlus := indexPlus * 2;
        }
        if (i / place) % 2 == 1 {
          index := index + indexPlus;
        }
        place := place * 2;
        indexPlus := indexPlus * 2;
      }
      DifferenceRow(table, n, v, i);
      d := d + [table[index] != table[index + skipSize]];
    }
  }

  method PowerOfTwo(n: nat) returns (p: nat)
    ensures p == Pow2(n)
  {
    p := 1;
    for i := 0 to n
      invariant p == Pow2(i)
    {
      p := p * 2;
    }
  }

  lemma NoSpread(i: nat, v: nat)
    ensures Spread(i, v, 0) == 0 && Bits(i, 0) == [] && Num([]) == 0
  {
  }

  lemma SpreadStep(i: nat, v: nat, l: nat)
    ensures Spread(i, v, l + 1) == Spread(i, v, l) + (if (i / Pow2(l)) % 2 == 1 then Pow2(if l >= v then l + 1 else l) else 0)
  {
  }

  lemma DifferenceRow(table: seq<bool>, n: nat, v: nat, i: nat)
    requires v < n && |table| == Pow2(n)
    ensures Spread(i, v, n - 1) + Pow2(v) < |table|
    ensures DifferenceAt(table, n, v, i) == (table[Spread(i, v, n - 1)] != table[Spread(i, v, n - 1) + Pow2(v)])
  {
    hide Num, Pow2, Spread, Bits;
    SpreadIsInsert(i, v, n - 1);
    InsertSkip(Bits(i, n - 1), v);
  }

  // ----- Density -----

  /** The inputs other than v. */
  function Drop<T>(xs: seq<T>, v: nat): (r: seq<T>)
    requires v < |xs|
    ensures |r| == |xs| - 1
  {
    xs[..v] + xs[v + 1..]
  }

  /** Changing input v changes the function. */
  function Sensitive(table: seq<bool>, v: nat): Measure {
    x => if v < |x| && Value(table, x[v := true]) != Value(table, x[v := false]) then 1.0 else 0.0
  }

  /** The probability, over the inputs, that changing input v changes the function. */
  function Sensitivity(table: seq<bool>, v: nat, ps: seq<real>): real {
    Expect(Sensitive(table, v), ps, [])
  }

  /** A measure of all inputs as a measure of the others, with v fixed. */
  function Section(g: Measure, v: nat, b: bool): Measure {
    y => if v <= |y| then g(Insert(y, v, b)) else 0.0
  }

  lemma {:induction false} SectionAfter(g: Measure, ws: seq<real>, v: nat, b: bool, p: seq<bool>)
    requires v <= |p| < |ws|
    ensures Expect(g, ws, Insert(p, v, b)) == Expect(Section(g, v, b), Drop(ws, v), p)
    decreases |ws| - |p|
  {
    hide Mix;
    if |p| + 1 < |ws| {
      SectionAfter(g, ws, v, b, p + [true]);
      SectionAfter(g, ws, v, b, p + [false]);
      assert Insert(p + [true], v, b) == Insert(p, v, b) + [true];
      assert Insert(p + [false], v, b) == Insert(p, v, b) + [false];
    }
  }

  /** Fixing an input by its weight is fixing its value. */
  lemma {:induction false} SectionExpect(g: Measure, ws: seq<real>, v: nat, b: bool, p: seq<bool>)
    requires |p| <= v < |ws|
    ensures Expect(g, ws[v := if b then 1.0 else 0.0], p) == Expect(Section(g, v, b), Drop(ws, v), p)
    decreases v - |p|
  {
    var vs := ws[v := if b then 1.0 else 0.0];
    if |p| == v {
      SectionAfter(g, vs, v, b, p);
      assert Insert(p, v, b) == p + [b] && Drop(vs, v) == Drop(ws, v);
      Certain(Expect(g, vs, p + [true]), Expect(g, vs, p + [false]));
    } else {
      SectionExpect(g, ws, v, b, p + [true]);
      SectionExpect(g, ws, v, b, p + [false]);
    }
  }

  /** The difference table's probability over the other inputs is the sensitivity over all of them. */
  lemma DifferenceIsSensitivity(d: seq<bool>, table: seq<bool>, ps: seq<real>, v: nat)
    requires v < |ps| && |table| == Pow2(|ps|) && IsDifference(d, table, |ps|, v)
    ensures Expect(Indicator(d), Drop(ps, v), []) == Sensitivity(table, v, ps)
  {
    hide Expect, Value, IsDifference, Num, Pow2;
    var g := Sensitive(table, v);
    SensitiveBlind(table, v);
    Ignore(g, ps, v, 1.0, []);
    SectionExpect(g, ps, v, true, []);
    forall y: seq<bool> | [] <= y && Possible(Drop(ps, v), y, 0) ensures Indicator(d)(y) == Section(g, v, true)(y) {
      DifferenceValue(d, table, |ps|, v, y);
      assert Insert(y, v, true)[v := true] == Insert(y, v, true) && Insert(y, v, true)[v := false] == Insert(y, v, false);
    }
    Agree(Indicator(d), Section(g, v, true), Drop(ps, v), []);
  }

  lemma SensitiveBlind(table: seq<bool>, v: nat)
    ensures Blind(Sensitive(table, v), v)
  {
    forall x: seq<bool>, y: seq<bool> | SameExcept(x, y, v) ensures Sensitive(table, v)(x) == Sensitive(table, v)(y) {
      if v < |x| {
        assert x[v := true] == y[v := true] && x[v := false] == y[v := false];
      }
    }
  }

  lemma DifferenceValue(d: seq<bool>, table: seq<bool>, n: nat, v: nat, y: seq<bool>)
    requires v < n && IsDifference(d, table, n, v) && |y| == n - 1
    ensures Value(d, y) == (Value(table, Insert(y, v, false)) != Value(table, Insert(y, v, true)))
  {
    var i := Num(y);
    NumBound(y);
    SmallBits(i, n - 1);
    NumInjective(Bits(i, n - 1), y);
    hide Num, Bits;
    assert d[i] == DifferenceAt(table, n, v, i);
  }

  lemma {:induction false} LooseLoop(v: nat, l: nat)
    ensures SkipIndex(v, l + 1) == (if l == v then SkipIndex(v, l) + 2 else SkipIndex(v, l) + 1)
  {
  }

  /** The input read last after l inputs have been read, skipping v; -1 before the first. */
  function SkipIndex(v: nat, l: nat): int {
    if l > v then l else l - 1
  }

  /** The difference's probability times the input's own density; the probability is capped at 1 against rounding. */
  method CalcDensity(ps: seq<real>, v: nat, difference: seq<bool>, inputDensity: real) returns (r: real)
    requires v < |ps| && |difference| == Pow2(|ps| - 1) && Probabilities(ps)
    ensures r == Expect(Indicator(difference), Drop(ps, v), []) * inputDensity
  {
    hide Expect, RangeSum, Weight, Bits, TestBit, Probabilities;
    var total := 0.0;
    ghost var ws := Drop(ps, v);
    assert RangeSum(Indicator(difference), ws, |ws|, 0) == 0.0 by { NoRows(Indicator(difference), ws, |ws|); }
    for i := 0 to |difference|
      invariant total == RangeSum(Indicator(difference), ws, |ws|, i)
    {
      RowValue(difference, ws, i);
      if difference[i] {
        var place, probVal, index := 1, 1.0, -1;
        assert probVal == Weight(ws, Bits(i, 0)) by { NoBits(ws, i); }
        for l := 0 to |ps| - 1
          invariant place == Pow2(l) && index == SkipIndex(v, l) && probVal == Weight(ws, Bits(i, l))
        {
          LooseLoop(v, l);
          WeightSnoc(ws, i, l);
          if l == v {
            index := index + 2;
          } else {
            index := index + 1;
          }
          assert TestBit(i, l) == ((i / place) % 2 == 1) by { BitAt(i, l); }
          if (i / place) % 2 == 1 {
            probVal := probVal * ps[index];
          } else {
            probVal := probVal * (1.0 - ps[index]);
          }
          place := place * 2;
        }
        total := total + probVal;
      }
    }
    RangeIsExpect(Indicator(difference), ws, |ws|);
    ProbabilityBounds(difference, ps, v);
    if total > 1.0 {
      total := 1.0;
    }
    r := total * inputDensity;
  }

  lemma ProbabilityBounds(d: seq<bool>, ps: seq<real>, v: nat)
    requires v < |ps| && Probabilities(ps)
    ensures 0.0 <= Expect(Indicator(d), Drop(ps, v), []) <= 1.0
  {
    Bounds(Indicator(d), Drop(ps, v), []);
  }

  /** The density of a node: the input densities, each weighted by the node's sensitivity to the input. */
  function DensitySum(table: seq<bool>, ps: seq<real>, ds: seq<real>, m: nat): real
    requires m <= |ds|
  {
    if m == 0 then 0.0 else DensitySum(table, ps, ds, m - 1) + Sensitivity(table, m - 1, ps) * ds[m - 1]
  }

  /** calc_transition_density for a function node: a special case for one input, the weighted sum for more. */
  method NodeDensity(table: seq<bool>, ps: seq<real>, ds: seq<real>) returns (density: real)
    requires |ps| == |ds| && |table| == Pow2(|ps|) && Probabilities(ps)
    ensures density == DensitySum(table, ps, ds, |ds|)
  {
    if |ps| == 1 {
      OneInput(table, ps, ds);
      density := if table[0] != table[1] then ds[0] else 0.0;
    } else {
      density := 0.0;
      for m := 0 to |ps|
        invariant density == DensitySum(table, ps, ds, m)
      {
        var difference := BooleanDifference(table, |ps|, m);
        var part := CalcDensity(ps, m, difference, ds[m]);
        DifferenceIsSensitivity(difference, table, ps, m);
        density := density + part;
      }
    }
  }

  lemma OneInput(table: seq<bool>, ps: seq<real>, ds: seq<real>)
    requires |ps| == |ds| == 1 && |table| == Pow2(1)
    ensures |table| == 2 && DensitySum(table, ps, ds, 1) == if table[0] != table[1] then ds[0] else 0.0
  {
    hide Expect, Num, DensitySum, Mix;
    Pow2Next(0);
    var c := if table[0] != table[1] then 1.0 else 0.0;
    forall x: seq<bool> | |x| == 1 ensures Sensitive(table, 0)(x) == c {
      assert x[0 := true] == [true] && x[0 := false] == [false];
      OneBit();
    }
    Constant(Sensitive(table, 0), ps, c, []);
    DensityUnfold(table, ps, ds, 0);
  }

  lemma OneBit()
    ensures Num([true]) == 1 && Num([false]) == 0 && Pow2(0) == 1
  {
    NumSnoc([], true);
    NumSnoc([], false);
    assert [] + [true] == [true] && [] + [false] == [false];
  }

  lemma DensityUnfold(table: seq<bool>, ps: seq<real>, ds: seq<real>, m: nat)
    requires m < |ds|
    ensures DensitySum(table, ps, ds, 0) == 0.0
    ensures DensitySum(table, ps, ds, m + 1) == DensitySum(table, ps, ds, m) + Sensitivity(table, m, ps) * ds[m]
  {
  }

  function Total(ds: seq<real>, m: nat): real
    requires m <= |ds|
  {
    if m == 0 then 0.0 else Total(ds, m - 1) + ds[m - 1]
  }

  /** A node changes no more often than its inputs together. */
  lemma {:induction false} DensityBound(table: seq<bool>, ps: seq<real>, ds: seq<real>, m: nat)
    requires m <= |ds| && Probabilities(ps) && forall i | 0 <= i < |ds| :: ds[i] >= 0.0
    ensures 0.0 <= DensitySum(table, ps, ds, m) <= Total(ds, m)
  {
    if m > 0 {
      DensityBound(table, ps, ds, m - 1);
      Bounds(Sensitive(table, m - 1), ps, []);
      var s := Sensitivity(table, m - 1, ps);
      NonNegative(s, ds[m - 1]);
      NonNegative(1.0 - s, ds[m - 1]);
    }
  }

  /** The sensitivity bounds the difference between the function's probability with input v at 1 and at 0. */
  lemma SensitivityBound(table: seq<bool>, ps: seq<real>, v: nat)
    requires v < |ps| && Probabilities(ps)
    ensures 0.0 <= Sensitivity(table, v, ps) <= 1.0
    ensures -Sensitivity(table, v, ps)
         <= Expect(Indicator(table), ps[v := 1.0], []) - Expect(Indicator(table), ps[v := 0.0], [])
         <= Sensitivity(table, v, ps)
  {
    hide Expect, Value, Mix;
    var f, g := Indicator(table), Sensitive(table, v);
    Bounds(g, ps, []);
    SensitiveBlind(table, v);
    Ignore(g, ps, v, 1.0, []);
    SectionExpect(g, ps, v, true, []);
    SectionExpect(f, ps, v, true, []);
    SectionExpect(f, ps, v, false, []);
    forall y: seq<bool> | |y| == |ps| - 1
      ensures -Section(g, v, true)(y) <= Section(f, v, true)(y) - Section(f, v, false)(y) <= Section(g, v, true)(y)
    {
      assert Insert(y, v, true)[v := true] == Insert(y, v, true) && Insert(y, v, true)[v := false] == Insert(y, v, false);
    }
    Close(Section(f, v, true), Section(f, v, false), Section(g, v, true), Drop(ps, v), []);
  }

  lemma {:induction false} Close(f: Measure, h: Measure, g: Measure, ws: seq<real>, p: seq<bool>)
    requires |p| <= |ws| && Probabilities(ws)
    requires forall y: seq<bool> | |y| == |ws| :: -g(y) <= f(y) - h(y) <= g(y)
    ensures -Expect(g, ws, p) <= Expect(f, ws, p) - Expect(h, ws, p) <= Expect(g, ws, p)
    decreases |ws| - |p|
  {
    if |p| < |ws| {
      Close(f, h, g, ws, p + [true]);
      Close(f, h, g, ws, p + [false]);
      MixClose(ws[|p|], Expect(f, ws, p + [true]), Expect(f, ws, p + [false]), Expect(h, ws, p + [true]), Expect(h, ws, p + [false]),
               Expect(g, ws, p + [true]), Expect(g, ws, p + [false]));
    }
  }

  lemma MixClose(w: real, f1: real, f0: real, h1: real, h0: real, g1: real, g0: real)
    requires 0.0 <= w <= 1.0 && -g1 <= f1 - h1 <= g1 && -g0 <= f0 - h0 <= g0
    ensures -Mix(w, g1, g0) <= Mix(w, f1, f0) - Mix(w, h1, h0) <= Mix(w, g1, g0)
  {
    hide Mix;
    Mean(w, g1 - (f1 - h1), g0 - (f0 - h0), 0.0, g1 + g0 - (f1 - h1) - (f0 - h0));
    Mean(w, g1 + (f1 - h1), g0 + (f0 - h0), 0.0, g1 + g0 + (f1 - h1) + (f0 - h0));
    MixLinear(w, g1, g0, f1 - h1, f0 - h0);
    MixLinear(w, f1, f0, h1, h0);
  }

  lemma MixLinear(w: real, x: real, y: real, u: real, v: real)
    ensures Mix(w, x - u, y - v) == Mix(w, x, y) - Mix(w, u, v)
    ensures Mix(w, x + u, y + v) == Mix(w, x, y) + Mix(w, u, v)
  {
    assert w * (x - u) == w * x - w * u && (1.0 - w) * (y - v) == (1.0 - w) * y - (1.0 - w) * v;
    assert w * (x + u) == w * x + w * u && (1.0 - w) * (y + v) == (1.0 - w) * y + (1.0 - w) * v;
  }
}
