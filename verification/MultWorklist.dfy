/** The work list that splits multipliers until each fits the hard multiplier block. */
module MultWorklist {
  import opened Division

  /** A multiplier's operand widths. */
  datatype Mult = Mult(a: nat, b: nat)

  predicate Positive(ms: seq<Mult>) {
    forall i | 0 <= i < |ms| :: ms[i].a > 0 && ms[i].b > 0
  }

  /** The multiplier fits a block of h1 by h2, with its operands in one order or the other. */
  predicate InBlock(m: Mult, h1: nat, h2: nat) {
    (m.a <= h1 && m.b <= h2) || (m.a <= h2 && m.b <= h1)
  }

  predicate AllInBlock(ms: seq<Mult>, h1: nat, h2: nat) {
    forall i | 0 <= i < |ms| :: InBlock(ms[i], h1, h2)
  }

  /** Partial-product bits. */
  function Area(ms: seq<Mult>): nat {
    if ms == [] then 0 else ms[0].a * ms[0].b + Area(ms[1..])
  }

  /** Splits that could still happen: a multiplier of n partial-product bits can be split at most n - 1 times. */
  function Work(ms: seq<Mult>): nat {
    if ms == [] then 0 else (if ms[0].a * ms[0].b == 0 then 0 else 2 * (ms[0].a * ms[0].b) - 1) + Work(ms[1..])
  }

  /** Blocks of s by s that cover the multipliers. */
  function Blocks(ms: seq<Mult>, s: nat): int
    requires s > 0
  {
    if ms == [] then 0 else Ceil(ms[0].a, s) * Ceil(ms[0].b, s) + Blocks(ms[1..], s)
  }

  /**
   * What the work list does with its head: nothing is left to split, or the parts. The four parts of a split on both
   * operands, and the two of a split on one, are pushed in the source's order.
   */
  function Parts(m: Mult, sizeA: nat, sizeB: nat): (ps: seq<Mult>)
    ensures m.a > sizeA > 0 || m.b > sizeB > 0 ==> |ps| >= 2
  {
    if m.a > sizeA && m.b > sizeB then
      var a1, b1 := sizeA, sizeB;
      var a0, b0 := m.a - sizeA, m.b - sizeB;
      [Mult(a1, b0), Mult(a0, b1), Mult(a1, b1), Mult(a0, b0)]
    else if m.a > sizeA then [Mult(sizeA, m.b), Mult(m.a - sizeA, m.b)]
    else if m.b > sizeB then [Mult(m.a, m.b - sizeB), Mult(m.a, sizeB)]
    else []
  }

  // ----- What a split keeps -----

  lemma {:induction false} AreaAppend(xs: seq<Mult>, ys: seq<Mult>)
    ensures Area(xs + ys) == Area(xs) + Area(ys)
  {
    if xs == [] {
      assert xs + ys == ys;
    } else {
      assert (xs + ys)[1..] == xs[1..] + ys;
      AreaAppend(xs[1..], ys);
    }
  }

  lemma {:induction false} WorkAppend(xs: seq<Mult>, ys: seq<Mult>)
    ensures Work(xs + ys) == Work(xs) + Work(ys)
  {
    if xs == [] {
      assert xs + ys == ys;
    } else {
      assert (xs + ys)[1..] == xs[1..] + ys;
      WorkAppend(xs[1..], ys);
    }
  }

  lemma {:induction false} BlocksAppend(xs: seq<Mult>, ys: seq<Mult>, s: nat)
    requires s > 0
    ensures Blocks(xs + ys, s) == Blocks(xs, s) + Blocks(ys, s)
  {
    if xs == [] {
      assert xs + ys == ys;
    } else {
      assert (xs + ys)[1..] == xs[1..] + ys;
      BlocksAppend(xs[1..], ys, s);
    }
  }

  lemma Cross(a0: nat, a1: nat, b0: nat, b1: nat)
    ensures (a0 + a1) * (b0 + b1) == a0 * b0 + a0 * b1 + a1 * b0 + a1 * b1
  {
  }

  lemma Positives(a: nat, b: nat)
    requires a > 0 && b > 0
    ensures a * b >= 1
  {
  }

  lemma One(m: Mult, s: nat)
    requires s > 0
    ensures Area([m]) == m.a * m.b
    ensures Work([m]) == if m.a * m.b == 0 then 0 else 2 * (m.a * m.b) - 1
    ensures Blocks([m], s) == Ceil(m.a, s) * Ceil(m.b, s)
  {
    assert [m][1..] == [];
  }

  lemma Two(m: Mult, n: Mult, s: nat)
    requires s > 0
    ensures Area([m, n]) == m.a * m.b + n.a * n.b
    ensures m.a * m.b > 0 && n.a * n.b > 0 ==> Work([m, n]) == 2 * (m.a * m.b) + 2 * (n.a * n.b) - 2
    ensures Blocks([m, n], s) == Ceil(m.a, s) * Ceil(m.b, s) + Ceil(n.a, s) * Ceil(n.b, s)
  {
    hide *;
    assert [m, n] == [m] + [n];
    One(m, s);
    One(n, s);
    AreaAppend([m], [n]);
    WorkAppend([m], [n]);
    BlocksAppend([m], [n], s);
  }

  lemma Four(m: Mult, n: Mult, o: Mult, p: Mult, s: nat)
    requires s > 0
    ensures Area([m, n, o, p]) == Area([m, n]) + Area([o, p])
    ensures Work([m, n, o, p]) == Work([m, n]) + Work([o, p])
    ensures Blocks([m, n, o, p], s) == Blocks([m, n], s) + Blocks([o, p], s)
  {
    hide *;
    assert [m, n, o, p] == [m, n] + [o, p];
    AreaAppend([m, n], [o, p]);
    WorkAppend([m, n], [o, p]);
    BlocksAppend([m, n], [o, p], s);
  }

  /** The parts of a split have its area, less work, and, for a square block, need as many blocks. */
  lemma SplitKeeps(m: Mult, sizeA: nat, sizeB: nat)
    requires m.a > 0 && m.b > 0 && sizeA > 0 && sizeB > 0 && (m.a > sizeA || m.b > sizeB)
    ensures Positive(Parts(m, sizeA, sizeB))
    ensures Area(Parts(m, sizeA, sizeB)) == m.a * m.b
    ensures Work(Parts(m, sizeA, sizeB)) < 2 * (m.a * m.b) - 1
    ensures sizeA == sizeB ==> Blocks(Parts(m, sizeA, sizeB), sizeA) == Ceil(m.a, sizeA) * Ceil(m.b, sizeA)
  {
    if m.a > sizeA && m.b > sizeB {
      BothKeeps(m.a - sizeA, sizeA, m.b - sizeB, sizeB);
    } else if m.a > sizeA {
      FirstKeeps(m.a - sizeA, sizeA, m.b);
    } else {
      SecondKeeps(m.a, m.b - sizeB, sizeB);
    }
  }

  lemma BothKeeps(a0: nat, a1: nat, b0: nat, b1: nat)
    requires a0 > 0 && a1 > 0 && b0 > 0 && b1 > 0
    ensures var ps := [Mult(a1, b0), Mult(a0, b1), Mult(a1, b1), Mult(a0, b0)];
            && Area(ps) == (a0 + a1) * (b0 + b1) && Work(ps) == 2 * ((a0 + a1) * (b0 + b1)) - 4
            && (a1 == b1 ==> Blocks(ps, a1) == Ceil(a0 + a1, a1) * Ceil(b0 + b1, a1))
  {
    hide *;
    Cross(a0, a1, b0, b1);
    Positives(a0, b0);
    Positives(a0, b1);
    Positives(a1, b0);
    Positives(a1, b1);
    Two(Mult(a1, b0), Mult(a0, b1), a1);
    Two(Mult(a1, b1), Mult(a0, b0), a1);
    Four(Mult(a1, b0), Mult(a0, b1), Mult(a1, b1), Mult(a0, b0), a1);
    CeilStep(a0, a1);
    CeilOne(a1, a1);
    CeilStep(b0, a1);
    Cross(Ceil(a0, a1), 1, Ceil(b0, a1), 1);
  }

  lemma FirstKeeps(a0: nat, a1: nat, b: nat)
    requires a0 > 0 && a1 > 0 && b > 0
    ensures var ps := [Mult(a1, b), Mult(a0, b)];
            && Area(ps) == (a0 + a1) * b && Work(ps) == 2 * ((a0 + a1) * b) - 2
            && Blocks(ps, a1) == Ceil(a0 + a1, a1) * Ceil(b, a1)
  {
    hide *;
    Positives(a0, b);
    Positives(a1, b);
    Two(Mult(a1, b), Mult(a0, b), a1);
    Cross(a0, a1, b, 0);
    CeilStep(a0, a1);
    CeilOne(a1, a1);
    CeilBounds(b, a1);
    Cross(Ceil(a0, a1), 1, Ceil(b, a1), 0);
  }

  lemma SecondKeeps(a: nat, b0: nat, b1: nat)
    requires a > 0 && b0 > 0 && b1 > 0
    ensures var ps := [Mult(a, b0), Mult(a, b1)];
            && Area(ps) == a * (b0 + b1) && Work(ps) == 2 * (a * (b0 + b1)) - 2
            && Blocks(ps, b1) == Ceil(a, b1) * Ceil(b0 + b1, b1)
  {
    hide *;
    Positives(a, b0);
    Positives(a, b1);
    Two(Mult(a, b0), Mult(a, b1), b1);
    Cross(a, 0, b0, b1);
    CeilStep(b0, b1);
    CeilOne(b1, b1);
    CeilBounds(a, b1);
    Cross(Ceil(a, b1), 0, Ceil(b0, b1), 1);
  }

  // ----- The loop -----

  /** The loop's state: what is pending and done makes up the multipliers it began with. */
  ghost predicate Progress(ms: seq<Mult>, pending: seq<Mult>, done: seq<Mult>, sizeA: nat, sizeB: nat, h1: nat, h2: nat) {
    && h1 > 0 && h2 > 0 && ((sizeA == h1 && sizeB == h2) || (sizeA == h2 && sizeB == h1))
    && Positive(pending) && Positive(done) && AllInBlock(done, h1, h2)
    && Area(pending) + Area(done) == Area(ms)
    && (h1 == h2 ==> Blocks(pending, h1) + Blocks(done, h1) == Blocks(ms, h1))
  }

  lemma SplitStep(ms: seq<Mult>, pending: seq<Mult>, done: seq<Mult>, sizeA: nat, sizeB: nat, h1: nat, h2: nat)
    requires Progress(ms, pending, done, sizeA, sizeB, h1, h2) && pending != []
    requires pending[0].a > sizeA || pending[0].b > sizeB
    ensures Progress(ms, Parts(pending[0], sizeA, sizeB) + pending[1..], done, sizeA, sizeB, h1, h2)
    ensures Work(Parts(pending[0], sizeA, sizeB) + pending[1..]) < Work(pending)
  {
    hide Parts, Ceil;
    var ps := Parts(pending[0], sizeA, sizeB);
    SplitKeeps(pending[0], sizeA, sizeB);
    Positives(pending[0].a, pending[0].b);
    AreaAppend(ps, pending[1..]);
    WorkAppend(ps, pending[1..]);
    BlocksAppend(ps, pending[1..], h1);
  }

  lemma FitStep(ms: seq<Mult>, pending: seq<Mult>, done: seq<Mult>, sizeA: nat, sizeB: nat, h1: nat, h2: nat)
    requires Progress(ms, pending, done, sizeA, sizeB, h1, h2) && pending != []
    requires pending[0].a <= sizeA && pending[0].b <= sizeB
    ensures Progress(ms, pending[1..], done + [pending[0]], sizeA, sizeB, h1, h2)
    ensures Work(pending[1..]) < Work(pending)
  {
    Positives(pending[0].a, pending[0].b);
    AreaAppend(done, [pending[0]]);
    BlocksAppend(done, [pending[0]], h1);
    assert [pending[0]][1..] == [];
  }

  lemma {:induction false} DoneCounts(done: seq<Mult>, h1: nat, h2: nat)
    requires h1 > 0 && h2 > 0 && Positive(done) && AllInBlock(done, h1, h2)
    ensures |done| <= Area(done) <= |done| * (h1 * h2)
    ensures h1 == h2 ==> Blocks(done, h1) == |done|
  {
    if done != [] {
      assert InBlock(done[0], h1, h2);
      Smaller(done[0].a, done[0].b, h1, h2);
      if h1 == h2 {
        CeilOne(done[0].a, h1);
        CeilOne(done[0].b, h1);
      }
      assert AllInBlock(done[1..], h1, h2);
      hide Ceil, InBlock;
      DoneCounts(done[1..], h1, h2);
      Repeated(|done[1..]|, h1 * h2);
    }
  }

  lemma Repeated(n: nat, x: nat)
    ensures (n + 1) * x == x + n * x
  {
  }

  lemma Smaller(a: nat, b: nat, h1: nat, h2: nat)
    requires a > 0 && b > 0 && InBlock(Mult(a, b), h1, h2)
    ensures 1 <= a * b <= h1 * h2
  {
    if a <= h1 && b <= h2 {
      assert a * b <= h1 * b <= h1 * h2;
    } else {
      assert a * b <= h2 * b <= h2 * h1;
    }
  }

  // ----- The run -----

  function Larger(x: nat, y: nat): nat {
    if x < y then y else x
  }

  function Lesser(x: nat, y: nat): nat {
    if x < y then x else y
  }

  /** The sizes to compare a head with: exchanged is whether they stand with the smaller one first. */
  function SizeA(h1: nat, h2: nat, exchanged: bool): nat {
    if exchanged then Lesser(h1, h2) else Larger(h1, h2)
  }

  function SizeB(h1: nat, h2: nat, exchanged: bool): nat {
    if exchanged then Larger(h1, h2) else Lesser(h1, h2)
  }

  /** What is left whole, in order, of a list met with the sizes in that order. */
  function Run(pending: seq<Mult>, exchanged: bool, h1: nat, h2: nat): (done: seq<Mult>)
    requires h1 > 0 && h2 > 0 && Positive(pending)
    decreases Work(pending)
  {
    if pending == [] then []
    else
      var m, rest := pending[0], pending[1..];
      var now := exchanged != (m.a < m.b);
      var sizeA, sizeB := SizeA(h1, h2, now), SizeB(h1, h2, now);
      HeadWork(pending, sizeA, sizeB);
      if m.a > sizeA || m.b > sizeB then Run(Parts(m, sizeA, sizeB) + rest, now, h1, h2) else [m] + Run(rest, now, h1, h2)
  }

  lemma HeadWork(pending: seq<Mult>, sizeA: nat, sizeB: nat)
    requires Positive(pending) && pending != [] && sizeA > 0 && sizeB > 0
    ensures Positive(pending[1..]) && Work(pending[1..]) < Work(pending)
    ensures var m := pending[0];
            m.a > sizeA || m.b > sizeB ==>
              Positive(Parts(m, sizeA, sizeB) + pending[1..]) && Work(Parts(m, sizeA, sizeB) + pending[1..]) < Work(pending)
  {
    hide Parts, Area, Blocks, Ceil;
    var m := pending[0];
    Positives(m.a, m.b);
    if m.a > sizeA || m.b > sizeB {
      SplitKeeps(m, sizeA, sizeB);
      WorkAppend(Parts(m, sizeA, sizeB), pending[1..]);
    }
  }

  /**
   * Pops multipliers off the list and pushes their parts until every one fits. The block's sizes are exchanged whenever
   * a multiplier is narrower in a than in b, and stay exchanged for the multipliers after it.
   */
  method IterateMultipliers(ms: seq<Mult>, h1: nat, h2: nat) returns (done: seq<Mult>)
    requires h1 > 0 && h2 > 0 && Positive(ms)
    ensures Positive(done) && AllInBlock(done, h1, h2)
    ensures Area(done) == Area(ms)
    ensures |done| <= Area(ms) <= |done| * (h1 * h2)
    ensures h1 == h2 ==> |done| == Blocks(ms, h1)
    ensures done == Run(ms, false, h1, h2)
    ensures ms != [] && InBlock(ms[0], h1, h2) ==> done != [] && done[0] == ms[0]
  {
    hide Parts, Area, Work, Blocks, Run;
    var sizeA, sizeB := h1, h2;
    if sizeA < sizeB {
      sizeA, sizeB := sizeB, sizeA;
    }
    var multList := ms;
    done := [];
    ghost var exchanged := false;
    assert Progress(ms, multList, done, sizeA, sizeB, h1, h2) by { NoneDone(ms, h1, h2); }
    while multList != []
      invariant Progress(ms, multList, done, sizeA, sizeB, h1, h2)
      invariant sizeA == SizeA(h1, h2, exchanged) && sizeB == SizeB(h1, h2, exchanged)
      invariant done + Run(multList, exchanged, h1, h2) == Run(ms, false, h1, h2)
      decreases Work(multList)
    {
      var node := multList[0];
      ghost var before := exchanged;
      if node.a < node.b {
        sizeA, sizeB := sizeB, sizeA;
        exchanged := !exchanged;
      }
      RunHead(multList, before, h1, h2);
      if node.a > sizeA || node.b > sizeB {
        SplitStep(ms, multList, done, sizeA, sizeB, h1, h2);
        PushedParts(node, sizeA, sizeB, multList[1..]);
      } else {
        FitStep(ms, multList, done, sizeA, sizeB, h1, h2);
        assert done + ([node] + Run(multList[1..], exchanged, h1, h2)) == (done + [node]) + Run(multList[1..], exchanged, h1, h2);
      }
      multList := multList[1..];
      if node.a > sizeA && node.b > sizeB {
        var a1, a0, b1, b0 := sizeA, node.a - sizeA, sizeB, node.b - sizeB;
        multList := [Mult(a0, b0)] + multList;
        multList := [Mult(a1, b1)] + multList;
        multList := [Mult(a0, b1)] + multList;
        multList := [Mult(a1, b0)] + multList;
      } else if node.a > sizeA {
        var a1, a0 := sizeA, node.a - sizeA;
        multList := [Mult(a0, node.b)] + multList;
        multList := [Mult(a1, node.b)] + multList;
      } else if node.b > sizeB {
        var b1, b0 := sizeB, node.b - sizeB;
        multList := [Mult(node.a, b1)] + multList;
        multList := [Mult(node.a, b0)] + multList;
      } else {
        done := done + [node];
      }
    }
    NoneDone(multList, h1, h2);
    DoneCounts(done, h1, h2);
    RunEmpty(exchanged, h1, h2);
    assert done + [] == done;
    FirstStays(ms, h1, h2);
  }

  lemma RunEmpty(exchanged: bool, h1: nat, h2: nat)
    requires h1 > 0 && h2 > 0
    ensures Run([], exchanged, h1, h2) == []
  {
  }

  lemma RunHead(pending: seq<Mult>, exchanged: bool, h1: nat, h2: nat)
    requires h1 > 0 && h2 > 0 && Positive(pending) && pending != []
    ensures Positive(pending[1..])
    ensures var m := pending[0];
            var now := exchanged != (m.a < m.b);
            var sizeA, sizeB := SizeA(h1, h2, now), SizeB(h1, h2, now);
            if m.a > sizeA || m.b > sizeB then
              Positive(Parts(m, sizeA, sizeB) + pending[1..])
              && Run(pending, exchanged, h1, h2) == Run(Parts(m, sizeA, sizeB) + pending[1..], now, h1, h2)
            else Run(pending, exchanged, h1, h2) == [m] + Run(pending[1..], now, h1, h2)
  {
    hide Parts, Work;
    var m := pending[0];
    var now := exchanged != (m.a < m.b);
    HeadWork(pending, SizeA(h1, h2, now), SizeB(h1, h2, now));
  }

  /** A multiplier at the head stays whole if its wider operand is within the larger size, and within the smaller one when they are exchanged. */
  predicate StaysWhole(m: Mult, exchanged: bool, h1: nat, h2: nat) {
    InBlock(m, h1, h2) && (!exchanged || (m.a <= h1 && m.a <= h2 && m.b <= h1 && m.b <= h2))
  }

  /** The head of the list stays whole, or is split and more than it comes back. */
  lemma HeadExact(pending: seq<Mult>, exchanged: bool, h1: nat, h2: nat)
    requires h1 > 0 && h2 > 0 && Positive(pending) && pending != []
    ensures Positive(pending[1..])
    ensures var m := pending[0];
            if StaysWhole(m, exchanged, h1, h2) then Run(pending, exchanged, h1, h2) == [m] + Run(pending[1..], exchanged != (m.a < m.b), h1, h2)
            else |Run(pending, exchanged, h1, h2)| > |pending|
  {
    hide Parts, Work, Run;
    RunHead(pending, exchanged, h1, h2);
    var m := pending[0];
    var now := exchanged != (m.a < m.b);
    var sizeA, sizeB := SizeA(h1, h2, now), SizeB(h1, h2, now);
    if m.a > sizeA || m.b > sizeB {
      RunGrows(Parts(m, sizeA, sizeB) + pending[1..], now, h1, h2);
    }
  }

  lemma {:induction false} RunGrows(pending: seq<Mult>, exchanged: bool, h1: nat, h2: nat)
    requires h1 > 0 && h2 > 0 && Positive(pending)
    ensures |Run(pending, exchanged, h1, h2)| >= |pending|
    decreases Work(pending)
  {
    hide Parts, Work, Run;
    if pending != [] {
      var m := pending[0];
      var now := exchanged != (m.a < m.b);
      var sizeA, sizeB := SizeA(h1, h2, now), SizeB(h1, h2, now);
      HeadWork(pending, sizeA, sizeB);
      RunHead(pending, exchanged, h1, h2);
      if m.a > sizeA || m.b > sizeB {
        RunGrows(Parts(m, sizeA, sizeB) + pending[1..], now, h1, h2);
      } else {
        RunGrows(pending[1..], now, h1, h2);
      }
    }
  }

  /** A first multiplier that fits is left whole. */
  lemma FirstStays(ms: seq<Mult>, h1: nat, h2: nat)
    requires h1 > 0 && h2 > 0 && Positive(ms)
    ensures ms != [] && InBlock(ms[0], h1, h2) ==> Run(ms, false, h1, h2) != [] && Run(ms, false, h1, h2)[0] == ms[0]
  {
    hide Run;
    if ms != [] {
      HeadExact(ms, false, h1, h2);
    }
  }

  /** How many multipliers are narrower in a than in b. */
  function Narrow(ms: seq<Mult>): nat {
    if ms == [] then 0 else (if ms[0].a < ms[0].b then 1 else 0) + Narrow(ms[1..])
  }

  /** After k multipliers, the next one stays whole: it fits, and an odd number of narrow ones before it does not matter to it. */
  predicate StaysAt(ms: seq<Mult>, k: nat, h1: nat, h2: nat)
    requires k < |ms|
  {
    StaysWhole(ms[k], Narrow(ms[..k]) % 2 == 1, h1, h2)
  }

  lemma {:induction false} NarrowNext(ms: seq<Mult>, k: nat)
    requires k < |ms|
    ensures Narrow(ms[..k + 1]) == Narrow(ms[..k]) + if ms[k].a < ms[k].b then 1 else 0
  {
    if k == 0 {
      assert ms[..1][1..] == [] && ms[..0] == [];
    } else {
      NarrowNext(ms[1..], k - 1);
      assert ms[..k + 1][1..] == ms[1..][..k] && ms[..k][1..] == ms[1..][..k - 1];
    }
  }

  /** As long as every multiplier stays whole, they are met in the order of the list, the sizes exchanged once for each narrow one. */
  lemma {:induction false} WholePrefix(ms: seq<Mult>, k: nat, h1: nat, h2: nat)
    requires h1 > 0 && h2 > 0 && Positive(ms) && k <= |ms| && forall i: nat | i < k :: StaysAt(ms, i, h1, h2)
    ensures Positive(ms[k..]) && Run(ms, false, h1, h2) == ms[..k] + Run(ms[k..], Narrow(ms[..k]) % 2 == 1, h1, h2)
  {
    hide Run, Narrow, StaysWhole;
    if k == 0 {
      assert ms[..0] == [] && ms[0..] == ms;
      assert Narrow([]) == 0 by { NoneNarrow(); }
    } else {
      WholePrefix(ms, k - 1, h1, h2);
      NarrowNext(ms, k - 1);
      assert StaysAt(ms, k - 1, h1, h2);
      HeadExact(ms[k - 1..], Narrow(ms[..k - 1]) % 2 == 1, h1, h2);
      assert ms[k - 1..][1..] == ms[k..] && ms[..k] == ms[..k - 1] + [ms[k - 1]];
    }
  }

  lemma NoneNarrow()
    ensures Narrow([]) == 0
  {
  }

  /**
   * Nothing is split exactly when every multiplier fits, and those with an operand wider than the smaller size have an
   * even number of multipliers narrower in a than in b before them.
   */
  lemma NoneSplitExact(ms: seq<Mult>, h1: nat, h2: nat)
    requires h1 > 0 && h2 > 0 && Positive(ms)
    ensures Run(ms, false, h1, h2) == ms <==> forall k: nat | k < |ms| :: StaysAt(ms, k, h1, h2)
  {
    hide Run, StaysWhole;
    if k: nat :| k < |ms| && !StaysAt(ms, k, h1, h2) {
      var first := FirstSplit(ms, k, h1, h2);
      WholePrefix(ms, first, h1, h2);
      HeadExact(ms[first..], Narrow(ms[..first]) % 2 == 1, h1, h2);
      assert ms[first..][0] == ms[first] && !StaysAt(ms, first, h1, h2);
    } else {
      WholePrefix(ms, |ms|, h1, h2);
      RunEmpty(Narrow(ms[..|ms|]) % 2 == 1, h1, h2);
      assert ms[|ms|..] == [] && ms[..|ms|] == ms;
    }
  }

  lemma {:induction false} FirstSplit(ms: seq<Mult>, k: nat, h1: nat, h2: nat) returns (first: nat)
    requires k < |ms| && !StaysAt(ms, k, h1, h2)
    ensures first < |ms| && !StaysAt(ms, first, h1, h2) && forall i: nat | i < first :: StaysAt(ms, i, h1, h2)
  {
    hide StaysAt;
    if i: nat :| i < k && !StaysAt(ms, i, h1, h2) {
      first := FirstSplit(ms, i, h1, h2);
    } else {
      first := k;
    }
  }

  /** With a block of 25 by 18, two multipliers of 18 by 25 fit, and the second is split. */
  lemma SplitAlthoughItFits()
    ensures var m := Mult(18, 25);
            InBlock(m, 25, 18) && StaysAt([m, m], 0, 25, 18) && !StaysAt([m, m], 1, 25, 18) && Run([m, m], false, 25, 18) != [m, m]
  {
    var ms := [Mult(18, 25), Mult(18, 25)];
    assert ms[..0] == [];
    assert ms[..1] == [ms[0]] && [ms[0]][1..] == [];
    assert Narrow(ms[..1]) == 1;
    NoneSplitExact(ms, 25, 18);
    assert !StaysAt(ms, 1, 25, 18);
  }

  /** The parts pushed one at a time. */
  lemma PushedParts(m: Mult, sizeA: nat, sizeB: nat, rest: seq<Mult>)
    ensures m.a > sizeA && m.b > sizeB ==>
              [Mult(sizeA, m.b - sizeB)] + ([Mult(m.a - sizeA, sizeB)] + ([Mult(sizeA, sizeB)] + ([Mult(m.a - sizeA, m.b - sizeB)] + rest)))
              == Parts(m, sizeA, sizeB) + rest
    ensures m.a > sizeA && m.b <= sizeB ==> [Mult(sizeA, m.b)] + ([Mult(m.a - sizeA, m.b)] + rest) == Parts(m, sizeA, sizeB) + rest
    ensures m.a <= sizeA && m.b > sizeB ==> [Mult(m.a, m.b - sizeB)] + ([Mult(m.a, sizeB)] + rest) == Parts(m, sizeA, sizeB) + rest
  {
  }

  lemma NoneDone(ms: seq<Mult>, h1: nat, h2: nat)
    requires h1 > 0
    ensures Area([]) == 0 && Blocks([], h1) == 0 && Positive([]) && AllInBlock([], h1, h2)
  {
  }
}
