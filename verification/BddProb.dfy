/** Signal and switching probabilities computed over a decision diagram. */
module BddProb {
  import opened Expectation
  import opened Cube

  /** A decision diagram without complement edges. */
  datatype Bdd = Leaf(value: bool) | Node(index: nat, high: Bdd, low: Bdd)

  datatype Input = Input(staticProb: real, prob0to1: real, prob1to0: real)

  predicate Reads(b: Bdd, i: nat) {
    b.Node? && (b.index == i || Reads(b.high, i) || Reads(b.low, i))
  }

  /** No path tests an input twice; every ordered diagram is one of these. */
  predicate ReadOnce(b: Bdd) {
    b.Node? ==> !Reads(b.high, b.index) && !Reads(b.low, b.index) && ReadOnce(b.high) && ReadOnce(b.low)
  }

  predicate Within(b: Bdd, n: nat) {
    b.Node? ==> b.index < n && Within(b.high, n) && Within(b.low, n)
  }

  predicate Ordered(b: Bdd, from: nat) {
    b.Node? ==> from <= b.index && Ordered(b.high, b.index + 1) && Ordered(b.low, b.index + 1)
  }

  function Eval(b: Bdd, x: seq<bool>): bool {
    if b.Leaf? then b.value else if b.index < |x| && x[b.index] then Eval(b.high, x) else Eval(b.low, x)
  }

  lemma {:induction false} OrderedReads(b: Bdd, from: nat, i: nat)
    requires Ordered(b, from) && Reads(b, i)
    ensures from <= i
  {
    if b.index != i {
      if Reads(b.high, i) {
        OrderedReads(b.high, b.index + 1, i);
      } else {
        OrderedReads(b.low, b.index + 1, i);
      }
    }
  }

  lemma {:induction false} OrderedReadsOnce(b: Bdd, from: nat)
    requires Ordered(b, from)
    ensures ReadOnce(b)
  {
    if b.Node? {
      OrderedReadsOnce(b.high, b.index + 1);
      OrderedReadsOnce(b.low, b.index + 1);
      if Reads(b.high, b.index) {
        OrderedReads(b.high, b.index + 1, b.index);
      }
      if Reads(b.low, b.index) {
        OrderedReads(b.low, b.index + 1, b.index);
      }
    }
  }

  // ----- Probability of a phase -----

  /** The unmemoised recursion, when input i is next 1 with probability ws[i]. */
  function Prob(b: Bdd, ws: seq<real>, phase: bool): real
    requires Within(b, |ws|)
  {
    if b.Leaf? then (if b.value == phase then 1.0 else 0.0)
    else Mix(ws[b.index], Prob(b.high, ws, phase), Prob(b.low, ws, phase))
  }

  function Indicator(b: Bdd, phase: bool): Measure {
    x => if Eval(b, x) == phase then 1.0 else 0.0
  }

  lemma {:induction false} EvalBlind(b: Bdd, i: nat, x: seq<bool>, y: seq<bool>)
    requires !Reads(b, i) && SameExcept(x, y, i)
    ensures Eval(b, x) == Eval(b, y)
  {
    if b.Node? {
      EvalBlind(b.high, i, x, y);
      EvalBlind(b.low, i, x, y);
    }
  }

  lemma IndicatorBlind(b: Bdd, i: nat, phase: bool)
    requires !Reads(b, i)
    ensures Blind(Indicator(b, phase), i)
  {
    forall x: seq<bool>, y: seq<bool> | SameExcept(x, y, i) ensures Indicator(b, phase)(x) == Indicator(b, phase)(y) {
      EvalBlind(b, i, x, y);
    }
  }

  /** The recursion is the sum, over all assignments of next values that give the phase, of their probabilities. */
  lemma {:induction false} ProbIsExpect(b: Bdd, ws: seq<real>, phase: bool)
    requires Within(b, |ws|) && ReadOnce(b)
    ensures Prob(b, ws, phase) == Expect(Indicator(b, phase), ws, [])
  {
    var g := Indicator(b, phase);
    if b.Leaf? {
      Constant(g, ws, if b.value == phase then 1.0 else 0.0, []);
    } else {
      ProbIsExpect(b.high, ws, phase);
      ProbIsExpect(b.low, ws, phase);
      Split(g, ws, b.index, []);
      Cofactor(b, ws, phase, true);
      Cofactor(b, ws, phase, false);
      IndicatorBlind(b.high, b.index, phase);
      IndicatorBlind(b.low, b.index, phase);
      Ignore(Indicator(b.high, phase), ws, b.index, 1.0, []);
      Ignore(Indicator(b.low, phase), ws, b.index, 0.0, []);
    }
  }

  lemma Cofactor(b: Bdd, ws: seq<real>, phase: bool, high: bool)
    requires b.Node? && b.index < |ws|
    ensures var vs := ws[b.index := if high then 1.0 else 0.0];
            Expect(Indicator(b, phase), vs, []) == Expect(Indicator(if high then b.high else b.low, phase), vs, [])
  {
    var vs := ws[b.index := if high then 1.0 else 0.0];
    Agree(Indicator(b, phase), Indicator(if high then b.high else b.low, phase), vs, []);
  }

  /** The two phases are complementary. */
  lemma {:induction false} PhasesSum(b: Bdd, ws: seq<real>)
    requires Within(b, |ws|)
    ensures Prob(b, ws, true) + Prob(b, ws, false) == 1.0
  {
    if b.Node? {
      PhasesSum(b.high, ws);
      PhasesSum(b.low, ws);
      var w := ws[b.index];
      MixSum(w, Prob(b.high, ws, true), Prob(b.low, ws, true), Prob(b.high, ws, false), Prob(b.low, ws, false));
    }
  }

  lemma MixSum(w: real, a: real, b: real, c: real, d: real)
    requires a + c == 1.0 && b + d == 1.0
    ensures Mix(w, a, b) + Mix(w, c, d) == 1.0
  {
    assert w * a + w * c == w * (a + c);
    assert (1.0 - w) * b + (1.0 - w) * d == (1.0 - w) * (b + d);
  }

  lemma {:induction false} ProbBounds(b: Bdd, ws: seq<real>, phase: bool)
    requires Within(b, |ws|) && Probabilities(ws)
    ensures 0.0 <= Prob(b, ws, phase) <= 1.0
  {
    if b.Node? {
      ProbBounds(b.high, ws, phase);
      ProbBounds(b.low, ws, phase);
      Mean(ws[b.index], Prob(b.high, ws, phase), Prob(b.low, ws, phase), 0.0, 1.0);
    }
  }

  // ----- Literals as transition probabilities -----

  /** The probability that an input is next 1, given what the cube says of its present value. */
  function NextWeight(l: Literal, i: Input): real {
    if l == Zero then i.prob0to1 else if l == One then 1.0 - i.prob1to0 else i.staticProb
  }

  function NextWeights(cube: seq<Literal>, inputs: seq<Input>): (ws: seq<real>)
    requires |cube| == |inputs|
    ensures |ws| == |inputs|
  {
    seq(|inputs|, i requires 0 <= i < |inputs| => NextWeight(cube[i], inputs[i]))
  }

  /** calc_cube_switch_prob with its table of visited nodes. */
  class CubeProb {
    const cube: PackedCube
    const inputs: seq<Input>
    const phase: bool
    var visited: map<Bdd, real>

    constructor (cube: PackedCube, inputs: seq<Input>, phase: bool)
      ensures this.cube == cube && this.inputs == inputs && this.phase == phase && visited == map[]
    {
      this.cube := cube;
      this.inputs := inputs;
      this.phase := phase;
      visited := map[];
    }

    ghost predicate Valid()
      reads cube.words
    {
      cube.Valid() && cube.numLiterals == |inputs| && Proper(cube.Lits())
    }

    ghost function Weights(): (ws: seq<real>)
      requires Valid()
      reads cube.words
      ensures |ws| == |inputs|
    {
      NextWeights(cube.Lits(), inputs)
    }

    /** Every entry is the unmemoised result. */
    ghost predicate Sound()
      requires Valid()
      reads this, cube.words
    {
      forall b | b in visited :: Within(b, |inputs|) && visited[b] == Prob(b, Weights(), phase)
    }

    method Recur(b: Bdd) returns (p: real)
      requires Valid() && Sound() && Within(b, |inputs|)
      modifies this`visited
      ensures Valid() && Sound()
      ensures p == Prob(b, Weights(), phase)
      decreases b
    {
      hide NextWeights, NextWeight, Mix, Literals, Fits, GetLiteral;
      if b.Leaf? {
        return if b.value == phase then 1.0 else 0.0;
      }
      if b in visited {
        return visited[b];
      }
      var high := Recur(b.high);
      var low := Recur(b.low);
      var literal := cube.Get(b.index);
      var info := inputs[b.index];
      if literal == Zero {
        p := info.prob0to1 * high + (1.0 - info.prob0to1) * low;
      } else if literal == One {
        p := (1.0 - info.prob1to0) * high + info.prob1to0 * low;
      } else {
        p := info.staticProb * high + (1.0 - info.staticProb) * low;
      }
      NextMix(cube.Lits(), inputs, b.index, high, low);
      visited := visited[b := p];
    }
  }

  /** The three cases of the literal. */
  lemma NextMix(cube: seq<Literal>, inputs: seq<Input>, i: nat, t: real, e: real)
    requires |cube| == |inputs| && i < |inputs| && cube[i] != Bad
    ensures Mix(NextWeights(cube, inputs)[i], t, e) ==
            if cube[i] == Zero then inputs[i].prob0to1 * t + (1.0 - inputs[i].prob0to1) * e
            else if cube[i] == One then (1.0 - inputs[i].prob1to0) * t + inputs[i].prob1to0 * e
            else inputs[i].staticProb * t + (1.0 - inputs[i].staticProb) * e
  {
  }

  method CalcCubeSwitchProb(b: Bdd, cube: PackedCube, inputs: seq<Input>, phase: bool) returns (p: real)
    requires cube.Valid() && cube.numLiterals == |inputs| && Proper(cube.Lits()) && Within(b, |inputs|)
    ensures p == Prob(b, NextWeights(cube.Lits(), inputs), phase)
  {
    var table := new CubeProb(cube, inputs, phase);
    p := table.Recur(b);
  }

  // ----- Switching -----

  /** The part of a path's probability that goes down a branch. */
  function Share(p1: real, s: real, high: bool): real {
    if high then p1 * s else p1 * (1.0 - s)
  }

  lemma ShareBounds(p1: real, s: real)
    requires p1 >= 0.0 && 0.0 <= s <= 1.0
    ensures 0.0 <= Share(p1, s, true) && 0.0 <= Share(p1, s, false)
    ensures Share(p1, s, true) + Share(p1, s, false) == p1
  {
    NonNegative(p1, s);
    NonNegative(p1, 1.0 - s);
  }

  /** What calc_switch_prob_recur returns. */
  function SwitchProb(next: Bdd, b: Bdd, cube: seq<Literal>, inputs: seq<Input>, p1: real, phase: bool): real
    requires |cube| == |inputs| && Within(next, |inputs|) && Within(b, |inputs|)
    decreases b
  {
    if b.Leaf? then (if b.value == phase then 0.0 else Prob(next, NextWeights(cube, inputs), phase) * p1 * p1)
    else
      var s := inputs[b.index].staticProb;
      SwitchProb(next, b.high, cube[b.index := One], inputs, Share(p1, s, true), phase)
      + SwitchProb(next, b.low, cube[b.index := Zero], inputs, Share(p1, s, false), phase)
  }

  predicate AllStatic(inputs: seq<Input>) {
    forall i | 0 <= i < |inputs| :: 0.0 <= inputs[i].staticProb <= 1.0
  }

  lemma SwitchUnfold(next: Bdd, b: Bdd, cube: seq<Literal>, inputs: seq<Input>, p1: real, phase: bool)
    requires |cube| == |inputs| && Within(next, |inputs|) && Within(b, |inputs|)
    ensures b.Leaf? ==>
              SwitchProb(next, b, cube, inputs, p1, phase) == if b.value == phase then 0.0 else Prob(next, NextWeights(cube, inputs), phase) * p1 * p1
    ensures b.Node? ==>
              SwitchProb(next, b, cube, inputs, p1, phase)
              == SwitchProb(next, b.high, cube[b.index := One], inputs, Share(p1, inputs[b.index].staticProb, true), phase)
               + SwitchProb(next, b.low, cube[b.index := Zero], inputs, Share(p1, inputs[b.index].staticProb, false), phase)
  {
  }

  method CalcSwitchProbRecur(next: Bdd, b: Bdd, cube: PackedCube, inputs: seq<Input>, p1: real, phase: bool) returns (r: real)
    requires cube.Valid() && cube.numLiterals == |inputs| > 0 && Proper(cube.Lits())
    requires Within(next, |inputs|) && Within(b, |inputs|) && AllStatic(inputs) && p1 >= 0.0
    ensures r == SwitchProb(next, b, cube.Lits(), inputs, p1, phase)
    decreases b
  {
    hide NextWeights, Prob, Mix, Literals, Fits, GetLiteral, Proper, SwitchProb, Share;
    ghost var lits := cube.Lits();
    SwitchUnfold(next, b, lits, inputs, p1, phase);
    if b.Leaf? {
      if b.value == phase {
        return 0.0;
      }
      var prob := CalcCubeSwitchProb(next, cube, inputs, phase);
      prob := prob * p1;
      return prob * p1;
    }
    var i, s := b.index, inputs[b.index].staticProb;
    ShareBounds(p1, s);
    var cube1 := Branch(cube, i, true);
    assert cube1.Lits() == lits[i := One];
    var t := CalcSwitchProbRecur(next, b.high, cube1, inputs, Share(p1, s, true), phase);
    var cube0 := Branch(cube, i, false);
    assert cube0.Lits() == lits[i := Zero];
    var e := CalcSwitchProbRecur(next, b.low, cube0, inputs, Share(p1, s, false), phase);
    r := t + e;
    assert cube.Lits() == lits;
  }

  /** The branch's cube: a copy whose literal i says which way the present value went. */
  method Branch(cube: PackedCube, i: nat, high: bool) returns (c: PackedCube)
    requires cube.Valid() && i < cube.numLiterals && Proper(cube.Lits())
    ensures c.Valid() && c.numLiterals == cube.numLiterals && Proper(c.Lits())
    ensures c.Lits() == cube.Lits()[i := if high then One else Zero]
  {
    hide Literals, Fits;
    var copy := cube.Dup();
    c := copy;
    if high {
      c.Set(i, false, true);
    } else {
      c.Set(i, true, false);
    }
  }

  // ----- What the switching recursion computes -----

  /** The same recursion with the path's probability taken once. */
  function JointProb(next: Bdd, b: Bdd, cube: seq<Literal>, inputs: seq<Input>, p1: real, phase: bool): real
    requires |cube| == |inputs| && Within(next, |inputs|) && Within(b, |inputs|)
    decreases b
  {
    if b.Leaf? then (if b.value == phase then 0.0 else p1 * Prob(next, NextWeights(cube, inputs), phase))
    else
      var s := inputs[b.index].staticProb;
      JointProb(next, b.high, cube[b.index := One], inputs, Share(p1, s, true), phase)
      + JointProb(next, b.low, cube[b.index := Zero], inputs, Share(p1, s, false), phase)
  }

  lemma JointUnfold(next: Bdd, b: Bdd, cube: seq<Literal>, inputs: seq<Input>, p1: real, phase: bool)
    requires |cube| == |inputs| && Within(next, |inputs|) && Within(b, |inputs|)
    ensures b.Leaf? ==>
              JointProb(next, b, cube, inputs, p1, phase) == if b.value == phase then 0.0 else p1 * Prob(next, NextWeights(cube, inputs), phase)
    ensures b.Node? ==>
              JointProb(next, b, cube, inputs, p1, phase)
              == JointProb(next, b.high, cube[b.index := One], inputs, Share(p1, inputs[b.index].staticProb, true), phase)
               + JointProb(next, b.low, cube[b.index := Zero], inputs, Share(p1, inputs[b.index].staticProb, false), phase)
  {
  }

  predicate AllProbabilities(inputs: seq<Input>) {
    forall i | 0 <= i < |inputs| ::
      0.0 <= inputs[i].staticProb <= 1.0 && 0.0 <= inputs[i].prob0to1 <= 1.0 && 0.0 <= inputs[i].prob1to0 <= 1.0
  }

  lemma NextProbabilities(cube: seq<Literal>, inputs: seq<Input>)
    requires |cube| == |inputs| && AllProbabilities(inputs)
    ensures Probabilities(NextWeights(cube, inputs))
  {
  }

  function Scaled(p: real, x: real): real {
    p * x
  }

  lemma {:induction false} ScaledBounds(next: Bdd, b: Bdd, cube: seq<Literal>, inputs: seq<Input>, p1: real, phase: bool)
    requires |cube| == |inputs| && Within(next, |inputs|) && Within(b, |inputs|) && AllProbabilities(inputs) && 0.0 <= p1
    ensures 0.0 <= SwitchProb(next, b, cube, inputs, p1, phase) <= Scaled(p1, JointProb(next, b, cube, inputs, p1, phase))
    ensures 0.0 <= JointProb(next, b, cube, inputs, p1, phase) <= p1
    decreases b
  {
    hide Prob, NextWeights, SwitchProb, JointProb, Share, AllProbabilities, Scaled;
    JointUnfold(next, b, cube, inputs, p1, phase);
    if b.Leaf? {
      SwitchUnfold(next, b, cube, inputs, p1, phase);
      NextProbabilities(cube, inputs);
      ProbBounds(next, NextWeights(cube, inputs), phase);
      LeafBounds(if b.value == phase then 0.0 else Prob(next, NextWeights(cube, inputs), phase), p1,
                 SwitchProb(next, b, cube, inputs, p1, phase), JointProb(next, b, cube, inputs, p1, phase));
    } else {
      SwitchUnfold(next, b, cube, inputs, p1, phase);
      var s := inputs[b.index].staticProb;
      assert 0.0 <= s <= 1.0 by { StaticBounds(inputs, b.index); }
      ShareBounds(p1, s);
      var q1, q0 := Share(p1, s, true), Share(p1, s, false);
      ScaledBounds(next, b.high, cube[b.index := One], inputs, q1, phase);
      ScaledBounds(next, b.low, cube[b.index := Zero], inputs, q0, phase);
      NodeBounds(p1, q1, q0, JointProb(next, b.high, cube[b.index := One], inputs, q1, phase),
                 JointProb(next, b.low, cube[b.index := Zero], inputs, q0, phase), JointProb(next, b, cube, inputs, p1, phase));
    }
  }

  /** Down every path the probability is squared, so the result is at most p1 times the joint probability. */
  lemma SwitchBounds(next: Bdd, b: Bdd, cube: seq<Literal>, inputs: seq<Input>, p1: real, phase: bool)
    requires |cube| == |inputs| && Within(next, |inputs|) && Within(b, |inputs|) && AllProbabilities(inputs) && 0.0 <= p1
    ensures 0.0 <= SwitchProb(next, b, cube, inputs, p1, phase) <= p1 * JointProb(next, b, cube, inputs, p1, phase)
    ensures 0.0 <= JointProb(next, b, cube, inputs, p1, phase) <= p1
  {
    hide SwitchProb, JointProb, Within, AllProbabilities;
    ScaledBounds(next, b, cube, inputs, p1, phase);
  }

  lemma StaticBounds(inputs: seq<Input>, i: nat)
    requires AllProbabilities(inputs) && i < |inputs|
    ensures 0.0 <= inputs[i].staticProb <= 1.0
  {
  }

  lemma LeafBounds(c: real, p: real, r: real, j: real)
    requires 0.0 <= c <= 1.0 && 0.0 <= p && r == c * p * p && j == p * c
    ensures 0.0 <= r <= Scaled(p, j) && 0.0 <= j <= p
  {
    NonNegative(c, p);
    NonNegative(c * p, p);
    NonNegative(p, 1.0 - c);
    assert p * j == r;
  }

  lemma NodeBounds(p: real, q1: real, q0: real, j1: real, j0: real, j: real)
    requires 0.0 <= q1 && 0.0 <= q0 && q1 + q0 == p && 0.0 <= j1 && 0.0 <= j0 && j == j1 + j0
    ensures Scaled(q1, j1) + Scaled(q0, j0) <= Scaled(p, j)
  {
    NonNegative(q0, j1);
    NonNegative(q1, j0);
    assert p * (j1 + j0) == q1 * j1 + q0 * j0 + q0 * j1 + q1 * j0;
  }

  lemma NoZeroDivisors(x: real, y: real)
    ensures x * y == 0.0 <==> x == 0.0 || y == 0.0
  {
  }

  // ----- The joint probability -----

  /** The chance of each input being 1 does not drift: it is the same after a transition. */
  predicate Stationary(inputs: seq<Input>) {
    forall i | 0 <= i < |inputs| ::
      inputs[i].staticProb == Mix(inputs[i].staticProb, 1.0 - inputs[i].prob1to0, inputs[i].prob0to1)
  }

  function Present(x: seq<bool>): (cube: seq<Literal>)
    ensures |cube| == |x|
  {
    seq(|x|, i requires 0 <= i < |x| => if x[i] then One else Zero)
  }

  /** The chance of each input being 1 now, given the cube. */
  function PresentWeights(cube: seq<Literal>, inputs: seq<Input>): (ws: seq<real>)
    requires |cube| == |inputs|
    ensures |ws| == |inputs|
  {
    seq(|inputs|, i requires 0 <= i < |inputs| => if cube[i] == Zero then 0.0 else if cube[i] == One then 1.0 else inputs[i].staticProb)
  }

  /** The chance that present values x are followed by the phase. */
  ghost function NextMeasure(next: Bdd, inputs: seq<Input>, phase: bool): Measure
    requires Within(next, |inputs|)
  {
    x => if |x| == |inputs| then Prob(next, NextWeights(Present(x), inputs), phase) else 0.0
  }

  /** The chance that x gives the other phase and is followed by the phase. */
  ghost function SwitchMeasure(next: Bdd, b: Bdd, inputs: seq<Input>, phase: bool): Measure
    requires Within(next, |inputs|)
  {
    x => if |x| == |inputs| && Eval(b, x) != phase then Prob(next, NextWeights(Present(x), inputs), phase) else 0.0
  }

  lemma {:induction false} ProbSplit(b: Bdd, ws: seq<real>, i: nat, phase: bool)
    requires Within(b, |ws|) && ReadOnce(b) && i < |ws|
    ensures Prob(b, ws, phase) == Mix(ws[i], Prob(b, ws[i := 1.0], phase), Prob(b, ws[i := 0.0], phase))
  {
    ProbIsExpect(b, ws, phase);
    ProbIsExpect(b, ws[i := 1.0], phase);
    ProbIsExpect(b, ws[i := 0.0], phase);
    Split(Indicator(b, phase), ws, i, []);
  }

  /** The cube with its first inputs fixed to p. */
  function Fixed(p: seq<bool>, cube: seq<Literal>): (c: seq<Literal>)
    requires |p| <= |cube|
    ensures |c| == |cube|
  {
    Present(p) + cube[|p|..]
  }

  /** Averaging over the present values of free literals gives the cube's own next-phase probability. */
  lemma {:induction false} Averaged(next: Bdd, cube: seq<Literal>, inputs: seq<Input>, p: seq<bool>, phase: bool)
    requires |p| <= |cube| == |inputs| && Within(next, |inputs|) && ReadOnce(next) && Proper(cube) && Stationary(inputs)
    ensures Expect(NextMeasure(next, inputs, phase), PresentWeights(cube, inputs), p)
         == Prob(next, NextWeights(Fixed(p, cube), inputs), phase)
    decreases |cube| - |p|
  {
    var k := |p|;
    if k == |cube| {
      assert Fixed(p, cube) == Present(p);
    } else {
      hide Prob, ReadOnce, Within, Expect;
      Averaged(next, cube, inputs, p + [true], phase);
      Averaged(next, cube, inputs, p + [false], phase);
      Unfold(NextMeasure(next, inputs, phase), PresentWeights(cube, inputs), p);
      AveragedStep(next, cube, inputs, p, phase);
    }
  }

  lemma AveragedStep(next: Bdd, cube: seq<Literal>, inputs: seq<Input>, p: seq<bool>, phase: bool)
    requires |p| < |cube| == |inputs| && Within(next, |inputs|) && ReadOnce(next) && Proper(cube) && Stationary(inputs)
    ensures Prob(next, NextWeights(Fixed(p, cube), inputs), phase)
         == Mix(PresentWeights(cube, inputs)[|p|], Prob(next, NextWeights(Fixed(p + [true], cube), inputs), phase),
                Prob(next, NextWeights(Fixed(p + [false], cube), inputs), phase))
  {
    hide Prob, ReadOnce, Within, Mix;
    var k := |p|;
    var ws, w1, w0 := NextWeights(Fixed(p, cube), inputs), NextWeights(Fixed(p + [true], cube), inputs), NextWeights(Fixed(p + [false], cube), inputs);
    assert w1 == ws[k := 1.0 - inputs[k].prob1to0];
    assert w0 == ws[k := inputs[k].prob0to1];
    ProbSplit(next, ws, k, phase);
    ProbSplit(next, w1, k, phase);
    ProbSplit(next, w0, k, phase);
    assert w1[k := 1.0] == w0[k := 1.0] == ws[k := 1.0];
    assert w1[k := 0.0] == w0[k := 0.0] == ws[k := 0.0];
    var x, y := Prob(next, ws[k := 1.0], phase), Prob(next, ws[k := 0.0], phase);
    MixMix(PresentWeights(cube, inputs)[k], w1[k], w0[k], x, y);
    Certain(w1[k], w0[k]);
    assert ws[k] == Mix(PresentWeights(cube, inputs)[k], w1[k], w0[k]);
  }

  lemma MixMix(c: real, a: real, b: real, x: real, y: real)
    ensures Mix(c, Mix(a, x, y), Mix(b, x, y)) == Mix(Mix(c, a, b), x, y)
  {
    assert c * (a * x + (1.0 - a) * y) == c * a * x + c * y - c * a * y;
    assert (1.0 - c) * (b * x + (1.0 - b) * y) == (1.0 - c) * b * x + (1.0 - c) * y - (1.0 - c) * b * y;
    assert (c * a + (1.0 - c) * b) * x == c * a * x + (1.0 - c) * b * x;
    assert (1.0 - (c * a + (1.0 - c) * b)) * y == y - c * a * y - (1.0 - c) * b * y;
  }

  /** The diagram reads only inputs that the cube leaves open. */
  ghost predicate Free(b: Bdd, cube: seq<Literal>) {
    forall i: nat | i < |cube| && Reads(b, i) :: cube[i] == Two
  }

  lemma FreeBranches(b: Bdd, cube: seq<Literal>, l: Literal)
    requires b.Node? && b.index < |cube| && ReadOnce(b) && Free(b, cube)
    ensures cube[b.index] == Two && Free(b.high, cube[b.index := l]) && Free(b.low, cube[b.index := l])
  {
  }

  /** Down a path the recursion adds up the joint probability of the assignments the path stands for. */
  lemma {:induction false} JointIsExpect(next: Bdd, b: Bdd, cube: seq<Literal>, inputs: seq<Input>, p1: real, phase: bool)
    requires |cube| == |inputs| && Within(next, |inputs|) && Within(b, |inputs|) && ReadOnce(next) && ReadOnce(b)
    requires Proper(cube) && Stationary(inputs) && Free(b, cube)
    ensures JointProb(next, b, cube, inputs, p1, phase)
         == p1 * Expect(SwitchMeasure(next, b, inputs, phase), PresentWeights(cube, inputs), [])
    decreases b
  {
    hide Prob, NextWeights, PresentWeights, JointProb, Share, Expect, Mix, Stationary, Free, SwitchMeasure, Reads;
    JointUnfold(next, b, cube, inputs, p1, phase);
    if b.Leaf? {
      JointLeaf(next, b.value, cube, inputs, phase);
    } else {
      var i := b.index;
      var s := inputs[i].staticProb;
      FreeBranches(b, cube, One);
      FreeBranches(b, cube, Zero);
      JointIsExpect(next, b.high, cube[i := One], inputs, Share(p1, s, true), phase);
      JointIsExpect(next, b.low, cube[i := Zero], inputs, Share(p1, s, false), phase);
      JointNode(next, b, cube, inputs, phase);
      ShareMix(p1, s, Expect(SwitchMeasure(next, b.high, inputs, phase), PresentWeights(cube[i := One], inputs), []),
               Expect(SwitchMeasure(next, b.low, inputs, phase), PresentWeights(cube[i := Zero], inputs), []));
    }
  }

  lemma ShareMix(p: real, s: real, x: real, y: real)
    ensures Share(p, s, true) * x + Share(p, s, false) * y == p * Mix(s, x, y)
  {
    assert p * (s * x + (1.0 - s) * y) == p * s * x + p * (1.0 - s) * y;
  }

  lemma JointLeaf(next: Bdd, v: bool, cube: seq<Literal>, inputs: seq<Input>, phase: bool)
    requires |cube| == |inputs| && Within(next, |inputs|) && ReadOnce(next) && Proper(cube) && Stationary(inputs)
    ensures Expect(SwitchMeasure(next, Leaf(v), inputs, phase), PresentWeights(cube, inputs), [])
         == if v == phase then 0.0 else Prob(next, NextWeights(cube, inputs), phase)
  {
    hide Prob, Within, ReadOnce, Expect, Stationary, NextWeights, PresentWeights;
    if v == phase {
      Constant(SwitchMeasure(next, Leaf(v), inputs, phase), PresentWeights(cube, inputs), 0.0, []);
    } else {
      Agree(SwitchMeasure(next, Leaf(v), inputs, phase), NextMeasure(next, inputs, phase), PresentWeights(cube, inputs), []);
      Averaged(next, cube, inputs, [], phase);
      assert Fixed([], cube) == cube;
    }
  }

  lemma JointNode(next: Bdd, b: Bdd, cube: seq<Literal>, inputs: seq<Input>, phase: bool)
    requires b.Node? && |cube| == |inputs| && Within(next, |inputs|) && Within(b, |inputs|) && cube[b.index] == Two
    ensures Expect(SwitchMeasure(next, b, inputs, phase), PresentWeights(cube, inputs), [])
         == Mix(inputs[b.index].staticProb,
                Expect(SwitchMeasure(next, b.high, inputs, phase), PresentWeights(cube[b.index := One], inputs), []),
                Expect(SwitchMeasure(next, b.low, inputs, phase), PresentWeights(cube[b.index := Zero], inputs), []))
  {
    hide Prob, Expect, Mix, NextWeights;
    var i := b.index;
    var ws := PresentWeights(cube, inputs);
    Split(SwitchMeasure(next, b, inputs, phase), ws, i, []);
    assert ws[i := 1.0] == PresentWeights(cube[i := One], inputs);
    assert ws[i := 0.0] == PresentWeights(cube[i := Zero], inputs);
    Agree(SwitchMeasure(next, b, inputs, phase), SwitchMeasure(next, b.high, inputs, phase), ws[i := 1.0], []);
    Agree(SwitchMeasure(next, b, inputs, phase), SwitchMeasure(next, b.low, inputs, phase), ws[i := 0.0], []);
  }

  /**
   * From the all-don't-care cube, with inputs whose probabilities do not drift: JointProb is the chance that the
   * function has the other phase now and next has the phase, summed over all present and all next values.
   */
  lemma JointIsProbability(next: Bdd, b: Bdd, cube: seq<Literal>, inputs: seq<Input>, phase: bool)
    requires |cube| == |inputs| && Within(next, |inputs|) && Within(b, |inputs|) && ReadOnce(next) && ReadOnce(b) && Stationary(inputs)
    requires forall i | 0 <= i < |cube| :: cube[i] == Two
    ensures JointProb(next, b, cube, inputs, 1.0, phase)
         == Expect(SwitchMeasure(next, b, inputs, phase), PresentWeights(cube, inputs), [])
    ensures forall x: seq<bool> | |x| == |inputs| ::
              SwitchMeasure(next, b, inputs, phase)(x)
              == (if Eval(b, x) == phase then 0.0 else Expect(Indicator(next, phase), NextWeights(Present(x), inputs), []))
  {
    hide Prob, JointProb, Expect, NextWeights, Stationary, ReadOnce, PresentWeights;
    JointIsExpect(next, b, cube, inputs, 1.0, phase);
    forall x: seq<bool> | |x| == |inputs|
      ensures SwitchMeasure(next, b, inputs, phase)(x)
           == if Eval(b, x) == phase then 0.0 else Expect(Indicator(next, phase), NextWeights(Present(x), inputs), [])
    {
      ProbIsExpect(next, NextWeights(Present(x), inputs), phase);
    }
  }

  // ----- Transition probabilities of an input -----

  /** ACE_P0TO1 for static probability p and switching probability ps. */
  function P0To1(p: real, ps: real): real {
    if p == 0.0 then 0.0 else if p == 1.0 then 1.0 else 0.5 * ps / (1.0 - p)
  }

  /** ACE_P1TO0. */
  function P1To0(p: real, ps: real): real {
    if p == 0.0 then 1.0 else 0.5 * ps / p
  }

  /** The transition probabilities are probabilities exactly when the input can switch that often. */
  lemma TransitionsExact(p: real, ps: real)
    requires 0.0 <= p <= 1.0 && ps >= 0.0
    ensures 0.0 <= P0To1(p, ps) <= 1.0 && 0.0 <= P1To0(p, ps) <= 1.0
            <==> p == 0.0 || (p == 1.0 && ps <= 2.0) || (ps <= 2.0 * p && ps <= 2.0 * (1.0 - p))
  {
    if p != 0.0 {
      Quotient(0.5 * ps, p);
    }
    if p != 1.0 {
      Quotient(0.5 * ps, 1.0 - p);
    }
  }

  lemma Quotient(x: real, y: real)
    requires x >= 0.0 && y > 0.0
    ensures x / y >= 0.0 && (x / y <= 1.0 <==> x <= y)
    ensures y * (x / y) == x
  {
    var q := x / y;
    assert q * y == x;
    if q <= 1.0 {
      NonNegative(1.0 - q, y);
    } else {
      NonNegative(q - 1.0, y);
      NoZeroDivisors(q - 1.0, y);
    }
  }

  /** They keep the static probability, unless an input that is always 1 is said to switch. */
  lemma TransitionsStationary(p: real, ps: real)
    requires 0.0 <= p <= 1.0 && ps >= 0.0
    ensures p == Mix(p, 1.0 - P1To0(p, ps), P0To1(p, ps)) <==> p < 1.0 || ps == 0.0
  {
    if 0.0 < p < 1.0 {
      Quotient(0.5 * ps, p);
      Quotient(0.5 * ps, 1.0 - p);
    }
  }

  /** An input with these transition probabilities switches as often as it is said to. */
  lemma TransitionsSwitch(p: real, ps: real)
    requires 0.0 < p < 1.0 && ps >= 0.0
    ensures p * P1To0(p, ps) + (1.0 - p) * P0To1(p, ps) == ps
  {
    Quotient(0.5 * ps, p);
    Quotient(0.5 * ps, 1.0 - p);
  }
}
