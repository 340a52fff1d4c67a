/**
 * How far the switching recursion falls short of the joint probability it stands for: it multiplies each path's probability
 * in twice, which loses nothing exactly on the paths that are certain or lead nowhere.
 */
module SwitchLoss {
  import opened Expectation
  import opened Cube
  import opened BddProb

  // ----- Reaching a leaf -----

  /** A leaf of the phase lies down branches that can be taken. */
  predicate Reaches(b: Bdd, ws: seq<real>, phase: bool)
    requires Within(b, |ws|)
  {
    if b.Leaf? then b.value == phase
    else (ws[b.index] != 0.0 && Reaches(b.high, ws, phase)) || (ws[b.index] != 1.0 && Reaches(b.low, ws, phase))
  }

  lemma {:induction false} ReachesExact(b: Bdd, ws: seq<real>, phase: bool)
    requires Within(b, |ws|) && Probabilities(ws)
    ensures Reaches(b, ws, phase) <==> Prob(b, ws, phase) != 0.0
  {
    hide Mix, Probabilities;
    if b.Node? {
      ReachesExact(b.high, ws, phase);
      ReachesExact(b.low, ws, phase);
      ProbBounds(b.high, ws, phase);
      ProbBounds(b.low, ws, phase);
      assert 0.0 <= ws[b.index] <= 1.0 by { WeightBounds(ws, b.index); }
      MixZero(ws[b.index], Prob(b.high, ws, phase), Prob(b.low, ws, phase));
    }
  }

  lemma WeightBounds(ws: seq<real>, i: nat)
    requires Probabilities(ws) && i < |ws|
    ensures 0.0 <= ws[i] <= 1.0
  {
  }

  lemma MixZero(w: real, x: real, y: real)
    requires 0.0 <= w <= 1.0 && 0.0 <= x && 0.0 <= y
    ensures Mix(w, x, y) == 0.0 <==> (w == 0.0 || x == 0.0) && (w == 1.0 || y == 0.0)
  {
    NonNegative(w, x);
    NonNegative(1.0 - w, y);
    NoZeroDivisors(w, x);
    NoZeroDivisors(1.0 - w, y);
  }

  // ----- When nothing is lost -----

  /**
   * Every leaf of the other phase that can be reached was certain to be, or leaves no way to the phase afterwards.
   * certain says that no branch taken so far could have gone the other way.
   */
  predicate Lossless(next: Bdd, b: Bdd, cube: seq<Literal>, inputs: seq<Input>, certain: bool, phase: bool)
    requires |cube| == |inputs| && Within(next, |inputs|) && Within(b, |inputs|)
    decreases b
  {
    if b.Leaf? then b.value == phase || certain || !Reaches(next, NextWeights(cube, inputs), phase)
    else
      var s := inputs[b.index].staticProb;
      && (s != 0.0 ==> Lossless(next, b.high, cube[b.index := One], inputs, certain && s == 1.0, phase))
      && (s != 1.0 ==> Lossless(next, b.low, cube[b.index := Zero], inputs, certain && s == 0.0, phase))
  }

  lemma LosslessUnfold(next: Bdd, b: Bdd, cube: seq<Literal>, inputs: seq<Input>, certain: bool, phase: bool)
    requires |cube| == |inputs| && Within(next, |inputs|) && Within(b, |inputs|)
    ensures b.Leaf? ==>
              (Lossless(next, b, cube, inputs, certain, phase)
               <==> b.value == phase || certain || !Reaches(next, NextWeights(cube, inputs), phase))
    ensures b.Node? ==>
              (Lossless(next, b, cube, inputs, certain, phase)
               <==> var s := inputs[b.index].staticProb;
                    && (s != 0.0 ==> Lossless(next, b.high, cube[b.index := One], inputs, certain && s == 1.0, phase))
                    && (s != 1.0 ==> Lossless(next, b.low, cube[b.index := Zero], inputs, certain && s == 0.0, phase)))
  {
  }

  /** The result never exceeds the joint probability, and is it exactly when nothing is lost, which takes no probability to tell. */
  lemma {:induction false} SwitchUnderestimates(next: Bdd, b: Bdd, cube: seq<Literal>, inputs: seq<Input>, p1: real, phase: bool)
    requires |cube| == |inputs| && Within(next, |inputs|) && Within(b, |inputs|) && AllProbabilities(inputs) && 0.0 <= p1 <= 1.0
    ensures SwitchProb(next, b, cube, inputs, p1, phase) <= JointProb(next, b, cube, inputs, p1, phase)
    ensures SwitchProb(next, b, cube, inputs, p1, phase) == JointProb(next, b, cube, inputs, p1, phase)
            <==> p1 == 0.0 || Lossless(next, b, cube, inputs, p1 == 1.0, phase)
    decreases b
  {
    hide Prob, NextWeights, SwitchProb, JointProb, Share, AllProbabilities, Probabilities, Lossless, Reaches;
    SwitchUnfold(next, b, cube, inputs, p1, phase);
    JointUnfold(next, b, cube, inputs, p1, phase);
    LosslessUnfold(next, b, cube, inputs, p1 == 1.0, phase);
    if b.Leaf? {
      var ws := NextWeights(cube, inputs);
      NextProbabilities(cube, inputs);
      ProbBounds(next, ws, phase);
      ReachesExact(next, ws, phase);
      if b.value != phase {
        LeafExact(Prob(next, ws, phase), p1, SwitchProb(next, b, cube, inputs, p1, phase), JointProb(next, b, cube, inputs, p1, phase));
      }
    } else {
      var s := inputs[b.index].staticProb;
      assert 0.0 <= s <= 1.0 by { StaticBounds(inputs, b.index); }
      ShareExact(p1, s);
      SwitchUnderestimates(next, b.high, cube[b.index := One], inputs, Share(p1, s, true), phase);
      SwitchUnderestimates(next, b.low, cube[b.index := Zero], inputs, Share(p1, s, false), phase);
    }
  }

  lemma ShareExact(p1: real, s: real)
    requires 0.0 <= p1 <= 1.0 && 0.0 <= s <= 1.0
    ensures 0.0 <= Share(p1, s, true) <= 1.0 && 0.0 <= Share(p1, s, false) <= 1.0
    ensures (Share(p1, s, true) == 0.0 <==> p1 == 0.0 || s == 0.0) && (Share(p1, s, true) == 1.0 <==> p1 == 1.0 && s == 1.0)
    ensures (Share(p1, s, false) == 0.0 <==> p1 == 0.0 || s == 1.0) && (Share(p1, s, false) == 1.0 <==> p1 == 1.0 && s == 0.0)
  {
    PartExact(p1, s);
    PartExact(p1, 1.0 - s);
  }

  lemma PartExact(p: real, s: real)
    requires 0.0 <= p <= 1.0 && 0.0 <= s <= 1.0
    ensures 0.0 <= p * s <= p
    ensures p * s == 0.0 <==> p == 0.0 || s == 0.0
    ensures p * s == 1.0 <==> p == 1.0 && s == 1.0
  {
    NonNegative(p, s);
    NonNegative(p, 1.0 - s);
    NoZeroDivisors(p, s);
    NoZeroDivisors(p, 1.0 - s);
    assert p * (1.0 - s) == p - p * s;
  }

  lemma LeafExact(c: real, p: real, r: real, j: real)
    requires 0.0 <= c <= 1.0 && 0.0 <= p <= 1.0 && r == c * p * p && j == p * c
    ensures r <= j
    ensures r == j <==> p == 0.0 || p == 1.0 || c == 0.0
  {
    NonNegative(c, p);
    NonNegative(c * p, 1.0 - p);
    assert j - r == (c * p) * (1.0 - p);
    NoZeroDivisors(c * p, 1.0 - p);
    NoZeroDivisors(c, p);
  }

  // ----- Inputs that are never certain -----

  predicate HasLeaf(b: Bdd, value: bool) {
    if b.Leaf? then b.value == value else HasLeaf(b.high, value) || HasLeaf(b.low, value)
  }

  /** No input is constant, and none is sure to change or to stay. */
  predicate Uncertain(inputs: seq<Input>) {
    forall i | 0 <= i < |inputs| ::
      0.0 < inputs[i].staticProb < 1.0 && 0.0 < inputs[i].prob0to1 < 1.0 && 0.0 < inputs[i].prob1to0 < 1.0
  }

  lemma {:induction false} ReachesLeaf(b: Bdd, ws: seq<real>, phase: bool)
    requires Within(b, |ws|) && forall i | 0 <= i < |ws| :: 0.0 < ws[i] < 1.0
    ensures Reaches(b, ws, phase) <==> HasLeaf(b, phase)
  {
    if b.Node? {
      ReachesLeaf(b.high, ws, phase);
      ReachesLeaf(b.low, ws, phase);
    }
  }

  lemma {:induction false} LosslessUncertain(next: Bdd, b: Bdd, cube: seq<Literal>, inputs: seq<Input>, certain: bool, phase: bool)
    requires |cube| == |inputs| && Within(next, |inputs|) && Within(b, |inputs|) && Uncertain(inputs)
    ensures Lossless(next, b, cube, inputs, certain, phase)
            <==> (certain && b.Leaf?) || !HasLeaf(b, !phase) || !HasLeaf(next, phase)
    decreases b
  {
    hide Reaches, NextWeights, Lossless, Uncertain;
    LosslessUnfold(next, b, cube, inputs, certain, phase);
    if b.Leaf? {
      NextUncertain(cube, inputs);
      ReachesLeaf(next, NextWeights(cube, inputs), phase);
    } else {
      UncertainAt(inputs, b.index);
      LosslessUncertain(next, b.high, cube[b.index := One], inputs, false, phase);
      LosslessUncertain(next, b.low, cube[b.index := Zero], inputs, false, phase);
    }
  }

  lemma UncertainAt(inputs: seq<Input>, i: nat)
    requires Uncertain(inputs) && i < |inputs|
    ensures 0.0 < inputs[i].staticProb < 1.0
  {
  }

  lemma NextUncertain(cube: seq<Literal>, inputs: seq<Input>)
    requires |cube| == |inputs| && Uncertain(inputs)
    ensures forall i | 0 <= i < |inputs| :: 0.0 < NextWeights(cube, inputs)[i] < 1.0
  {
  }

  /** A diagram that reads no input twice has a leaf exactly when some inputs lead to its value. */
  lemma {:induction false} LeafTaken(b: Bdd, n: nat, value: bool) returns (x: seq<bool>)
    requires ReadOnce(b) && Within(b, n) && HasLeaf(b, value)
    ensures |x| == n && Eval(b, x) == value
  {
    if b.Leaf? {
      x := seq(n, _ => false);
    } else {
      var high := HasLeaf(b.high, value);
      var side := if high then b.high else b.low;
      var y := LeafTaken(side, n, value);
      x := y[b.index := high];
      EvalBlind(side, b.index, y, x);
    }
  }

  lemma {:induction false} TakenLeaf(b: Bdd, x: seq<bool>)
    ensures HasLeaf(b, Eval(b, x))
  {
    if b.Node? {
      TakenLeaf(if b.index < |x| && x[b.index] then b.high else b.low, x);
    }
  }

  /** The function takes both values. */
  ghost predicate Varies(b: Bdd, n: nat) {
    exists x: seq<bool>, y: seq<bool> :: |x| == |y| == n && Eval(b, x) != Eval(b, y)
  }

  lemma VariesExact(b: Bdd, n: nat)
    requires ReadOnce(b) && Within(b, n)
    ensures Varies(b, n) <==> HasLeaf(b, true) && HasLeaf(b, false)
  {
    hide HasLeaf, Eval;
    if Varies(b, n) {
      var x: seq<bool>, y: seq<bool> :| |x| == |y| == n && Eval(b, x) != Eval(b, y);
      TakenLeaf(b, x);
      TakenLeaf(b, y);
    }
    if HasLeaf(b, true) && HasLeaf(b, false) {
      var x := LeafTaken(b, n, true);
      var y := LeafTaken(b, n, false);
      assert |x| == |y| == n && Eval(b, x) != Eval(b, y);
    }
  }

  lemma LeafNotVaries(b: Bdd, n: nat)
    requires b.Leaf?
    ensures !Varies(b, n)
  {
  }

  /**
   * The estimator's own call, with next the function itself and starting probability 1: over inputs none of which is ever
   * certain, the result is short of the joint probability for every function that is not constant, and for no other.
   */
  lemma SwitchAlwaysShort(b: Bdd, cube: seq<Literal>, inputs: seq<Input>, phase: bool)
    requires |cube| == |inputs| && Within(b, |inputs|) && ReadOnce(b) && Uncertain(inputs)
    ensures SwitchProb(b, b, cube, inputs, 1.0, phase) < JointProb(b, b, cube, inputs, 1.0, phase) <==> Varies(b, |inputs|)
  {
    hide SwitchProb, JointProb, Lossless, HasLeaf, ReadOnce, Within, Varies;
    SwitchUnderestimates(b, b, cube, inputs, 1.0, phase);
    LosslessUncertain(b, b, cube, inputs, true, phase);
    VariesExact(b, |inputs|);
    if b.Leaf? {
      LeafNotVaries(b, |inputs|);
    }
  }

  /** Any two diagrams: the result is the joint probability exactly when one of them leaves nothing to lose. */
  lemma SwitchExact(next: Bdd, b: Bdd, cube: seq<Literal>, inputs: seq<Input>, phase: bool)
    requires |cube| == |inputs| && Within(next, |inputs|) && Within(b, |inputs|) && Uncertain(inputs)
    ensures SwitchProb(next, b, cube, inputs, 1.0, phase) == JointProb(next, b, cube, inputs, 1.0, phase)
            <==> b.Leaf? || !HasLeaf(b, !phase) || !HasLeaf(next, phase)
  {
    hide SwitchProb, JointProb, Lossless, HasLeaf, Within;
    SwitchUnderestimates(next, b, cube, inputs, 1.0, phase);
    LosslessUncertain(next, b, cube, inputs, true, phase);
  }

  /** A lone input of static probability 1/2 that changes with probability 1/2: the result is half the joint probability. */
  lemma SwitchHalved()
    ensures var b, inputs := Node(0, Leaf(true), Leaf(false)), [Input(0.5, 0.5, 0.5)];
            && Within(b, 1)
            && JointProb(b, b, [Two], inputs, 1.0, true) == 0.25
            && SwitchProb(b, b, [Two], inputs, 1.0, true) == 0.125
  {
    var b, inputs := Node(0, Leaf(true), Leaf(false)), [Input(0.5, 0.5, 0.5)];
    var cube := [Two][0 := Zero];
    var ws := NextWeights(cube, inputs);
    assert cube[0] == Zero && ws[0] == NextWeight(cube[0], inputs[0]) == 0.5;
    assert Prob(b, ws, true) == Mix(0.5, Prob(b.high, ws, true), Prob(b.low, ws, true));
    assert Share(1.0, 0.5, false) == 0.5;
  }
}
