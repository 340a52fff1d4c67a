/** What the simulator's counters can be, and when its closing assertions hold. */
module SimCounters {
  import opened Binary
  import opened Circuits
  import opened LatchUpdates
  import opened EventSim

  // ----- What the counters can be -----

  /** Every change is next to a 1 and next to a 0. */
  lemma {:induction false} ToggleBounds(c: Circuit, inputs: Inputs, o: nat, t: nat)
    requires WellFormed(c) && Live(c, o)
    ensures Ones(c, inputs, o, t) <= t + 1
    ensures Toggles(c, inputs, o, t) <= t
    ensures Toggles(c, inputs, o, t) + Bit(Value(c, inputs, o, 0)) + Bit(Value(c, inputs, o, t)) <= 2 * Ones(c, inputs, o, t)
    ensures Toggles(c, inputs, o, t) + Bit(!Value(c, inputs, o, 0)) + Bit(!Value(c, inputs, o, t)) <= 2 * (t + 1 - Ones(c, inputs, o, t))
  {
    hide WellFormed, Live, Value;
    if t > 0 {
      OneCycle(c, inputs, o, t);
      ToggleBounds(c, inputs, o, t - 1);
    }
  }

  /** No two cycles in a row, among cycles 0 .. t, have the value 0. */
  ghost predicate ZerosApart(c: Circuit, inputs: Inputs, o: nat, t: nat)
    requires WellFormed(c) && Live(c, o)
  {
    forall s: nat | s < t :: Value(c, inputs, o, s) || Value(c, inputs, o, s + 1)
  }

  lemma {:induction false} ExcessToggles(c: Circuit, inputs: Inputs, o: nat, t: nat)
    requires WellFormed(c) && Live(c, o)
    ensures Toggles(c, inputs, o, t) + Bit(!Value(c, inputs, o, 0)) + Bit(!Value(c, inputs, o, t)) == 2 * (t + 1 - Ones(c, inputs, o, t))
            <==> ZerosApart(c, inputs, o, t)
  {
    hide WellFormed, Live, Value;
    ToggleBounds(c, inputs, o, t);
    if t > 0 {
      OneCycle(c, inputs, o, t);
      ExcessToggles(c, inputs, o, t - 1);
      ToggleBounds(c, inputs, o, t - 1);
      assert ZerosApart(c, inputs, o, t) <==>
             ZerosApart(c, inputs, o, t - 1) && (Value(c, inputs, o, t - 1) || Value(c, inputs, o, t)) by {
        assert t - 1 + 1 == t;
      }
    }
  }

  /** The source's tolerance. */
  const Epsilon: real := 0.00001

  /** ace_sim_activities' closing assertions on an object after so many cycles. */
  ghost predicate AssertionsHold(i: Info, cycles: nat)
    requires cycles > 0
  {
    var staticProb := i.ones as real / cycles as real;
    var switchProb := i.toggles as real / cycles as real;
    && 0.0 <= staticProb <= 1.0
    && 0.0 <= switchProb <= 1.0
    && switchProb - Epsilon <= 2.0 * (1.0 - staticProb)
    && switchProb - Epsilon <= 2.0 * staticProb
  }

  lemma AssertionsScaled(i: Info, cycles: nat)
    requires cycles > 0
    ensures AssertionsHold(i, cycles) <==>
            && i.ones <= cycles && i.toggles <= cycles
            && i.toggles as real <= 2.0 * (cycles - i.ones) as real + Epsilon * cycles as real
            && i.toggles as real <= 2.0 * i.ones as real + Epsilon * cycles as real
  {
    var k := cycles as real;
    Scaled(i.ones as real, k);
    Scaled(i.toggles as real, k);
    BoundsScaled(i.ones as real / k, i.toggles as real / k, i.ones as real, i.toggles as real, k);
  }

  lemma BoundsScaled(p: real, q: real, ones: real, toggles: real, k: real)
    requires k > 0.0 && k * p == ones && k * q == toggles
    ensures p <= 1.0 <==> ones <= k
    ensures q <= 1.0 <==> toggles <= k
    ensures q - Epsilon <= 2.0 * (1.0 - p) <==> toggles <= 2.0 * (k - ones) + Epsilon * k
    ensures q - Epsilon <= 2.0 * p <==> toggles <= 2.0 * ones + Epsilon * k
  {
    Scale(1.0 - p, k);
    Scale(1.0 - q, k);
    assert k * (1.0 - p) == k - ones && k * (1.0 - q) == k - toggles;
    var d := 2.0 * (1.0 - p) - (q - Epsilon);
    assert k * d == 2.0 * k - 2.0 * (k * p) - k * q + k * Epsilon;
    Scale(d, k);
    var e := 2.0 * p - (q - Epsilon);
    assert k * e == 2.0 * (k * p) - k * q + k * Epsilon;
    Scale(e, k);
  }

  lemma Scaled(x: real, k: real)
    requires k > 0.0 && x >= 0.0
    ensures x / k >= 0.0 && k * (x / k) == x
  {
  }

  lemma Scale(d: real, k: real)
    requires k > 0.0
    ensures d >= 0.0 <==> k * d >= 0.0
  {
  }

  lemma ToleranceOf(cycles: nat)
    ensures 0.0 <= Epsilon * cycles as real
    ensures Epsilon * cycles as real >= 1.0 <==> cycles >= 100000
  {
  }

  /** One toggle too many is tolerated in a long run. */
  lemma Tolerated(i: Info, cycles: nat)
    requires cycles > 0 && i.ones <= cycles && i.toggles <= cycles && i.toggles <= 2 * i.ones && i.toggles <= 2 * (cycles - i.ones) + 1
    ensures AssertionsHold(i, cycles) <==> i.toggles <= 2 * (cycles - i.ones) || cycles >= 100000
  {
    hide AssertionsHold;
    AssertionsScaled(i, cycles);
    ToleranceOf(cycles);
    var tol := Epsilon * cycles as real;
    hide Epsilon;
    assert i.toggles as real <= 2.0 * i.ones as real + tol;
    assert i.toggles as real <= 2.0 * (cycles - i.ones) as real + tol <==> (i.toggles - 2 * (cycles - i.ones)) as real <= tol;
  }

  /**
   * The closing assertions hold of every simulated object, with one exception: in a run shorter than 100000 cycles they
   * fail for a primary input that is 1 in the first and the last cycle and never 0 twice in a row, because its initial
   * 1 counts as a toggle.
   */
  lemma AssertionsExact(c: Circuit, inputs: Inputs, info: seq<Info>, o: nat, cycles: nat)
    requires WellFormed(c) && Live(c, o) && c.objs[o].kind != LatchOutput && |info| == |c.objs| && cycles > 0
    requires Done(c, inputs, info, o, cycles - 1)
    ensures AssertionsHold(info[o], cycles) <==>
            !(&& c.objs[o].kind == PrimaryInput && cycles < 100000
              && Value(c, inputs, o, 0) && Value(c, inputs, o, cycles - 1) && ZerosApart(c, inputs, o, cycles - 1))
  {
    ToggleBounds(c, inputs, o, cycles - 1);
    ExcessToggles(c, inputs, o, cycles - 1);
    hide WellFormed, Live, Value, ZerosApart, Ones, Toggles, AssertionsHold;
    Tolerated(info[o], cycles);
  }

  // ----- An input at which they fail -----

  /** ACE_NUM_VECTORS. */
  const NUM_VECTORS: nat := 5000

  /** A circuit of one primary input. */
  const LoneInput: Circuit := Circuit([Obj(PrimaryInput, [], _ => false)], [], [])

  function AlwaysOne(o: nat, t: nat): bool {
    true
  }

  lemma LoneInputOk()
    ensures WellFormed(LoneInput) && Live(LoneInput, 0)
    ensures forall t: nat :: Value(LoneInput, AlwaysOne, 0, t)
  {
  }

  lemma {:induction false} AlwaysOneCounts(t: nat)
    requires WellFormed(LoneInput) && Live(LoneInput, 0) && forall s: nat :: Value(LoneInput, AlwaysOne, 0, s)
    ensures Ones(LoneInput, AlwaysOne, 0, t) == t + 1 && Toggles(LoneInput, AlwaysOne, 0, t) == 0
  {
    hide WellFormed, Live, Value;
    if t > 0 {
      AlwaysOneCounts(t - 1);
    }
  }

  /** The simulator's 5000 cycles over a lone input that is always 1: its one counted toggle breaks the closing assertions. */
  lemma AssertionsFail()
    ensures WellFormed(LoneInput) && Live(LoneInput, 0)
    ensures Done(LoneInput, AlwaysOne, [Info(Old, true, NUM_VECTORS, 1)], 0, NUM_VECTORS - 1)
    ensures !AssertionsHold(Info(Old, true, NUM_VECTORS, 1), NUM_VECTORS)
  {
    LoneInputOk();
    AlwaysOneCounts(NUM_VECTORS - 1);
    hide WellFormed, Live, Value, Ones, Toggles, AssertionsHold;
    var info := [Info(Old, true, NUM_VECTORS, 1)];
    assert Done(LoneInput, AlwaysOne, info, 0, NUM_VECTORS - 1);
    AssertionsExact(LoneInput, AlwaysOne, info, 0, NUM_VECTORS);
  }
}
