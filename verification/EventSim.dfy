/**
 * The event-driven cycle simulator: a node is re-evaluated only when a fanin is new. Its values agree in every cycle
 * with the circuit's meaning, and its counters are exact statistics of the trace.
 */
module EventSim {
  import opened Binary
  import opened Circuits
  import opened LatchUpdates

  // ----- The simulator -----

  /**
   * The object holds its value of cycle t. It is Old exactly if that is also its value of the cycle before; a latch output,
   * whose status is its driver's, may be New all the same.
   */
  ghost predicate Current(c: Circuit, inputs: Inputs, info: seq<Info>, o: nat, t: nat)
    requires WellFormed(c) && Live(c, o) && |info| == |c.objs|
  {
    && info[o].value == Value(c, inputs, o, t)
    && (info[o].status == New || info[o].status == Old)
    && (info[o].status == Old ==> t > 0 && Value(c, inputs, o, t) == Value(c, inputs, o, t - 1))
    && (c.objs[o].kind != LatchOutput && t > 0 && Value(c, inputs, o, t) == Value(c, inputs, o, t - 1) ==> info[o].status == Old)
  }

  /** The counters of an evaluated object after cycle t; an input that starts at 1 counts that as a toggle. */
  ghost predicate Counted(c: Circuit, inputs: Inputs, info: seq<Info>, o: nat, t: nat)
    requires WellFormed(c) && Live(c, o) && |info| == |c.objs|
  {
    c.objs[o].kind != LatchOutput ==>
      && info[o].ones == Ones(c, inputs, o, t)
      && info[o].toggles == Toggles(c, inputs, o, t) + (if c.objs[o].kind == PrimaryInput then Bit(Value(c, inputs, o, 0)) else 0)
  }

  /** The object as cycle t finds it: not yet set in cycle 0, at its value of cycle t - 1 later. */
  ghost predicate Before(c: Circuit, inputs: Inputs, info: seq<Info>, o: nat, t: nat)
    requires WellFormed(c) && Live(c, o) && |info| == |c.objs|
  {
    if t == 0 then info[o] == Info(Undefined, false, 0, 0)
    else Current(c, inputs, info, o, t - 1) && Counted(c, inputs, info, o, t - 1)
  }

  ghost predicate Done(c: Circuit, inputs: Inputs, info: seq<Info>, o: nat, t: nat)
    requires WellFormed(c) && Live(c, o) && |info| == |c.objs|
  {
    Current(c, inputs, info, o, t) && Counted(c, inputs, info, o, t)
  }

  /** Between cycles: inputs and evaluated objects wait at cycle t - 1, latch outputs are already set for cycle t. */
  ghost predicate Ready(c: Circuit, inputs: Inputs, info: seq<Info>, t: nat)
    requires WellFormed(c)
  {
    |info| == |c.objs| && forall o: nat | Live(c, o) ::
      if c.objs[o].kind == LatchOutput then Current(c, inputs, info, o, t) else Before(c, inputs, info, o, t)
  }

  /** get_pi_values for one input whose new value is b. */
  function StepInput(i: Info, b: bool): Info {
    if i.status == Undefined then Info(New, b, Bit(b), Bit(b))
    else if !i.value then if b then Info(New, true, i.ones + 1, i.toggles + 1) else i.(status := Old)
    else if !b then Info(New, false, i.ones, i.toggles + 1) else Info(Old, true, i.ones + 1, i.toggles)
  }

  lemma InputStep(c: Circuit, inputs: Inputs, info: seq<Info>, o: nat, t: nat, next: seq<Info>)
    requires WellFormed(c) && Live(c, o) && c.objs[o].kind == PrimaryInput && |info| == |next| == |c.objs|
    requires Before(c, inputs, info, o, t) && next[o] == StepInput(info[o], inputs(o, t))
    ensures Done(c, inputs, next, o, t)
  {
    assert Value(c, inputs, o, t) == inputs(o, t);
  }

  function FaninValues(info: seq<Info>, fanins: seq<nat>): seq<bool>
    requires forall f: nat | f in fanins :: f < |info|
  {
    seq(|fanins|, i requires 0 <= i < |fanins| => assert fanins[i] in fanins; info[fanins[i]].value)
  }

  lemma ValuesOfFanins(c: Circuit, inputs: Inputs, info: seq<Info>, o: nat, t: nat)
    requires WellFormed(c) && Live(c, o) && o in c.order && |info| == |c.objs|
    requires forall f: nat | f in c.objs[o].fanins :: Live(c, f) && info[f].value == Value(c, inputs, f, t)
    ensures Evaluated(c.objs[o]) && Apply(c.objs[o], FaninValues(info, c.objs[o].fanins)) == Value(c, inputs, o, t)
  {
    assert InPlace(c, o);
    var obj := c.objs[o];
    assert FaninValues(info, obj.fanins) ==
           seq(|obj.fanins|, i requires 0 <= i < |obj.fanins| => assert obj.fanins[i] in obj.fanins; Value(c, inputs, obj.fanins[i], t));
  }

  /** evaluate_circuit for an object with a new fanin whose function now gives value. */
  function StepNew(i: Info, value: bool): Info {
    if i.value != value || i.status == Undefined
    then Info(New, value, i.ones + Bit(value), i.toggles + Bit(i.status != Undefined))
    else i.(status := Old, ones := i.ones + Bit(value))
  }

  /** evaluate_circuit for an object none of whose fanins is new. */
  function StepOld(i: Info): Info {
    i.(status := Old, ones := i.ones + Bit(i.value))
  }

  lemma EvalNew(c: Circuit, inputs: Inputs, info: seq<Info>, o: nat, t: nat, next: seq<Info>)
    requires WellFormed(c) && Live(c, o) && o in c.order && |info| == |next| == |c.objs|
    requires Before(c, inputs, info, o, t) && next[o] == StepNew(info[o], Value(c, inputs, o, t))
    ensures Done(c, inputs, next, o, t)
  {
    hide WellFormed, Value;
    assert Evaluated(c.objs[o]) by { OrderEvaluated(c, o); }
  }

  lemma EvalOld(c: Circuit, inputs: Inputs, info: seq<Info>, o: nat, t: nat, next: seq<Info>)
    requires WellFormed(c) && Live(c, o) && o in c.order && |info| == |next| == |c.objs|
    requires Before(c, inputs, info, o, t) && next[o] == StepOld(info[o])
    requires forall f: nat | f in c.objs[o].fanins :: Live(c, f) && Current(c, inputs, info, f, t) && info[f].status == Old
    ensures Done(c, inputs, next, o, t)
  {
    OrderEvaluated(c, o);
    hide WellFormed, Value, Ones, Toggles, Live;
    var f := c.objs[o].fanins[0];
    assert f in c.objs[o].fanins && Current(c, inputs, info, f, t);
    assert t > 0;
    ValueUnchanged(c, inputs, o, t);
    OneCycle(c, inputs, o, t);
  }

  /** Within cycle t, with the first j evaluated objects done. */
  ghost predicate During(c: Circuit, inputs: Inputs, info: seq<Info>, t: nat, j: nat)
    requires WellFormed(c)
  {
    |info| == |c.objs| && forall o: nat | Live(c, o) ::
      if c.objs[o].kind == LatchOutput then Current(c, inputs, info, o, t)
      else if Rank(c.order, o) <= j then Done(c, inputs, info, o, t)
      else Before(c, inputs, info, o, t)
  }

  /** What happened to one object is all that matters to it. */
  lemma SameInfo(c: Circuit, inputs: Inputs, info: seq<Info>, next: seq<Info>, o: nat, t: nat)
    requires WellFormed(c) && Live(c, o) && |info| == |next| == |c.objs| && next[o] == info[o]
    ensures Current(c, inputs, next, o, t) == Current(c, inputs, info, o, t)
    ensures Done(c, inputs, next, o, t) == Done(c, inputs, info, o, t)
    ensures Before(c, inputs, next, o, t) == Before(c, inputs, info, o, t)
  {
    hide WellFormed, Value, Ones, Toggles, Live;
  }

  lemma DuringStep(c: Circuit, inputs: Inputs, info: seq<Info>, t: nat, j: nat, next: seq<Info>)
    requires WellFormed(c) && j < |c.order| && During(c, inputs, info, t, j)
    requires |next| == |info| && forall o | 0 <= o < |info| && o != c.order[j] :: next[o] == info[o]
    requires c.order[j] < |c.objs| && Live(c, c.order[j]) && Done(c, inputs, next, c.order[j], t)
    ensures During(c, inputs, next, t, j + 1)
  {
    RankAt(c.order, j);
    OrderEvaluated(c, c.order[j]);
    hide WellFormed, Value, Ones, Toggles, Current, Before, Done, Rank;
    forall o: nat | Live(c, o)
      ensures if c.objs[o].kind == LatchOutput then Current(c, inputs, next, o, t)
              else if Rank(c.order, o) <= j + 1 then Done(c, inputs, next, o, t)
              else Before(c, inputs, next, o, t)
    {
      if o != c.order[j] {
        SameInfo(c, inputs, info, next, o, t);
        assert Rank(c.order, o) != j + 1;
      }
    }
  }

  // ----- A cycle -----

  lemma InputsDone(c: Circuit, inputs: Inputs, info: seq<Info>, next: seq<Info>, t: nat)
    requires WellFormed(c) && Ready(c, inputs, info, t) && |next| == |info|
    requires forall o | 0 <= o < |info| :: next[o] == InputAfter(c, inputs, info, o, t)
    ensures During(c, inputs, next, t, 0)
  {
    hide WellFormed, Value, Ones, Toggles, Current, Before, Done, StepInput;
    forall o: nat | Live(c, o)
      ensures if c.objs[o].kind == LatchOutput then Current(c, inputs, next, o, t)
              else if Rank(c.order, o) <= 0 then Done(c, inputs, next, o, t)
              else Before(c, inputs, next, o, t)
    {
      if c.objs[o].kind == PrimaryInput {
        InputStep(c, inputs, info, o, t, next);
        assert Rank(c.order, o) == 0 by { assert o in c.order ==> InPlace(c, o) by { TopologicalOrder(c, o); } }
      } else {
        SameInfo(c, inputs, info, next, o, t);
      }
    }
  }

  function InputAfter(c: Circuit, inputs: Inputs, info: seq<Info>, o: nat, t: nat): Info
    requires o < |info| == |c.objs|
  {
    if c.objs[o].kind == PrimaryInput then StepInput(info[o], inputs(o, t)) else info[o]
  }

  /** What evaluate_circuit makes of one object. */
  function ObjectAfter(info: seq<Info>, o: nat, obj: Obj): Info
    requires Evaluated(obj) && o < |info| && forall f: nat | f in obj.fanins :: f < |info|
  {
    var status := FaninStatus(info, obj.fanins);
    if status == Undefined then info[o].(status := Undefined)
    else if status == Old then StepOld(info[o])
    else StepNew(info[o], Apply(obj, FaninValues(info, obj.fanins)))
  }

  function FaninStatus(info: seq<Info>, fanins: seq<nat>): Status
    requires forall f: nat | f in fanins :: f < |info|
  {
    if exists f: nat | f in fanins :: info[f].status == Undefined then Undefined
    else if exists f: nat | f in fanins :: info[f].status == New || info[f].status == Simulated then New
    else Old
  }

  lemma ObjectDone(c: Circuit, inputs: Inputs, info: seq<Info>, t: nat, j: nat)
    requires WellFormed(c) && j < |c.order| && During(c, inputs, info, t, j)
    ensures InPlace(c, c.order[j]) && Live(c, c.order[j])
    ensures forall f: nat | f in c.objs[c.order[j]].fanins :: f < |info| && info[f].status in {New, Old}
    ensures During(c, inputs, info[c.order[j] := ObjectAfter(info, c.order[j], c.objs[c.order[j]])], t, j + 1)
  {
    var o := c.order[j];
    TopologicalOrder(c, o);
    RankAt(c.order, j);
    var obj := c.objs[o];
    forall f: nat | f in obj.fanins ensures Live(c, f) && f < |info| && Current(c, inputs, info, f, t) {
      hide WellFormed, Value, Current;
    }
    FaninsCurrent(c, inputs, info, o, t);
    hide WellFormed, Value, Ones, Toggles, Current, Before, Done, Rank, StepOld, StepNew, Live, Apply, FaninValues;
    var next := info[o := ObjectAfter(info, o, obj)];
    assert Before(c, inputs, info, o, t);
    if FaninStatus(info, obj.fanins) == Old {
      EvalOld(c, inputs, info, o, t, next);
    } else {
      ValuesOfFanins(c, inputs, info, o, t);
      EvalNew(c, inputs, info, o, t, next);
    }
    DuringStep(c, inputs, info, t, j, next);
  }

  lemma FaninsCurrent(c: Circuit, inputs: Inputs, info: seq<Info>, o: nat, t: nat)
    requires WellFormed(c) && o in c.order && o < |c.objs| == |info|
    requires forall f: nat | f in c.objs[o].fanins :: Live(c, f) && f < |info| && Current(c, inputs, info, f, t)
    ensures forall f: nat | f in c.objs[o].fanins :: info[f].value == Value(c, inputs, f, t) && info[f].status in {New, Old}
  {
    hide WellFormed, Value, Live;
  }

  lemma UpdateReady(c: Circuit, inputs: Inputs, info: seq<Info>, t: nat)
    requires WellFormed(c) && During(c, inputs, info, t, |c.order|)
    ensures LatchesFit(c.latches, |info|) && Ready(c, inputs, SetLatches(info, c.latches, |c.latches|), t + 1)
    ensures forall o: nat | Live(c, o) && c.objs[o].kind != LatchOutput :: SetLatches(info, c.latches, |c.latches|)[o] == info[o]
    ensures forall k | 0 <= k < |c.latches| :: SetLatches(info, c.latches, |c.latches|)[c.latches[k].output] == info[c.latches[k].driver]
  {
    hide Value, Current, Before, Done, Topological, Apart, InOrder, SetLatches;
    assert LatchesFit(c.latches, |info|) by { DriversLive(c); }
    InOrderSimultaneous(info, c.latches);
    var next := SetLatches(info, c.latches, |c.latches|);
    forall o: nat | Live(c, o)
      ensures if c.objs[o].kind == LatchOutput then Current(c, inputs, next, o, t + 1)
              else Before(c, inputs, next, o, t + 1) && next[o] == info[o]
    {
      if c.objs[o].kind == LatchOutput {
        LatchBehind(c, o);
        AllCurrent(c, inputs, info, c.latches[LatchOf(c.latches, o)].driver, t);
        LatchCurrent(c, inputs, info, next, o, t);
      } else {
        Unwritten(c, o);
        LatchFrame(info, c.latches, o);
        DoneIsBefore(c, inputs, info, next, o, t);
      }
    }
  }

  lemma DriversLive(c: Circuit)
    requires WellFormed(c)
    ensures forall k | 0 <= k < |c.latches| :: c.latches[k].driver < |c.objs|
  {
  }

  lemma Unwritten(c: Circuit, o: nat)
    requires WellFormed(c) && Live(c, o) && c.objs[o].kind != LatchOutput
    ensures forall k | 0 <= k < |c.latches| :: !Writes(c.latches[k], o)
  {
    TopologicalOrder(c, o);
    hide Topological, Apart, InOrder;
  }

  lemma LatchBehind(c: Circuit, o: nat)
    requires WellFormed(c) && Live(c, o) && c.objs[o].kind == LatchOutput
    ensures LatchOf(c.latches, o) < |c.latches| && c.latches[LatchOf(c.latches, o)].output == o
    ensures Live(c, c.latches[LatchOf(c.latches, o)].driver)
  {
    hide Topological, Apart, InOrder;
    assert LatchOk(c, c.latches[LatchOf(c.latches, o)]);
  }

  lemma AllCurrent(c: Circuit, inputs: Inputs, info: seq<Info>, o: nat, t: nat)
    requires WellFormed(c) && During(c, inputs, info, t, |c.order|) && Live(c, o)
    ensures Current(c, inputs, info, o, t)
    ensures c.objs[o].kind != LatchOutput ==> Done(c, inputs, info, o, t)
  {
    hide WellFormed, Live, Current, Counted;
  }

  lemma DoneIsBefore(c: Circuit, inputs: Inputs, info: seq<Info>, next: seq<Info>, o: nat, t: nat)
    requires WellFormed(c) && During(c, inputs, info, t, |c.order|) && Live(c, o) && c.objs[o].kind != LatchOutput
    requires |next| == |info| && next[o] == info[o]
    ensures Before(c, inputs, next, o, t + 1)
  {
    AllCurrent(c, inputs, info, o, t);
    SameInfo(c, inputs, info, next, o, t);
    hide WellFormed, Live, Current, Counted;
  }

  lemma LatchCurrent(c: Circuit, inputs: Inputs, info: seq<Info>, next: seq<Info>, o: nat, t: nat)
    requires WellFormed(c) && Live(c, o) && c.objs[o].kind == LatchOutput && |info| == |next| == |c.objs|
    requires Live(c, c.latches[LatchOf(c.latches, o)].driver)
    requires Current(c, inputs, info, c.latches[LatchOf(c.latches, o)].driver, t)
    requires next[o] == info[c.latches[LatchOf(c.latches, o)].driver]
    ensures Current(c, inputs, next, o, t + 1)
  {
  }

  /** The network with the per-object record that simulation keeps. */
  class Simulator {
    const c: Circuit
    var info: seq<Info>

    constructor (c: Circuit)
      ensures this.c == c && |info| == |c.objs|
    {
      this.c := c;
      info := seq(|c.objs|, _ => Info(Undefined, false, 0, 0));
    }

    method Reset()
      requires |info| == |c.objs|
      modifies this`info
      ensures |info| == |c.objs|
      ensures forall o | 0 <= o < |info| :: info[o] == Info(if c.objs[o].kind == LatchOutput then New else Undefined, false, 0, 0)
    {
      for i := 0 to |c.objs|
        invariant |info| == |c.objs|
        invariant forall o | 0 <= o < i :: info[o] == Info(if c.objs[o].kind == LatchOutput then New else Undefined, false, 0, 0)
      {
        info := info[i := Info(if c.objs[i].kind == LatchOutput then New else Undefined, false, 0, 0)];
      }
    }

    method GetPiValues(inputs: Inputs, t: nat)
      requires |info| == |c.objs|
      modifies this`info
      ensures |info| == |c.objs| && forall o | 0 <= o < |info| :: info[o] == InputAfter(c, inputs, old(info), o, t)
      ensures WellFormed(c) && old(Ready(c, inputs, info, t)) ==> During(c, inputs, info, t, 0)
    {
      hide StepInput, WellFormed, Ready, During;
      for i := 0 to |c.objs|
        invariant |info| == |c.objs|
        invariant forall o | 0 <= o < i :: info[o] == InputAfter(c, inputs, old(info), o, t)
        invariant forall o | i <= o < |info| :: info[o] == old(info)[o]
      {
        if c.objs[i].kind == PrimaryInput {
          info := info[i := StepInput(info[i], inputs(i, t))];
        }
      }
      if WellFormed(c) && Ready(c, inputs, old(info), t) {
        InputsDone(c, inputs, old(info), info, t);
      }
    }

    /** Undefined if some fanin is, else new if some fanin is new or simulated, else old. */
    method GetFaninStatus(fanins: seq<nat>) returns (s: Status)
      requires forall f: nat | f in fanins :: f < |info|
      ensures s == FaninStatus(info, fanins)
    {
      for i := 0 to |fanins|
        invariant forall k | 0 <= k < i :: fanins[k] in fanins && info[fanins[k]].status != Undefined
      {
        assert fanins[i] in fanins;
        if info[fanins[i]].status == Undefined { return Undefined; }
      }
      for i := 0 to |fanins|
        invariant forall k | 0 <= k < i :: fanins[k] in fanins && info[fanins[k]].status !in {New, Simulated}
      {
        assert fanins[i] in fanins;
        if info[fanins[i]].status == New || info[fanins[i]].status == Simulated { return New; }
      }
      return Old;
    }

    /** The fanin values; the source asserts that a fanin is new and that none before it is undefined. */
    method GetFaninValues(fanins: seq<nat>) returns (values: seq<bool>)
      requires forall f: nat | f in fanins :: f < |info| && info[f].status != Undefined
      requires exists f: nat | f in fanins :: info[f].status == New
      ensures values == FaninValues(info, fanins)
    {
      values := [];
      for i := 0 to |fanins|
        invariant |values| == i && forall k | 0 <= k < i :: fanins[k] in fanins && values[k] == info[fanins[k]].value
      {
        assert fanins[i] in fanins;
        values := values + [info[fanins[i]].value];
      }
    }

    method EvaluateObject(o: nat)
      requires o < |info| == |c.objs| && Evaluated(c.objs[o])
      requires forall f: nat | f in c.objs[o].fanins :: f < |info| && info[f].status != Simulated
      modifies this`info
      ensures info == old(info)[o := ObjectAfter(old(info), o, c.objs[o])]
    {
      var obj := c.objs[o];
      var status := GetFaninStatus(obj.fanins);
      if status == Undefined {
        info := info[o := info[o].(status := Undefined)];
      } else if status == Old {
        info := info[o := StepOld(info[o])];
      } else {
        var value: bool;
        if obj.kind == Logic {
          var values := GetFaninValues(obj.fanins);
          value := obj.fun(values);
        } else {
          assert obj.fanins[0] in obj.fanins;
          value := info[obj.fanins[0]].value;
        }
        var i := info[o];
        if i.value != value || i.status == Undefined {
          i := Info(New, value, i.ones, if i.status != Undefined then i.toggles + 1 else i.toggles);
        } else {
          i := i.(status := Old);
        }
        info := info[o := i.(ones := if i.value then i.ones + 1 else i.ones)];
      }
    }

    method EvaluateCircuit(ghost inputs: Inputs, ghost t: nat)
      requires WellFormed(c) && During(c, inputs, info, t, 0)
      modifies this`info
      ensures During(c, inputs, info, t, |c.order|)
    {
      hide ObjectAfter;
      for j := 0 to |c.order|
        invariant During(c, inputs, info, t, j)
      {
        ObjectDone(c, inputs, info, t, j);
        EvaluateObject(c.order[j]);
      }
    }

    method UpdateFFs()
      requires LatchesFit(c.latches, |info|)
      modifies this`info
      ensures info == SetLatches(old(info), c.latches, |c.latches|)
    {
      for k := 0 to |c.latches|
        invariant |info| == |old(info)| && info == SetLatches(old(info), c.latches, k)
      {
        var l := c.latches[k];
        var d := info[l.driver];
        info := info[l.input := d];
        info := info[l.box := d];
        info := info[l.output := d];
      }
    }

    /**
     * Event-driven simulation is full evaluation: after any number of cycles every input and evaluated object holds
     * its value, with exact counters, and every latch output has its driver's record.
     */
    method Simulate(inputs: Inputs, cycles: nat)
      requires WellFormed(c) && |info| == |c.objs| && cycles > 0
      modifies this`info
      ensures |info| == |c.objs|
      ensures forall o: nat | Live(c, o) && c.objs[o].kind != LatchOutput :: Done(c, inputs, info, o, cycles - 1)
      ensures forall o: nat | Live(c, o) && c.objs[o].kind == LatchOutput :: info[o].value == Value(c, inputs, o, cycles)
      ensures forall k | 0 <= k < |c.latches| && c.objs[c.latches[k].driver].kind != LatchOutput ::
                info[c.latches[k].output] == info[c.latches[k].driver]
    {
      Reset();
      assert Ready(c, inputs, info, 0);
      for t := 0 to cycles
        invariant Ready(c, inputs, info, t)
        invariant t > 0 ==> Linked(c, info)
      {
        GetPiValues(inputs, t);
        EvaluateCircuit(inputs, t);
        UpdateReady(c, inputs, info, t);
        ghost var was := info;
        UpdateFFs();
        LinkedAfter(c, was);
      }
      FinalValues(c, inputs, info, cycles);
    }
  }

  /** Latch outputs carry the records of their drivers. */
  ghost predicate Linked(c: Circuit, info: seq<Info>)
    requires WellFormed(c) && |info| == |c.objs|
  {
    forall k | 0 <= k < |c.latches| && c.objs[c.latches[k].driver].kind != LatchOutput ::
      info[c.latches[k].output] == info[c.latches[k].driver]
  }

  lemma LinkedAfter(c: Circuit, info: seq<Info>)
    requires WellFormed(c) && |info| == |c.objs| && LatchesFit(c.latches, |info|)
    requires forall o: nat | Live(c, o) && c.objs[o].kind != LatchOutput :: SetLatches(info, c.latches, |c.latches|)[o] == info[o]
    requires forall k | 0 <= k < |c.latches| :: SetLatches(info, c.latches, |c.latches|)[c.latches[k].output] == info[c.latches[k].driver]
    ensures Linked(c, SetLatches(info, c.latches, |c.latches|))
  {
    hide SetLatches, Live, Topological, Apart, InOrder;
  }

  lemma FinalValues(c: Circuit, inputs: Inputs, info: seq<Info>, t: nat)
    requires WellFormed(c) && Ready(c, inputs, info, t) && t > 0
    ensures forall o: nat | Live(c, o) && c.objs[o].kind != LatchOutput :: Done(c, inputs, info, o, t - 1)
    ensures forall o: nat | Live(c, o) && c.objs[o].kind == LatchOutput :: info[o].value == Value(c, inputs, o, t)
  {
    hide WellFormed, Live, Value, Counted;
  }
}
