/** Circuits of logic nodes and latches, and what their objects compute in every cycle. */
module Circuits {
  import opened Binary

  datatype Kind = PrimaryInput | LatchOutput | LatchInput | LatchBox | PrimaryOutput | Logic

  /** A network object. fun is a logic node's function of its fanin values. */
  datatype Obj = Obj(kind: Kind, fanins: seq<nat>, fun: seq<bool> -> bool)

  /** The objects a latch is made of, and the object that drives its data input. */
  datatype Latch = Latch(input: nat, box: nat, output: nat, driver: nat)

  /** order lists the evaluated objects; latches the latches, both in the network's order. */
  datatype Circuit = Circuit(objs: seq<Obj>, order: seq<nat>, latches: seq<Latch>)

  /** Input value of an object in a cycle. */
  type Inputs = (nat, nat) -> bool

  function Rank(order: seq<nat>, o: nat): (r: nat)
    ensures r == 0 <==> o !in order
    ensures r > 0 ==> r <= |order| && order[r - 1] == o
  {
    if order == [] then 0 else if order[0] == o then 1 else
      var r := Rank(order[1..], o);
      assert o in order <==> o in order[1..];
      if r == 0 then 0 else r + 1
  }

  function LatchOf(latches: seq<Latch>, o: nat): (k: nat)
    ensures k <= |latches|
    ensures k < |latches| ==> latches[k].output == o
    ensures k == |latches| ==> forall i | 0 <= i < |latches| :: latches[i].output != o
  {
    if latches == [] then 0 else if latches[0].output == o then 0 else
      var k := LatchOf(latches[1..], o);
      assert forall i | 0 < i < |latches| :: latches[i] == latches[1..][i - 1];
      k + 1
  }

  /** Objects that have a value: inputs, latch outputs and evaluated objects. */
  predicate Live(c: Circuit, o: nat) {
    o < |c.objs| &&
    if c.objs[o].kind == PrimaryInput then true
    else if c.objs[o].kind == LatchOutput then LatchOf(c.latches, o) < |c.latches|
    else o in c.order
  }

  /**
   * The order is topological, over logic nodes and outputs with at least one fanin; latches are driven by live objects
   * and ordered so that updating them one by one is updating them together.
   */
  ghost predicate WellFormed(c: Circuit) {
    && Topological(c)
    && (forall k | 0 <= k < |c.latches| :: LatchOk(c, c.latches[k]))
    && Apart(c.latches) && InOrder(c.latches)
  }

  ghost predicate Topological(c: Circuit) {
    && (forall i, j | 0 <= i < j < |c.order| :: c.order[i] != c.order[j])
    && (forall o: nat | o in c.order :: InPlace(c, o))
  }

  /** An evaluated object: it has fanins, and all of them come before it. */
  ghost predicate InPlace(c: Circuit, o: nat) {
    && o < |c.objs| && Evaluated(c.objs[o])
    && forall f: nat | f in c.objs[o].fanins :: Live(c, f) && Rank(c.order, f) < Rank(c.order, o)
  }

  predicate Evaluated(obj: Obj) {
    (obj.kind == Logic || obj.kind == PrimaryOutput) && obj.fanins != []
  }

  predicate LatchOk(c: Circuit, l: Latch) {
    && l.input < |c.objs| && c.objs[l.input].kind == LatchInput
    && l.box < |c.objs| && c.objs[l.box].kind == LatchBox
    && l.output < |c.objs| && c.objs[l.output].kind == LatchOutput
    && Live(c, l.driver)
  }

  predicate Writes(l: Latch, o: nat) {
    o == l.input || o == l.box || o == l.output
  }

  /** No latch reads an object that an earlier latch writes, except one that the earlier latch feeds back to itself. */
  predicate InOrder(latches: seq<Latch>) {
    forall i, k | 0 <= i < k < |latches| && Writes(latches[i], latches[k].driver) :: latches[i].driver == latches[k].driver
  }

  /** No two latches write the same object. */
  ghost predicate Apart(latches: seq<Latch>) {
    forall i, k, o: nat | 0 <= i < k < |latches| && Writes(latches[i], o) :: !Writes(latches[k], o)
  }

  // ----- Meaning -----

  function Apply(obj: Obj, values: seq<bool>): bool
    requires |values| == |obj.fanins| && Evaluated(obj)
  {
    if obj.kind == Logic then obj.fun(values) else values[0]
  }

  /** The value of an object in cycle t: latch outputs start at 0 and take their driver's value of the cycle before. */
  ghost function Value(c: Circuit, inputs: Inputs, o: nat, t: nat): bool
    requires WellFormed(c) && Live(c, o)
    decreases t, Rank(c.order, o)
  {
    if c.objs[o].kind == PrimaryInput then inputs(o, t)
    else if c.objs[o].kind == LatchOutput then
      if t == 0 then false else Value(c, inputs, c.latches[LatchOf(c.latches, o)].driver, t - 1)
    else
      assert InPlace(c, o);
      var obj := c.objs[o];
      Apply(obj, seq(|obj.fanins|, i requires 0 <= i < |obj.fanins| => Value(c, inputs, obj.fanins[i], t)))
  }

  /** Cycles 0 .. t in which the object is 1. */
  ghost function Ones(c: Circuit, inputs: Inputs, o: nat, t: nat): nat
    requires WellFormed(c) && Live(c, o)
  {
    (if t == 0 then 0 else Ones(c, inputs, o, t - 1)) + Bit(Value(c, inputs, o, t))
  }

  /** Changes of the object's value up to cycle t. */
  ghost function Toggles(c: Circuit, inputs: Inputs, o: nat, t: nat): nat
    requires WellFormed(c) && Live(c, o)
  {
    if t == 0 then 0
    else Toggles(c, inputs, o, t - 1) + Bit(Value(c, inputs, o, t) != Value(c, inputs, o, t - 1))
  }

  lemma TopologicalOrder(c: Circuit, o: nat)
    requires WellFormed(c)
    ensures o in c.order ==> InPlace(c, o)
  {
  }

  lemma OrderEvaluated(c: Circuit, o: nat)
    requires WellFormed(c) && o in c.order
    ensures o < |c.objs| && Evaluated(c.objs[o])
    ensures forall f: nat | f in c.objs[o].fanins :: Live(c, f) && Rank(c.order, f) < Rank(c.order, o)
  {
    assert InPlace(c, o);
  }

  /** Old fanins leave the object's value as it was, so skipping the evaluation changes nothing. */
  lemma ValueUnchanged(c: Circuit, inputs: Inputs, o: nat, t: nat)
    requires WellFormed(c) && Live(c, o) && o in c.order && t > 0
    requires forall f: nat | f in c.objs[o].fanins :: Live(c, f) && Value(c, inputs, f, t) == Value(c, inputs, f, t - 1)
    ensures Value(c, inputs, o, t) == Value(c, inputs, o, t - 1)
  {
    OrderEvaluated(c, o);
    var obj := c.objs[o];
    assert seq(|obj.fanins|, i requires 0 <= i < |obj.fanins| => assert obj.fanins[i] in obj.fanins; Value(c, inputs, obj.fanins[i], t)) ==
           seq(|obj.fanins|, i requires 0 <= i < |obj.fanins| => assert obj.fanins[i] in obj.fanins; Value(c, inputs, obj.fanins[i], t - 1));
  }

  lemma OneCycle(c: Circuit, inputs: Inputs, o: nat, t: nat)
    requires WellFormed(c) && Live(c, o) && t > 0
    ensures Ones(c, inputs, o, t) == Ones(c, inputs, o, t - 1) + Bit(Value(c, inputs, o, t))
    ensures Toggles(c, inputs, o, t) == Toggles(c, inputs, o, t - 1) + Bit(Value(c, inputs, o, t) != Value(c, inputs, o, t - 1))
  {
    hide WellFormed, Value, Live;
  }

  lemma {:induction false} RankAt(order: seq<nat>, j: nat)
    requires j < |order| && forall i, k | 0 <= i < k < |order| :: order[i] != order[k]
    ensures Rank(order, order[j]) == j + 1
  {
    var r := Rank(order, order[j]);
    assert order[j] in order && r > 0;
  }
}
