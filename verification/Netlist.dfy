/** Nodes, their output nets and the pins the nets drive, for the level checks. */
module Netlist {
  import opened Options

  /** An input pin of a node. */
  datatype Pin = Pin(node: nat, idx: nat)

  /** Where a pin hangs: fanout spot of an output net of a node. */
  datatype Spot = Spot(node: nat, output: nat, fanout: nat)

  /** nets lists the fanout pins of each output, with gaps. */
  datatype Node = Node(isFF: bool, inputs: nat, nets: seq<seq<Option<Pin>>>)

  /** driver gives each driven pin's spot, the way back from a pin over its net to the driving output. */
  datatype Netlist = Netlist(
    nodes: seq<Node>, topInputs: seq<Option<nat>>, vcc: Option<nat>, gnd: Option<nat>, pad: Option<nat>,
    ffs: seq<Option<nat>>, driver: map<Pin, Spot>)

  predicate SpotOf(g: Netlist, s: Spot, p: Pin) {
    && s.node < |g.nodes| && s.output < |g.nodes[s.node].nets| && s.fanout < |g.nodes[s.node].nets[s.output]|
    && g.nodes[s.node].nets[s.output][s.fanout] == Some(p)
  }

  function Chosen(xs: seq<Option<nat>>): seq<nat> {
    if xs == [] then [] else Chosen(xs[..|xs| - 1]) + One(xs[|xs| - 1])
  }

  function One(x: Option<nat>): seq<nat> {
    if x.Some? then [x.value] else []
  }

  /** The nodes of level 0: inputs, supply, ground, pad and flip-flops. */
  function Sources(g: Netlist): seq<nat> {
    Chosen(g.topInputs) + One(g.vcc) + One(g.gnd) + One(g.pad) + Chosen(g.ffs)
  }

  /** Chosen keeps what is there, in order. */
  lemma {:induction false} ChosenAppend(xs: seq<Option<nat>>, ys: seq<Option<nat>>)
    ensures Chosen(xs + ys) == Chosen(xs) + Chosen(ys)
  {
    if ys == [] {
      assert xs + ys == xs;
    } else {
      assert (xs + ys)[..|xs + ys| - 1] == xs + ys[..|ys| - 1];
      ChosenAppend(xs, ys[..|ys| - 1]);
    }
  }

  lemma ChosenOne(x: Option<nat>)
    ensures Chosen([x]) == if x.Some? then [x.value] else []
  {
    assert [x][..0] == [];
  }

  lemma {:induction false} ChosenHas(xs: seq<Option<nat>>, v: nat)
    ensures v in Chosen(xs) <==> Some(v) in xs
  {
    if xs != [] {
      ChosenHas(xs[..|xs| - 1], v);
      assert xs == xs[..|xs| - 1] + [xs[|xs| - 1]];
    }
  }

  lemma OneHas(x: Option<nat>, v: nat)
    ensures v in One(x) <==> x == Some(v)
  {
  }

  lemma SourcesInOrder(g: Netlist)
    ensures Sources(g) == Chosen(g.topInputs + [g.vcc, g.gnd, g.pad] + g.ffs)
  {
    hide Chosen, One;
    var three := [g.vcc, g.gnd, g.pad];
    ChosenAppend(g.topInputs + three, g.ffs);
    ChosenAppend(g.topInputs, three);
    ChosenThree(g.vcc, g.gnd, g.pad);
    assert Chosen(g.topInputs) + (One(g.vcc) + One(g.gnd) + One(g.pad)) == Chosen(g.topInputs) + One(g.vcc) + One(g.gnd) + One(g.pad);
  }

  lemma ChosenThree(x: Option<nat>, y: Option<nat>, z: Option<nat>)
    ensures Chosen([x, y, z]) == One(x) + One(y) + One(z)
  {
    ChosenAppend([x, y], [z]);
    ChosenAppend([x], [y]);
    assert [x, y, z] == [x, y] + [z] && [x, y] == [x] + [y];
    ChosenOne(x);
    ChosenOne(y);
    ChosenOne(z);
  }

  lemma SourceHas(g: Netlist, v: nat)
    ensures v in Sources(g)
            <==> Some(v) in g.topInputs || g.vcc == Some(v) || g.gnd == Some(v) || g.pad == Some(v) || Some(v) in g.ffs
  {
    hide Chosen, One;
    ChosenHas(g.topInputs, v);
    ChosenHas(g.ffs, v);
    OneHas(g.vcc, v);
    OneHas(g.gnd, v);
    OneHas(g.pad, v);
  }

  /** The sources one by one, and in their order. */
  lemma SourcesExact(g: Netlist)
    ensures Sources(g) == Chosen(g.topInputs + [g.vcc, g.gnd, g.pad] + g.ffs)
    ensures forall v: nat :: v in Sources(g)
              <==> Some(v) in g.topInputs || g.vcc == Some(v) || g.gnd == Some(v) || g.pad == Some(v) || Some(v) in g.ffs
  {
    hide Chosen, One, Sources;
    SourcesInOrder(g);
    forall v: nat ensures v in Sources(g)
              <==> Some(v) in g.topInputs || g.vcc == Some(v) || g.gnd == Some(v) || g.pad == Some(v) || Some(v) in g.ffs {
      SourceHas(g, v);
    }
  }

  /**
   * Pins and drivers agree; every flip-flop is listed; the listed nodes are distinct, and those that are not flip-flops
   * have no inputs.
   */
  ghost predicate WellFormed(g: Netlist) {
    && (forall s: Spot, p: Pin :: SpotOf(g, s, p) ==> p in g.driver && g.driver[p] == s && p.node < |g.nodes| && p.idx < g.nodes[p.node].inputs)
    && (forall p: Pin | p in g.driver :: SpotOf(g, g.driver[p], p))
    && (forall i | 0 <= i < |Sources(g)| :: Sources(g)[i] < |g.nodes|)
    && (forall i, j | 0 <= i < j < |Sources(g)| :: Sources(g)[i] != Sources(g)[j])
    && (forall v: nat | v < |g.nodes| :: if g.nodes[v].isFF then v in Sources(g) else v in Sources(g) ==> g.nodes[v].inputs == 0)
  }

  /** A node that gets its level from its drivers. */
  predicate Combinational(g: Netlist, v: nat) {
    v < |g.nodes| && v !in Sources(g) && g.nodes[v].inputs > 0
  }

  /** v has a level, of at most l: it is a source, or every one of its pins is driven from a level below. */
  ghost predicate AtMost(g: Netlist, v: nat, l: nat)
    decreases l, 0
  {
    v < |g.nodes| &&
    (v in Sources(g) || (l > 0 && Combinational(g, v) && forall i: nat | i < g.nodes[v].inputs :: PinAtMost(g, Pin(v, i), l - 1)))
  }

  ghost predicate PinAtMost(g: Netlist, p: Pin, l: nat)
    decreases l, 1
  {
    p in g.driver && AtMost(g, g.driver[p].node, l)
  }
}
