/**
 * The nodes that width splitting builds, read as RAMs off their pins' nets: every slice is the memory on its stretch of the
 * word, and on every run the slices together are the memory they were cut from.
 */
module SlicedRam {
  import opened Options
  import opened Signals
  import opened BankedRam
  import opened PinGraph
  import opened SlicePlan
  import opened SliceStore
  import opened WidthSplit
  import opened RamSlices

  // ----- Memory nodes as RAM ports -----

  /** What a net carries; None is a pin without one. */
  type Wires = Option<nat> -> Signal

  /** One access port: the numbers of the node's ports that are its address, data, enable and output. */
  datatype Access = Access(addr: nat, data: nat, we: Option<nat>, out: nat)

  /** The net of the pin in spot o. */
  function NetAt(s: Store, side: Side, o: nat): Option<nat> {
    if o < |side.pins| && side.pins[o].Some? && side.pins[o].value < |s.pins| then s.pins[side.pins[o].value].net else None
  }

  /** The nets of the first k pins of port j. */
  function PortNets(s: Store, side: Side, j: nat, k: nat): (nets: seq<Option<nat>>)
    requires j < |side.sizes|
    ensures |nets| == k
  {
    if k == 0 then [] else PortNets(s, side, j, k - 1) + [NetAt(s, side, Offset(side.sizes, j) + k - 1)]
  }

  function NetsOf(s: Store, side: Side, j: nat): (nets: seq<Option<nat>>)
    requires j < |side.sizes|
    ensures |nets| == side.sizes[j]
  {
    PortNets(s, side, j, side.sizes[j])
  }

  function Carried(nets: seq<Option<nat>>, wires: Wires): (r: seq<Signal>)
    ensures |r| == |nets|
  {
    seq(|nets|, k requires 0 <= k < |nets| => wires(nets[k]))
  }

  predicate AccessOk(n: Node, a: Access) {
    a.addr < |n.ins.sizes| && a.data < |n.ins.sizes| && (a.we.Some? ==> a.we.value < |n.ins.sizes|) && a.out < |n.outs.sizes|
  }

  predicate AccessesOk(n: Node, accesses: seq<Access>) {
    forall p | 0 <= p < |accesses| :: AccessOk(n, accesses[p])
  }

  /** An access port as the node's pins make it. */
  function View(s: Store, n: Node, a: Access, wires: Wires): Port
    requires AccessOk(n, a)
  {
    Port(Carried(NetsOf(s, n.ins, a.addr), wires), Carried(NetsOf(s, n.ins, a.data), wires),
         if a.we.None? || n.ins.sizes[a.we.value] == 0 then None else Some(Carried(NetsOf(s, n.ins, a.we.value), wires)[0]))
  }

  function Views(s: Store, n: Node, accesses: seq<Access>, wires: Wires): (ports: seq<Port>)
    requires AccessesOk(n, accesses)
    ensures |ports| == |accesses|
  {
    if accesses == [] then []
    else Views(s, n, accesses[..|accesses| - 1], wires) + [View(s, n, accesses[|accesses| - 1], wires)]
  }

  /** The data port is shared out, address and enable are not. */
  predicate SharesData(shared: seq<bool>, a: Access) {
    && a.addr < |shared| && !shared[a.addr] && a.data < |shared| && shared[a.data]
    && (a.we.Some? ==> a.we.value < |shared| && !shared[a.we.value])
  }

  predicate AllShareData(shared: seq<bool>, accesses: seq<Access>) {
    forall p | 0 <= p < |accesses| :: SharesData(shared, accesses[p])
  }

  // ----- A slice's pins -----

  lemma {:induction false} PortNetsAt(s: Store, side: Side, j: nat, n: nat, k: nat)
    requires j < |side.sizes| && k < n
    ensures PortNets(s, side, j, n)[k] == NetAt(s, side, Offset(side.sizes, j) + k)
  {
    hide NetAt, Offset;
    if k < n - 1 {
      PortNetsAt(s, side, j, n - 1, k);
    }
  }

  /** Moved or copied, a pin of the slice is on the net of the pin it stands for. */
  lemma SameNet(s0: Store, s: Store, before: Side, after: Side, es: seq<Entry>, x: nat)
    requires Holds(s0, s, before.pins, after, es) && PinsKept(s0, s) && x < |es|
    ensures NetAt(s, after, x) == NetAt(s0, before, es[x].place)
  {
    assert SpotHolds(s0, s, before.pins, es[x], after.pins[x]);
  }

  /** One side of slice i holds what the plan says. */
  ghost predicate SideSliced(s0: Store, s: Store, plan: Plan, i: nat, before: Side, after: Side) {
    && PlanOk(plan) && plan.sizes == before.sizes && PinsKept(s0, s) && i < plan.slices
    && Holds(s0, s, before.pins, after, SideEntries(plan, i, |plan.sizes|)) && after.sizes == ShareSizes(plan, i, |plan.sizes|)
  }

  lemma SlicePinNet(s0: Store, s: Store, plan: Plan, i: nat, before: Side, after: Side, j: nat, k: nat)
    requires SideSliced(s0, s, plan, i, before, after) && j < |plan.sizes| && k < Share(plan, i, j)
    ensures |after.sizes| == |plan.sizes|
    ensures NetAt(s, after, Offset(after.sizes, j) + k) == NetAt(s0, before, PortEntry(plan, i, j, k).place)
  {
    hide Holds, PinsKept, Offset, Share, PortEntry, NetAt, SideEntries;
    EntryAt(plan, i, |plan.sizes|, j, k);
    SameNet(s0, s, before, after, SideEntries(plan, i, |plan.sizes|), Offset(after.sizes, j) + k);
  }

  lemma PortShape(s0: Store, s: Store, plan: Plan, i: nat, before: Side, after: Side, j: nat)
    requires SideSliced(s0, s, plan, i, before, after) && j < |plan.sizes|
    ensures |after.sizes| == |before.sizes| == |plan.sizes| == |plan.shared| && after.sizes[j] == Share(plan, i, j)
    ensures plan.shared[j] ==> before.sizes[j] == plan.width
    ensures Start(plan.width, plan.target, i) <= Start(plan.width, plan.target, i + 1) <= plan.width
    ensures Share(plan, i, j) == if plan.shared[j] then Start(plan.width, plan.target, i + 1) - Start(plan.width, plan.target, i) else before.sizes[j]
  {
    hide Holds, PinsKept, Start, SideEntries;
    ShareSizesAt(plan, i, |plan.sizes|, j);
    StartBounds(plan.width, plan.target, i);
  }

  /** A shared port of slice i is on its stretch of the original port's nets. */
  lemma SharedNets(s0: Store, s: Store, plan: Plan, i: nat, before: Side, after: Side, j: nat)
    requires SideSliced(s0, s, plan, i, before, after) && j < |plan.sizes| && plan.shared[j]
    ensures |after.sizes| == |before.sizes| == |plan.sizes|
    ensures Start(plan.width, plan.target, i) <= Start(plan.width, plan.target, i + 1) <= before.sizes[j]
    ensures NetsOf(s, after, j) == NetsOf(s0, before, j)[Start(plan.width, plan.target, i)..Start(plan.width, plan.target, i + 1)]
  {
    PortShape(s0, s, plan, i, before, after, j);
    hide SideSliced, NetAt, Offset, Share, Start;
    var a, b := Start(plan.width, plan.target, i), Start(plan.width, plan.target, i + 1);
    forall k: nat | k < b - a ensures NetsOf(s, after, j)[k] == NetsOf(s0, before, j)[a..b][k] {
      PortNetsAt(s, after, j, after.sizes[j], k);
      PortNetsAt(s0, before, j, before.sizes[j], a + k);
      SlicePinNet(s0, s, plan, i, before, after, j, k);
    }
  }

  /** The other ports are on the nets of the original ports. */
  lemma WholeNets(s0: Store, s: Store, plan: Plan, i: nat, before: Side, after: Side, j: nat)
    requires SideSliced(s0, s, plan, i, before, after) && j < |plan.sizes| == |plan.shared| && !plan.shared[j]
    ensures |after.sizes| == |before.sizes| == |plan.sizes| && after.sizes[j] == before.sizes[j]
    ensures NetsOf(s, after, j) == NetsOf(s0, before, j)
  {
    PortShape(s0, s, plan, i, before, after, j);
    hide SideSliced, NetAt, Offset, Share, Start;
    forall k: nat | k < before.sizes[j] ensures NetsOf(s, after, j)[k] == NetsOf(s0, before, j)[k] {
      PortNetsAt(s, after, j, after.sizes[j], k);
      PortNetsAt(s0, before, j, before.sizes[j], k);
      SlicePinNet(s0, s, plan, i, before, after, j, k);
    }
  }

  // ----- A slice as a RAM -----

  lemma ViewSliced(s0: Store, s: Store, plan: Plan, i: nat, before: Node, after: Node, a: Access, wires: Wires)
    requires SideSliced(s0, s, plan, i, before.ins, after.ins) && AccessOk(before, a) && SharesData(plan.shared, a)
    requires |after.outs.sizes| == |before.outs.sizes|
    ensures AccessOk(after, a) && |View(s0, before, a, wires).data| == plan.width
    ensures Start(plan.width, plan.target, i) <= Start(plan.width, plan.target, i + 1) <= plan.width
    ensures View(s, after, a, wires)
         == SlicePort(View(s0, before, a, wires), Start(plan.width, plan.target, i), Start(plan.width, plan.target, i + 1))
  {
    PortShape(s0, s, plan, i, before.ins, after.ins, a.data);
    hide SideSliced, NetsOf, Start, Share;
    var x, y := Start(plan.width, plan.target, i), Start(plan.width, plan.target, i + 1);
    SharedNets(s0, s, plan, i, before.ins, after.ins, a.data);
    assert Carried(NetsOf(s0, before.ins, a.data)[x..y], wires) == Carried(NetsOf(s0, before.ins, a.data), wires)[x..y];
    WholeNets(s0, s, plan, i, before.ins, after.ins, a.addr);
    if a.we.Some? {
      WholeNets(s0, s, plan, i, before.ins, after.ins, a.we.value);
    }
  }

  lemma {:induction false} ViewsSliced(s0: Store, s: Store, plan: Plan, i: nat, before: Node, after: Node, accesses: seq<Access>, wires: Wires)
    requires SideSliced(s0, s, plan, i, before.ins, after.ins) && AccessesOk(before, accesses) && AllShareData(plan.shared, accesses)
    requires |after.outs.sizes| == |before.outs.sizes|
    ensures AccessesOk(after, accesses) && Wide(Views(s0, before, accesses, wires), plan.width)
    ensures Start(plan.width, plan.target, i) <= Start(plan.width, plan.target, i + 1) <= plan.width
    ensures Views(s, after, accesses, wires)
         == SlicePorts(Views(s0, before, accesses, wires), plan.width, Start(plan.width, plan.target, i), Start(plan.width, plan.target, i + 1))
  {
    hide SideSliced, View, Start, AccessOk, SharesData, SlicePort;
    StartBounds(plan.width, plan.target, i);
    if accesses != [] {
      var front, last := accesses[..|accesses| - 1], accesses[|accesses| - 1];
      ViewsSliced(s0, s, plan, i, before, after, front, wires);
      ViewSliced(s0, s, plan, i, before, after, last, wires);
      var ports := Views(s0, before, accesses, wires);
      assert ports[..|ports| - 1] == Views(s0, before, front, wires);
    }
  }

  // ----- All slices -----

  lemma {:induction false} SlicesForAt(ins: Plan, outs: Plan, n: nat, i: nat)
    requires |ins.sizes| == |ins.shared| && |outs.sizes| == |outs.shared| && i < n
    ensures SlicesFor(ins, outs, n)[i] == SliceFor(ins, outs, i)
  {
    hide SliceFor;
    if i < n - 1 {
      SlicesForAt(ins, outs, n - 1, i);
    }
  }

  /** Both sides of the i-th new node. */
  lemma NodeSliced(s0: Store, s: Store, v: nat, shared: seq<bool>, width: nat, target: nat, i: nat)
    requires v < |s0.nodes| && target > 0 && Sliced(s0, s, v, shared, width, target) && i < SliceCount(width, target)
    ensures |s.nodes| == |s0.nodes| + SliceCount(width, target)
    ensures SideSliced(s0, s, InPlan(s0.nodes[v], shared, width, target), i, s0.nodes[v].ins, s.nodes[|s0.nodes| + i].ins)
    ensures SideSliced(s0, s, OutPlan(s0.nodes[v], width, target), i, s0.nodes[v].outs, s.nodes[|s0.nodes| + i].outs)
  {
    hide Consistent, Holds, PinsKept, PlanOk, SideEntries, ShareSizes, AllShared, SliceCount, Remains, SlicesFor;
    var ins, outs, n := InPlan(s0.nodes[v], shared, width, target), OutPlan(s0.nodes[v], width, target), SliceCount(width, target);
    SlicesForAt(ins, outs, n, i);
    assert SliceOk(s0, s, v, |s0.nodes| + i, SlicesFor(ins, outs, n)[i]);
  }

  /** Slice i of a node that has been cut is the node's RAM on its stretch of the word. */
  lemma NodeIsStretch(s0: Store, s: Store, v: nat, shared: seq<bool>, width: nat, target: nat, i: nat, accesses: seq<Access>, wires: Wires)
    requires v < |s0.nodes| && target > 0 && Sliced(s0, s, v, shared, width, target) && i < SliceCount(width, target)
    requires AccessesOk(s0.nodes[v], accesses) && AllShareData(shared, accesses)
    ensures |s.nodes| == |s0.nodes| + SliceCount(width, target)
    ensures AccessesOk(s.nodes[|s0.nodes| + i], accesses) && Wide(Views(s0, s0.nodes[v], accesses, wires), width)
    ensures Start(width, target, i) <= Start(width, target, i + 1) <= width
    ensures Views(s, s.nodes[|s0.nodes| + i], accesses, wires)
         == SlicePorts(Views(s0, s0.nodes[v], accesses, wires), width, Start(width, target, i), Start(width, target, i + 1))
  {
    hide Sliced, SideSliced, View, Start, SliceCount, AccessesOk, AllShareData, Wide;
    NodeSliced(s0, s, v, shared, width, target, i);
    var outs, after := OutPlan(s0.nodes[v], width, target), s.nodes[|s0.nodes| + i];
    SameOuts(s0, s, outs, i, s0.nodes[v].outs, after.outs);
    ViewsSliced(s0, s, InPlan(s0.nodes[v], shared, width, target), i, s0.nodes[v], after, accesses, wires);
  }

  /** It puts the stretch out on its stretch of the node's output nets. */
  lemma NodeNets(s0: Store, s: Store, v: nat, shared: seq<bool>, width: nat, target: nat, i: nat, j: nat)
    requires v < |s0.nodes| && target > 0 && Sliced(s0, s, v, shared, width, target) && i < SliceCount(width, target)
    requires j < |s0.nodes[v].outs.sizes|
    ensures |s.nodes| == |s0.nodes| + SliceCount(width, target)
    ensures OutStretch(s0, s, s0.nodes[v].outs, s.nodes[|s0.nodes| + i].outs, j, Start(width, target, i), Start(width, target, i + 1))
  {
    hide Sliced, SideSliced, Start, SliceCount, NetsOf;
    NodeSliced(s0, s, v, shared, width, target, i);
    var outs, after := OutPlan(s0.nodes[v], width, target), s.nodes[|s0.nodes| + i];
    SameOuts(s0, s, outs, i, s0.nodes[v].outs, after.outs);
    SharedNets(s0, s, outs, i, s0.nodes[v].outs, after.outs, j);
  }

  lemma SameOuts(s0: Store, s: Store, plan: Plan, i: nat, before: Side, after: Side)
    requires SideSliced(s0, s, plan, i, before, after)
    ensures |after.sizes| == |before.sizes| == |plan.sizes| == |plan.shared|
  {
  }

  /** Output port j of a slice is on nets a .. b - 1 of the original's. */
  predicate OutStretch(s0: Store, s: Store, before: Side, after: Side, j: nat, a: nat, b: nat) {
    && j < |before.sizes| && j < |after.sizes| && a <= b <= before.sizes[j]
    && NetsOf(s, after, j) == NetsOf(s0, before, j)[a..b]
  }

  /** The first n nodes from first on are memories with these access ports. */
  predicate Memories(s: Store, first: nat, n: nat, accesses: seq<Access>) {
    first + n <= |s.nodes| && forall i | first <= i < first + n :: AccessesOk(s.nodes[i], accesses)
  }

  /** The words that these memories put out at access port p after cycle t, side by side. */
  function Words(s: Store, first: nat, n: nat, accesses: seq<Access>, wires: Wires, ms: seq<Mem>, trace: seq<Values>, t: nat, p: nat): Word
    requires Memories(s, first, n, accesses) && n <= |ms|
  {
    if n == 0 then [] else
      var outs := RunRam(Views(s, s.nodes[first + n - 1], accesses, wires), ms[n - 1], trace);
      Words(s, first, n - 1, accesses, wires, ms, trace, t, p) + (if t < |outs| && p < |outs[t]| then outs[t][p] else [])
  }

  /** The nets they put them out on. */
  function Nets(s: Store, first: nat, n: nat, accesses: seq<Access>, p: nat): seq<Option<nat>>
    requires Memories(s, first, n, accesses) && p < |accesses|
  {
    if n == 0 then [] else
      assert AccessOk(s.nodes[first + n - 1], accesses[p]);
      Nets(s, first, n - 1, accesses, p) + NetsOf(s, s.nodes[first + n - 1].outs, accesses[p].out)
  }

  lemma NodeAccesses(s0: Store, s: Store, v: nat, shared: seq<bool>, width: nat, target: nat, i: nat, accesses: seq<Access>)
    requires v < |s0.nodes| && target > 0 && Sliced(s0, s, v, shared, width, target) && i < SliceCount(width, target)
    requires AccessesOk(s0.nodes[v], accesses) && AllShareData(shared, accesses)
    ensures |s0.nodes| + i < |s.nodes| && AccessesOk(s.nodes[|s0.nodes| + i], accesses)
  {
    hide *;
    NodeIsStretch(s0, s, v, shared, width, target, i, accesses, _ => Const(false));
  }

  lemma {:induction false} AllMemories(s0: Store, s: Store, v: nat, shared: seq<bool>, width: nat, target: nat, n: nat, accesses: seq<Access>)
    requires v < |s0.nodes| && target > 0 && Sliced(s0, s, v, shared, width, target) && n <= SliceCount(width, target)
    requires AccessesOk(s0.nodes[v], accesses) && AllShareData(shared, accesses)
    ensures Memories(s, |s0.nodes|, n, accesses)
  {
    hide Consistent, MemoryOk, AllSlices, PinsKept, Remains, AccessesOk, AllShareData, SliceCount, SlicesFor;
    if n > 0 {
      AllMemories(s0, s, v, shared, width, target, n - 1, accesses);
      NodeAccesses(s0, s, v, shared, width, target, n - 1, accesses);
    }
  }

  /** What the built nodes put out is what the word stretches of the memory put out. */
  lemma {:induction false} WordsTogether(s0: Store, s: Store, v: nat, shared: seq<bool>, width: nat, target: nat, n: nat,
                                         accesses: seq<Access>, wires: Wires, ms: seq<Mem>, trace: seq<Values>, t: nat, p: nat)
    requires v < |s0.nodes| && target > 0 && Sliced(s0, s, v, shared, width, target) && n <= SliceCount(width, target) == |ms|
    requires AccessesOk(s0.nodes[v], accesses) && AllShareData(shared, accesses)
    requires Memories(s, |s0.nodes|, n, accesses) && Wide(Views(s0, s0.nodes[v], accesses, wires), width)
    ensures Words(s, |s0.nodes|, n, accesses, wires, ms, trace, t, p)
         == Together(ms, Views(s0, s0.nodes[v], accesses, wires), trace, width, target, t, p, n)
  {
    hide Sliced, AccessesOk, AllShareData, SliceCount, Views, SlicePorts, RunRam, Start, OutStretch, Wide;
    if n > 0 {
      WordsTogether(s0, s, v, shared, width, target, n - 1, accesses, wires, ms, trace, t, p);
      NodeIsStretch(s0, s, v, shared, width, target, n - 1, accesses, wires);
    }
  }

  /** What was cut: data and output ports as wide as the word. */
  lemma OriginalWidths(s0: Store, s: Store, v: nat, shared: seq<bool>, width: nat, target: nat)
    requires v < |s0.nodes| && target > 0 && Sliced(s0, s, v, shared, width, target)
    ensures PlanOk(InPlan(s0.nodes[v], shared, width, target))
    ensures forall j | 0 <= j < |s0.nodes[v].outs.sizes| :: s0.nodes[v].outs.sizes[j] == width
  {
    hide Consistent, Progress, Offset;
  }

  lemma NetsStep(s0: Store, s: Store, before: Side, after: Side, j: nat, a: nat, b: nat, nets: seq<Option<nat>>)
    requires OutStretch(s0, s, before, after, j, a, b) && nets == NetsOf(s0, before, j)[..a]
    ensures nets + NetsOf(s, after, j) == NetsOf(s0, before, j)[..b]
  {
    hide NetsOf;
    var whole := NetsOf(s0, before, j);
    assert whole[..a] + whole[a..b] == whole[..b];
  }

  lemma OutBounds(s0: Store, s: Store, v: nat, shared: seq<bool>, width: nat, target: nat, n: nat, accesses: seq<Access>, p: nat)
    requires v < |s0.nodes| && target > 0 && Sliced(s0, s, v, shared, width, target) && AccessesOk(s0.nodes[v], accesses) && p < |accesses|
    ensures accesses[p].out < |s0.nodes[v].outs.sizes| && Start(width, target, n) <= s0.nodes[v].outs.sizes[accesses[p].out]
    ensures Start(width, target, 0) == 0
  {
    StartBounds(width, target, 0);
    StartBounds(width, target, n);
    OriginalWidths(s0, s, v, shared, width, target);
    assert AccessOk(s0.nodes[v], accesses[p]);
  }

  lemma {:induction false} NetsTogether(s0: Store, s: Store, v: nat, shared: seq<bool>, width: nat, target: nat, n: nat, accesses: seq<Access>, p: nat)
    requires v < |s0.nodes| && target > 0 && Sliced(s0, s, v, shared, width, target) && n <= SliceCount(width, target)
    requires AccessesOk(s0.nodes[v], accesses) && AllShareData(shared, accesses) && p < |accesses|
    requires Memories(s, |s0.nodes|, n, accesses)
    ensures accesses[p].out < |s0.nodes[v].outs.sizes| && Start(width, target, n) <= s0.nodes[v].outs.sizes[accesses[p].out]
    ensures Nets(s, |s0.nodes|, n, accesses, p) == NetsOf(s0, s0.nodes[v].outs, accesses[p].out)[..Start(width, target, n)]
  {
    hide Sliced, AccessesOk, AllShareData, SliceCount, Start, NetsOf, OutStretch;
    OutBounds(s0, s, v, shared, width, target, n, accesses, p);
    if n > 0 {
      NetsTogether(s0, s, v, shared, width, target, n - 1, accesses, p);
      NodeNets(s0, s, v, shared, width, target, n - 1, accesses[p].out);
      NetsStep(s0, s, s0.nodes[v].outs, s.nodes[|s0.nodes| + (n - 1)].outs, accesses[p].out,
               Start(width, target, n - 1), Start(width, target, n), Nets(s, |s0.nodes|, n - 1, accesses, p));
    }
  }

  lemma {:induction false} RunShape(ports: seq<Port>, mem: Mem, trace: seq<Values>, t: nat)
    requires t < |trace|
    ensures |RunRam(ports, mem, trace)| == |trace| && |RunRam(ports, mem, trace)[t]| == |ports|
  {
    var next := WriteAll(mem, ports, trace[0]);
    if t > 0 {
      RunShape(ports, next, trace[1..], t - 1);
    } else if |trace| > 1 {
      RunShape(ports, next, trace[1..], 0);
    }
  }

  lemma {:induction false} ViewsWide(s: Store, n: Node, plan: Plan, accesses: seq<Access>, wires: Wires)
    requires PlanOk(plan) && plan.sizes == n.ins.sizes && AccessesOk(n, accesses) && AllShareData(plan.shared, accesses)
    ensures Wide(Views(s, n, accesses, wires), plan.width)
  {
    hide NetsOf;
    if accesses != [] {
      var front, last := accesses[..|accesses| - 1], accesses[|accesses| - 1];
      ViewsWide(s, n, plan, front, wires);
      assert AccessOk(n, last) && SharesData(plan.shared, last);
    }
  }

  lemma MemoryWide(s0: Store, s: Store, v: nat, shared: seq<bool>, width: nat, target: nat, accesses: seq<Access>, wires: Wires)
    requires v < |s0.nodes| && target > 0 && Sliced(s0, s, v, shared, width, target)
    requires AccessesOk(s0.nodes[v], accesses) && AllShareData(shared, accesses)
    ensures Wide(Views(s0, s0.nodes[v], accesses, wires), width)
  {
    OriginalWidths(s0, s, v, shared, width, target);
    hide Sliced, PlanOk, AccessesOk, AllShareData, Views, Wide;
    ViewsWide(s0, s0.nodes[v], InPlan(s0.nodes[v], shared, width, target), accesses, wires);
  }

  /**
   * Cutting a memory node to the architecture's width keeps what it does: after every cycle of every run the nodes built
   * put out, at each access port, the word the memory puts out, on the nets the memory put it out on.
   */
  lemma WidthSplitCorrect(s0: Store, s: Store, v: nat, shared: seq<bool>, width: nat, target: nat, accesses: seq<Access>, wires: Wires,
                          mem: Mem, ms: seq<Mem>, trace: seq<Values>, t: nat, p: nat)
    requires v < |s0.nodes| && target > 0 && Sliced(s0, s, v, shared, width, target)
    requires AccessesOk(s0.nodes[v], accesses) && AllShareData(shared, accesses)
    requires WideMem(mem, width) && |ms| == SliceCount(width, target)
    requires forall i: nat | i < |ms| :: IsStretch(ms[i], mem, width, target, i)
    requires t < |trace| && p < |accesses|
    ensures Memories(s, |s0.nodes|, SliceCount(width, target), accesses)
    ensures t < |RunRam(Views(s0, s0.nodes[v], accesses, wires), mem, trace)| && p < |RunRam(Views(s0, s0.nodes[v], accesses, wires), mem, trace)[t]|
    ensures Words(s, |s0.nodes|, SliceCount(width, target), accesses, wires, ms, trace, t, p)
         == RunRam(Views(s0, s0.nodes[v], accesses, wires), mem, trace)[t][p]
    ensures accesses[p].out < |s0.nodes[v].outs.sizes|
    ensures Nets(s, |s0.nodes|, SliceCount(width, target), accesses, p) == NetsOf(s0, s0.nodes[v].outs, accesses[p].out)
  {
    hide *;
    var n, ports := SliceCount(width, target), Views(s0, s0.nodes[v], accesses, wires);
    AllMemories(s0, s, v, shared, width, target, n, accesses);
    OriginalWidths(s0, s, v, shared, width, target);
    MemoryWide(s0, s, v, shared, width, target, accesses, wires);
    RunShape(ports, mem, trace, t);
    SlicesTogether(mem, ms, ports, trace, width, target, t, p);
    WordsTogether(s0, s, v, shared, width, target, n, accesses, wires, ms, trace, t, p);
    NetsTogether(s0, s, v, shared, width, target, n, accesses, p);
    LastStart(width, target);
  }
}
