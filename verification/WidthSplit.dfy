/**
 * Splitting a memory into slices as wide as the architecture's memories: data and output pins are shared out, the other
 * input pins are copied to every slice but the last, which gets the originals.
 */
module WidthSplit {
  import opened Options
  import opened PinGraph
  import opened SlicePlan
  import opened SliceStore

  // ----- The construction -----

  /** The sizes of the slice's ports at pin k of port j. */
  function PartSizes(plan: Plan, i: nat, j: nat, k: nat): (ns: seq<nat>)
    requires |plan.sizes| == |plan.shared|
    ensures |ns| == |plan.sizes|
  {
    seq(|plan.sizes|, p requires 0 <= p < |plan.sizes| => if p < j then Share(plan, i, p) else if p == j then k else 0)
  }

  lemma {:induction false} ZerosAt(n: nat, x: nat)
    requires x < n
    ensures Zeros(n)[x] == 0
  {
    if x < n - 1 {
      ZerosAt(n - 1, x);
    }
  }

  lemma PartSizesEnds(plan: Plan, i: nat)
    requires |plan.sizes| == |plan.shared|
    ensures PartSizes(plan, i, 0, 0) == Zeros(|plan.sizes|)
    ensures PartSizes(plan, i, |plan.sizes|, 0) == ShareSizes(plan, i, |plan.sizes|)
  {
    forall x: nat | x < |plan.sizes| ensures Zeros(|plan.sizes|)[x] == 0 && ShareSizes(plan, i, |plan.sizes|)[x] == Share(plan, i, x) {
      ZerosAt(|plan.sizes|, x);
      ShareSizesAt(plan, i, |plan.sizes|, x);
    }
  }

  lemma PartSizesStep(plan: Plan, i: nat, j: nat, k: nat)
    requires j < |plan.sizes| == |plan.shared|
    ensures PartSizes(plan, i, j, k)[j] == k && PartSizes(plan, i, j, k)[j := k + 1] == PartSizes(plan, i, j, k + 1)
    ensures PartSizes(plan, i, j, Share(plan, i, j)) == PartSizes(plan, i, j + 1, 0)
  {
    hide Share;
  }

  /** The slice with one side at pin k of port j. */
  function Partial(slice: Slice, d: Dir, plan: Plan, i: nat, j: nat, k: nat): Slice
    requires j < |plan.sizes| == |plan.shared|
  {
    WithEntries(slice, d, SideEntries(plan, i, j) + PortEntries(plan, i, j, k), PartSizes(plan, i, j, k))
  }

  function WithEntries(slice: Slice, d: Dir, es: seq<Entry>, sizes: seq<nat>): Slice {
    if d == In then slice.(ins := es, inSizes := sizes) else slice.(outs := es, outSizes := sizes)
  }

  lemma PartialNext(slice: Slice, d: Dir, plan: Plan, i: nat, j: nat, k: nat)
    requires j < |plan.sizes| == |plan.shared|
    ensures j < |if d == In then Partial(slice, d, plan, i, j, k).inSizes else Partial(slice, d, plan, i, j, k).outSizes|
    ensures Extend(Partial(slice, d, plan, i, j, k), d, PortEntry(plan, i, j, k), j) == Partial(slice, d, plan, i, j, k + 1)
  {
    PartSizesStep(plan, i, j, k);
    hide PartSizes, SideEntries, PortEntry;
    var es := SideEntries(plan, i, j);
    assert PortEntries(plan, i, j, k + 1) == PortEntries(plan, i, j, k) + [PortEntry(plan, i, j, k)];
    assert es + PortEntries(plan, i, j, k) + [PortEntry(plan, i, j, k)] == es + (PortEntries(plan, i, j, k) + [PortEntry(plan, i, j, k)]);
  }

  /** One side of a node, whole and full. */
  ghost predicate SideReady(plan: Plan, side: Side) {
    && PlanOk(plan) && plan.sizes == side.sizes && |side.pins| == Offset(plan.sizes, |plan.sizes|)
    && forall o | 0 <= o < |side.pins| :: side.pins[o].Some?
  }

  /** The state of the inner loops. */
  ghost predicate Building(s0: Store, s: Store, v: nat, before: seq<Slice>, slices: seq<Slice>, d: Dir, plan: Plan, i: nat, j: nat, k: nat)
  {
    && Consistent(s0) && Progress(s0, s, v, slices) && PlanOk(plan) && |plan.shared| == |plan.sizes|
    && j < |plan.sizes| && i < plan.slices && before != []
    && (d == Out ==> forall p | 0 <= p < |plan.shared| :: plan.shared[p])
    && slices == before[|before| - 1 := Partial(before[|before| - 1], d, plan, i, j, k)]
    && plan.sizes == SideOf(s0.nodes[v], d).sizes && Left(plan, SideOf(s.nodes[v], d).pins, i, j, k)
  }

  /** The side of a node that is not being rebuilt stays as it is. */
  predicate OtherSide(before: seq<Node>, after: seq<Node>, d: Dir, v: nat) {
    v < |before| == |after| && if d == In then after[v].outs == before[v].outs else after[v].ins == before[v].ins
  }

  /** Moves or copies the pin at hand into the last slice. */
  method PlacePin(g: Graph, v: nat, d: Dir, ghost plan: Plan, ghost i: nat, j: nat, ghost k: nat, place: nat, move: bool,
                  ghost s0: Store, ghost before: seq<Slice>, ghost slices: seq<Slice>)
    returns (ghost next: seq<Slice>)
    requires Building(s0, g.Now(), v, before, slices, d, plan, i, j, k) && k < Share(plan, i, j)
    requires place == PortEntry(plan, i, j, k).place && move == PortEntry(plan, i, j, k).Moved?
    modifies g
    ensures Building(s0, g.Now(), v, before, next, d, plan, i, j, k + 1)
    ensures OtherSide(old(g.nodes), g.nodes, d, v)
    ensures |g.nodes| == |old(g.nodes)|
  {
    hide Consistent, Progress, Left, PlanOk, PinsKept;
    PlaceFacts(s0, g.Now(), v, before, slices, d, plan, i, j, k);
    var w := |g.nodes| - 1;
    var p := SideOf(g.nodes[v], d).pins[place].value;
    next := before[|before| - 1 := Partial(before[|before| - 1], d, plan, i, j, k + 1)];
    if move {
      PlaceMoved(s0, g.Now(), v, before, slices, d, plan, i, j, k, p);
    } else {
      PlaceCopied(s0, g.Now(), v, before, slices, plan, i, j, k, p);
    }
    hide Building;
    var x := |SideOf(g.nodes[w], d).pins|;
    AllocatePortPin(g, w, d, j);
    if move {
      g.RemapPinToNewNode(p, w, x);
    } else {
      var q := g.CopyInputNPin(p);
      g.AddPinToNodeSpot(q, w, In, x);
    }
  }

  /** allocate one more pin and count it in port j. */
  method AllocatePortPin(g: Graph, w: nat, d: Dir, j: nat)
    requires Consistent(g.Now()) && w < |g.nodes| && j < |SideOf(g.nodes[w], d).sizes|
    modifies g`nodes
    ensures g.Now() == GrowPort(old(g.Now()), w, d, j) && Consistent(g.Now())
  {
    GrowPortKeeps(g.Now(), w, d, j);
    hide Consistent;
    ghost var start := g.Now();
    g.AllocateMorePins(w, d, 1);
    assert g.Now() == Grow(GrowBy(start, w, d, 0), w, d);
    var side := SideOf(g.nodes[w], d);
    g.nodes := g.nodes[w := WithSide(g.nodes[w], d, side.(sizes := side.sizes[j := side.sizes[j] + 1]))];
  }

  /** The loop state at pin k of port j, its slices spelled out. */
  ghost predicate Advanced(s0: Store, s: Store, v: nat, before: seq<Slice>, d: Dir, plan: Plan, i: nat, j: nat, k: nat)
    requires before != [] && j < |plan.sizes| == |plan.shared|
  {
    Building(s0, s, v, before, before[|before| - 1 := Partial(before[|before| - 1], d, plan, i, j, k)], d, plan, i, j, k)
  }

  /** What the loop state says about the pin at hand. */
  lemma PlaceFacts(s0: Store, s: Store, v: nat, before: seq<Slice>, slices: seq<Slice>, d: Dir, plan: Plan, i: nat, j: nat, k: nat)
    requires Building(s0, s, v, before, slices, d, plan, i, j, k) && k < Share(plan, i, j)
    ensures Consistent(s) && v < |s.nodes| && |s.nodes| > 0 && v != |s.nodes| - 1 && |slices| == |before| > 0
    ensures j < |SideOf(s.nodes[|s.nodes| - 1], d).sizes|
    ensures var o := PortEntry(plan, i, j, k).place;
            o < |SideOf(s.nodes[v], d).pins| && SideOf(s.nodes[v], d).pins[o].Some?
    ensures d == Out ==> PortEntry(plan, i, j, k).Moved?
  {
    hide Consistent, Left, Holds, PinsKept, Share;
    HereLeft(plan, SideOf(s.nodes[v], d).pins, i, j, k);
    var last := slices[|slices| - 1];
    assert SliceOk(s0, s, v, |s0.nodes| + (|slices| - 1), last);
    SizesAgree(s0, s, v, |s.nodes| - 1, last, d);
  }

  /** t is s with pin k of port j placed. */
  ghost predicate Placed(s0: Store, s: Store, t: Store, v: nat, before: seq<Slice>, d: Dir, plan: Plan, i: nat, j: nat, k: nat) {
    && before != [] && j < |plan.sizes| == |plan.shared| && Advanced(s0, t, v, before, d, plan, i, j, k + 1)
    && |t.nodes| == |s.nodes| && OtherSide(s.nodes, t.nodes, d, v)
  }

  lemma PlaceMoved(s0: Store, s: Store, v: nat, before: seq<Slice>, slices: seq<Slice>, d: Dir, plan: Plan, i: nat, j: nat, k: nat, p: nat)
    requires j < |plan.sizes| == |plan.shared| && k < Share(plan, i, j) && PortEntry(plan, i, j, k).Moved?
    requires v < |s.nodes| && j < |SideOf(s.nodes[|s.nodes| - 1], d).sizes|
    requires PortEntry(plan, i, j, k).place < |SideOf(s.nodes[v], d).pins| && SideOf(s.nodes[v], d).pins[PortEntry(plan, i, j, k).place] == Some(p)
    requires Building(s0, s, v, before, slices, d, plan, i, j, k)
    ensures Attached(s, p) && s.pins[p].dir == Some(d) && Placed(s0, s, MoveIn(s, p, |s.nodes| - 1, d, j), v, before, d, plan, i, j, k)
  {
    hide Consistent, Left, PinsKept, AllSlices, Remains, PlanOk, PortEntry, Partial, MoveIn;
    var e := PortEntry(plan, i, j, k);
    PartialNext(before[|before| - 1], d, plan, i, j, k);
    MoveStep(s0, s, v, slices, d, e, j, p);
    var grown := Partial(before[|before| - 1], d, plan, i, j, k + 1);
    assert slices[|slices| - 1 := grown] == before[|before| - 1 := grown];
    MoveLeft(plan, SideOf(s.nodes[v], d).pins, i, j, k);
  }

  lemma PlaceCopied(s0: Store, s: Store, v: nat, before: seq<Slice>, slices: seq<Slice>, plan: Plan, i: nat, j: nat, k: nat, p: nat)
    requires j < |plan.sizes| == |plan.shared| && k < Share(plan, i, j) && PortEntry(plan, i, j, k).Copied?
    requires v < |s.nodes| && j < |s.nodes[|s.nodes| - 1].ins.sizes|
    requires PortEntry(plan, i, j, k).place < |s.nodes[v].ins.pins| && s.nodes[v].ins.pins[PortEntry(plan, i, j, k).place] == Some(p)
    requires Building(s0, s, v, before, slices, In, plan, i, j, k)
    ensures p < |s.pins| && s.pins[p].dir == Some(In) && (s.pins[p].net.Some? ==> s.pins[p].net.value < |s.nets|)
    ensures Placed(s0, s, CopyIn(s, p, |s.nodes| - 1, j), v, before, In, plan, i, j, k)
  {
    hide Consistent, Left, PinsKept, AllSlices, Remains, PlanOk, PortEntry, Partial, CopyIn;
    var e := PortEntry(plan, i, j, k);
    PartialNext(before[|before| - 1], In, plan, i, j, k);
    CopyStep(s0, s, v, slices, e, j, p);
    var grown := Partial(before[|before| - 1], In, plan, i, j, k + 1);
    assert slices[|slices| - 1 := grown] == before[|before| - 1 := grown];
    CopyLeft(plan, s.nodes[v].ins.pins, i, j, k);
  }

  lemma NextPort(s0: Store, s: Store, v: nat, before: seq<Slice>, slices: seq<Slice>, d: Dir, plan: Plan, i: nat, j: nat)
    requires j + 1 < |plan.sizes| == |plan.shared| && Building(s0, s, v, before, slices, d, plan, i, j, Share(plan, i, j))
    ensures Building(s0, s, v, before, slices, d, plan, i, j + 1, 0)
  {
    hide Consistent, Left, Progress, PlanOk, Share;
    PartSizesStep(plan, i, j, 0);
    NodeInRange(s0, s, v, slices);
    PortLeft(plan, SideOf(s.nodes[v], d).pins, i, j);
    assert SideEntries(plan, i, j + 1) + PortEntries(plan, i, j + 1, 0) == SideEntries(plan, i, j) + PortEntries(plan, i, j, Share(plan, i, j));
  }

  lemma LastPort(s0: Store, s: Store, v: nat, before: seq<Slice>, slices: seq<Slice>, d: Dir, plan: Plan, i: nat, j: nat)
    requires j + 1 == |plan.sizes| == |plan.shared| && Building(s0, s, v, before, slices, d, plan, i, j, Share(plan, i, j))
    ensures v < |s.nodes| && Left(plan, SideOf(s.nodes[v], d).pins, i, |plan.sizes|, 0)
    ensures slices == before[|before| - 1 := WithEntries(before[|before| - 1], d, SideEntries(plan, i, |plan.sizes|), ShareSizes(plan, i, |plan.sizes|))]
    ensures Progress(s0, s, v, slices)
  {
    hide Consistent, Left, Progress, PlanOk, Share;
    PartSizesStep(plan, i, j, 0);
    PartSizesEnds(plan, i);
    assert v < |s.nodes| by { NodeInRange(s0, s, v, slices); }
    PortLeft(plan, SideOf(s.nodes[v], d).pins, i, j);
    assert SideEntries(plan, i, j + 1) == SideEntries(plan, i, j) + PortEntries(plan, i, j, Share(plan, i, j));
  }

  lemma NodeInRange(s0: Store, s: Store, v: nat, slices: seq<Slice>)
    requires Progress(s0, s, v, slices)
    ensures v < |s.nodes|
  {
  }

  lemma FirstPort(s0: Store, s: Store, v: nat, before: seq<Slice>, d: Dir, plan: Plan, i: nat)
    requires Consistent(s0) && Progress(s0, s, v, before) && PlanOk(plan) && |plan.sizes| > 0 && i < plan.slices && before != []
    requires d == Out ==> forall p | 0 <= p < |plan.shared| :: plan.shared[p]
    requires plan.sizes == SideOf(s0.nodes[v], d).sizes && Left(plan, SideOf(s.nodes[v], d).pins, i, 0, 0)
    requires before[|before| - 1] == WithEntries(before[|before| - 1], d, [], Zeros(|plan.sizes|))
    ensures Building(s0, s, v, before, before, d, plan, i, 0, 0)
  {
    hide Consistent, Left, Progress, PlanOk, Share;
    assert |plan.sizes| == |plan.shared| by { PlanShape(plan); }
    PartSizesEnds(plan, i);
    assert SideEntries(plan, i, 0) + PortEntries(plan, i, 0, 0) == [];
    assert before[|before| - 1 := before[|before| - 1]] == before;
  }

  lemma PlanShape(plan: Plan)
    requires PlanOk(plan)
    ensures |plan.sizes| == |plan.shared|
  {
  }

  /** How a port is gone through: its pins moved or copied, in turn. */
  lemma PortFacts(s0: Store, s: Store, v: nat, before: seq<Slice>, slices: seq<Slice>, d: Dir, plan: Plan, i: nat, j: nat, k: nat)
    requires Building(s0, s, v, before, slices, d, plan, i, j, k) && k <= Share(plan, i, j)
    ensures |plan.sizes| == |plan.shared| && plan.sizes == SideOf(s0.nodes[v], d).sizes
    ensures plan.shared[j] ==>
              && plan.sizes[j] == plan.width && Start(plan.width, plan.target, i) + k <= plan.width
              && (k < Share(plan, i, j) <==> k < plan.target && Start(plan.width, plan.target, i) + k < plan.width)
              && Start(plan.width, plan.target, i) + Share(plan, i, j) == Start(plan.width, plan.target, i + 1)
    ensures PortEntry(plan, i, j, k).Moved? <==> plan.shared[j] || i + 1 >= plan.slices
    ensures PortEntry(plan, i, j, k).place == Offset(plan.sizes, j) + k + (if plan.shared[j] then Start(plan.width, plan.target, i) else 0)
  {
    hide Consistent, Left, Progress, Offset;
    StartBounds(plan.width, plan.target, i);
    assert (i + 1) * plan.target == i * plan.target + plan.target;
  }

  /** The pins of one side of slice i: shared ports in turns of the target width, the others whole. */
  method BuildSide(g: Graph, v: nat, d: Dir, sizes: seq<nat>, shared: seq<bool>, width: nat, target: nat, moved: nat, last: bool,
                   ghost plan: Plan, ghost i: nat, ghost s0: Store, ghost before: seq<Slice>)
    returns (ghost slices: seq<Slice>)
    requires Consistent(s0) && Progress(s0, g.Now(), v, before) && PlanOk(plan) && |plan.sizes| > 0 && i < plan.slices && before != []
    requires d == Out ==> forall p | 0 <= p < |plan.shared| :: plan.shared[p]
    requires v < |g.nodes| && plan.sizes == SideOf(s0.nodes[v], d).sizes && Left(plan, SideOf(g.nodes[v], d).pins, i, 0, 0)
    requires before[|before| - 1] == WithEntries(before[|before| - 1], d, [], Zeros(|plan.sizes|))
    requires sizes == plan.sizes && shared == plan.shared && width == plan.width && target == plan.target
    requires moved == Start(width, target, i) && last == (i + 1 == plan.slices)
    modifies g
    ensures |g.nodes| == |old(g.nodes)| && Progress(s0, g.Now(), v, slices)
    ensures slices == before[|before| - 1 := WithEntries(before[|before| - 1], d, SideEntries(plan, i, |plan.sizes|), ShareSizes(plan, i, |plan.sizes|))]
    ensures Left(plan, SideOf(g.nodes[v], d).pins, i, |plan.sizes|, 0)
    ensures OtherSide(old(g.nodes), g.nodes, d, v)
  {
    hide Consistent, Progress, Left, Building, Start, Share, PortEntry, PartSizes, SideEntries, PortEntries, Offset, Partial;
    FirstPort(s0, g.Now(), v, before, d, plan, i);
    slices := before;
    var oldIndex := 0;
    NoOffset(sizes);
    var j := 0;
    while true
      invariant j < |sizes| && Building(s0, g.Now(), v, before, slices, d, plan, i, j, 0) && oldIndex == Offset(sizes, j)
      invariant v < |g.nodes| == |old(g.nodes)|
      invariant OtherSide(old(g.nodes), g.nodes, d, v)
      decreases |sizes| - j
    {
      slices := BuildPort(g, v, d, j, oldIndex, sizes[j], shared[j], width, target, moved, last, plan, i, s0, before, slices);
      oldIndex := oldIndex + sizes[j];
      NextOffset(sizes, j);
      if j + 1 == |sizes| {
        break;
      }
      NextPort(s0, g.Now(), v, before, slices, d, plan, i, j);
      j := j + 1;
    }
    LastPort(s0, g.Now(), v, before, slices, d, plan, i, j);
  }

  lemma NoOffset(sizes: seq<nat>)
    ensures Offset(sizes, 0) == 0
  {
  }

  lemma NextOffset(sizes: seq<nat>, j: nat)
    requires j < |sizes|
    ensures Offset(sizes, j + 1) == Offset(sizes, j) + sizes[j]
  {
  }

  method BuildPort(g: Graph, v: nat, d: Dir, j: nat, offset: nat, size: nat, shared: bool, width: nat, target: nat, moved: nat, last: bool,
                   ghost plan: Plan, ghost i: nat, ghost s0: Store, ghost before: seq<Slice>, ghost slices0: seq<Slice>)
    returns (ghost slices: seq<Slice>)
    requires Building(s0, g.Now(), v, before, slices0, d, plan, i, j, 0) && v < |g.nodes|
    requires size == plan.sizes[j] && shared == plan.shared[j] && width == plan.width && target == plan.target
    requires offset == Offset(plan.sizes, j) && moved == Start(width, target, i) && last == (i + 1 == plan.slices)
    modifies g
    ensures Building(s0, g.Now(), v, before, slices, d, plan, i, j, Share(plan, i, j)) && |g.nodes| == |old(g.nodes)|
    ensures OtherSide(old(g.nodes), g.nodes, d, v)
  {
    hide Consistent, Progress, Left, Start, PartSizes, SideEntries, PortEntries, Offset, PortEntry, Partial;
    slices := slices0;
    PortFacts(s0, g.Now(), v, before, slices, d, plan, i, j, 0);
    hide Building, Share;
    ShareOf(plan, i, j);
    var k := 0;
    if shared {
      var pinsMoved, oldIndex := moved, offset + moved;
      while k < target && pinsMoved < width
        invariant Building(s0, g.Now(), v, before, slices, d, plan, i, j, k) && |g.nodes| == |old(g.nodes)|
        invariant pinsMoved == moved + k && oldIndex == offset + moved + k && k <= Share(plan, i, j)
        invariant OtherSide(old(g.nodes), g.nodes, d, v)
        decreases target - k
      {
        PortFacts(s0, g.Now(), v, before, slices, d, plan, i, j, k);
        slices := PlacePin(g, v, d, plan, i, j, k, oldIndex, true, s0, before, slices);
        oldIndex, pinsMoved, k := oldIndex + 1, pinsMoved + 1, k + 1;
      }
      PortFacts(s0, g.Now(), v, before, slices, d, plan, i, j, k);
    } else {
      var oldIndex := offset;
      while k < size
        invariant Building(s0, g.Now(), v, before, slices, d, plan, i, j, k) && |g.nodes| == |old(g.nodes)|
        invariant oldIndex == offset + k && k <= size == Share(plan, i, j)
        invariant OtherSide(old(g.nodes), g.nodes, d, v)
        decreases size - k
      {
        PortFacts(s0, g.Now(), v, before, slices, d, plan, i, j, k);
        slices := PlacePin(g, v, d, plan, i, j, k, oldIndex, last, s0, before, slices);
        oldIndex, k := oldIndex + 1, k + 1;
      }
    }
  }

  lemma ShareOf(plan: Plan, i: nat, j: nat)
    requires j < |plan.sizes| == |plan.shared|
    ensures !plan.shared[j] ==> Share(plan, i, j) == plan.sizes[j]
  {
  }

  function AllShared(n: nat): (bs: seq<bool>)
    ensures |bs| == n && forall j | 0 <= j < n :: bs[j]
  {
    if n == 0 then [] else AllShared(n - 1) + [true]
  }

  /** Slice i of the memory. */
  function SliceFor(ins: Plan, outs: Plan, i: nat): Slice
    requires |ins.sizes| == |ins.shared| && |outs.sizes| == |outs.shared|
  {
    Slice(SideEntries(ins, i, |ins.sizes|), SideEntries(outs, i, |outs.sizes|), ShareSizes(ins, i, |ins.sizes|), ShareSizes(outs, i, |outs.sizes|))
  }

  /** The first n slices. */
  function SlicesFor(ins: Plan, outs: Plan, n: nat): (ss: seq<Slice>)
    requires |ins.sizes| == |ins.shared| && |outs.sizes| == |outs.shared|
    ensures |ss| == n
  {
    if n == 0 then [] else SlicesFor(ins, outs, n - 1) + [SliceFor(ins, outs, n - 1)]
  }

  /** A whole memory node: ports with all their pins, the shared ones as wide as the word. */
  ghost predicate MemoryOk(n: Node, ins: Plan, outs: Plan) {
    && SideReady(ins, n.ins) && SideReady(outs, n.outs) && |ins.sizes| > 0 && |outs.sizes| > 0
    && outs.shared == AllShared(|outs.sizes|) && outs.slices == ins.slices
  }

  /** How the inputs are shared out: the ports marked in shared by width, the others whole. */
  function InPlan(n: Node, shared: seq<bool>, width: nat, target: nat): Plan
    requires target > 0
  {
    Plan(n.ins.sizes, shared, width, target, SliceCount(width, target))
  }

  /** How the outputs are shared out: every port by width. */
  function OutPlan(n: Node, width: nat, target: nat): Plan
    requires target > 0
  {
    Plan(n.outs.sizes, AllShared(|n.outs.sizes|), width, target, SliceCount(width, target))
  }

  /** Node v of s0 has been cut: its slices are the nodes added in s, and it keeps no pin. */
  ghost predicate Sliced(s0: Store, s: Store, v: nat, shared: seq<bool>, width: nat, target: nat)
    requires v < |s0.nodes| && target > 0
  {
    var ins, outs := InPlan(s0.nodes[v], shared, width, target), OutPlan(s0.nodes[v], width, target);
    && Consistent(s0) && MemoryOk(s0.nodes[v], ins, outs) && |shared| == |ins.sizes|
    && Progress(s0, s, v, SlicesFor(ins, outs, SliceCount(width, target))) && v < |s.nodes|
    && (forall o | 0 <= o < |s.nodes[v].ins.pins| :: s.nodes[v].ins.pins[o] == None)
    && (forall o | 0 <= o < |s.nodes[v].outs.pins| :: s.nodes[v].outs.pins[o] == None)
  }

  /** The state between slices. */
  ghost predicate Between(s0: Store, s: Store, v: nat, ins: Plan, outs: Plan, i: nat) {
    && Consistent(s0) && v < |s0.nodes| && MemoryOk(s0.nodes[v], ins, outs)
    && Progress(s0, s, v, SlicesFor(ins, outs, i)) && v < |s.nodes|
    && Left(ins, s.nodes[v].ins.pins, i, 0, 0) && Left(outs, s.nodes[v].outs.pins, i, 0, 0)
  }

  lemma FirstSlice(s0: Store, v: nat, ins: Plan, outs: Plan)
    requires Consistent(s0) && v < |s0.nodes| && MemoryOk(s0.nodes[v], ins, outs) && ins.slices > 0
    ensures Between(s0, s0, v, ins, outs, 0)
  {
    hide Consistent, Left, Offset;
    AllLeft(ins, s0.nodes[v].ins.pins);
    AllLeft(outs, s0.nodes[v].outs.pins);
  }

  /** A memory wider than the architecture's becomes ceil(width / target) slices; the node left behind has no pin. */
  method SplitToArchWidth(g: Graph, v: nat, shared: seq<bool>, width: nat, target: nat) returns (memories: seq<nat>)
    requires Consistent(g.Now()) && v < |g.nodes| && target > 0
    requires MemoryOk(g.nodes[v], InPlan(g.nodes[v], shared, width, target), OutPlan(g.nodes[v], width, target))
    modifies g
    ensures width <= target ==> memories == [v] && g.Now() == old(g.Now())
    ensures width > target ==>
              && |memories| == SliceCount(width, target)
              && (forall i | 0 <= i < |memories| :: memories[i] == |g.nodes| - 1 - i)
              && Sliced(old(g.Now()), g.Now(), v, shared, width, target)
  {
    hide Consistent, Progress, Left, Start, SideEntries, ShareSizes, Offset, AllShared;
    if width <= target {
      return [v];
    }
    ghost var s0 := g.Now();
    var inSizes, outSizes, n := g.nodes[v].ins.sizes, g.nodes[v].outs.sizes, SliceCount(width, target);
    ghost var ins, outs := InPlan(g.nodes[v], shared, width, target), OutPlan(g.nodes[v], width, target);
    FirstSlice(s0, v, ins, outs);
    PlanShape(ins);
    hide MemoryOk, SliceCount;
    var moved := 0;
    memories := [];
    NoStart(width, target);
    for i := 0 to n
      invariant Between(s0, g.Now(), v, ins, outs, i) && |g.nodes| == |s0.nodes| + i
      invariant moved == Start(width, target, i)
      invariant |memories| == i && forall k | 0 <= k < i :: memories[k] == |g.nodes| - 1 - k
    {
      BuildSlice(g, v, inSizes, outSizes, shared, width, target, moved, i + 1 == n, ins, outs, i, s0);
      memories := [|g.nodes| - 1] + memories;
      NextStart(width, target, i);
      moved := if moved + target < width then moved + target else width;
    }
    NoneLeft(ins, g.nodes[v].ins.pins);
    NoneLeft(outs, g.nodes[v].outs.pins);
  }

  lemma NoStart(width: nat, target: nat)
    ensures Start(width, target, 0) == 0
  {
    StartBounds(width, target, 0);
  }

  lemma NextStart(width: nat, target: nat, i: nat)
    ensures Start(width, target, i + 1)
         == if Start(width, target, i) + target < width then Start(width, target, i) + target else width
  {
    assert (i + 1) * target == i * target + target;
  }

  method BuildSlice(g: Graph, v: nat, inSizes: seq<nat>, outSizes: seq<nat>, shared: seq<bool>, width: nat, target: nat, moved: nat, last: bool,
                    ghost ins: Plan, ghost outs: Plan, ghost i: nat, ghost s0: Store)
    requires Between(s0, g.Now(), v, ins, outs, i) && i < ins.slices && |ins.sizes| == |ins.shared| && |outs.sizes| == |outs.shared|
    requires inSizes == ins.sizes && outSizes == outs.sizes && shared == ins.shared
    requires width == ins.width == outs.width && target == ins.target == outs.target && moved == Start(width, target, i)
    requires last == (i + 1 == ins.slices)
    modifies g
    ensures Between(s0, g.Now(), v, ins, outs, i + 1) && |g.nodes| == |old(g.nodes)| + 1
  {
    hide Consistent, Progress, Left, Start, SideEntries, ShareSizes, Offset, PlanOk, AllShared, SlicesFor;
    ghost var slices := SlicesFor(ins, outs, i);
    OpenStep(s0, g.Now(), v, slices, |inSizes|, |outSizes|);
    g.nodes := g.nodes + [Node(Side([], Zeros(|inSizes|)), Side([], Zeros(|outSizes|)))];
    ghost var withNew := slices + [Slice([], [], Zeros(|inSizes|), Zeros(|outSizes|))];
    SharedOuts(outs);
    ghost var half := BuildSide(g, v, In, inSizes, shared, width, target, moved, last, ins, i, s0, withNew);
    ghost var done := BuildSide(g, v, Out, outSizes, AllShared(|outSizes|), width, target, moved, last, outs, i, s0, half);
    SliceLeft(ins, g.nodes[v].ins.pins, i);
    SliceLeft(outs, g.nodes[v].outs.pins, i);
    NextSlices(ins, outs, i);
    assert done == SlicesFor(ins, outs, i + 1);
  }

  lemma SharedOuts(outs: Plan)
    requires outs.shared == AllShared(|outs.sizes|)
    ensures forall p | 0 <= p < |outs.shared| :: outs.shared[p]
  {
  }

  lemma NextSlices(ins: Plan, outs: Plan, i: nat)
    requires |ins.sizes| == |ins.shared| && |outs.sizes| == |outs.shared|
    ensures SlicesFor(ins, outs, i + 1) == SlicesFor(ins, outs, i) + [SliceFor(ins, outs, i)]
  {
  }
}
