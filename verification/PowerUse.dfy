/** What every block, interconnect and routing node contributes to power and to the count of configuration bits. */
module PowerUse {
  import opened Options
  import opened Division
  import opened MuxCount

  // ----- Architecture, placement and library -----

  datatype Pin = Pin(id: nat, clock: bool)

  datatype Interconnect = Direct | Muxed(inputs: seq<seq<Pin>>, outputs: seq<seq<Pin>>)

  /** A node of a block's graph: its type's name, its input ports, and its modes. */
  datatype Node = Node(name: string, inputs: seq<seq<Pin>>, modes: seq<Mode>)

  /** A mode: the nodes of each child type, and the interconnects. */
  datatype Mode = Mode(children: seq<seq<Node>>, interconnects: seq<Interconnect>)

  /** What is placed in a node: the mode used, the densities of the nets on its pins, and the children in use. */
  datatype Block = Block(mode: nat, density: map<nat, real>, children: seq<seq<Option<Block>>>)

  /** The power library's entry for a block. */
  datatype Instance =
    | Ignore(name: string)
    | Macro(name: string, confBits: nat, staticPower: real, dynamicPower: real, atFreq: real)
    | Sum(name: string, children: seq<Instance>)

  datatype Library = Library(
    memStatic: real, muxSize: nat, muxDynamic: real, muxStatic: real, muxFreq: real, criticalPath: real)

  predicate LibraryOk(lib: Library) {
    lib.muxSize >= 2 && lib.muxFreq > 0.0 && lib.criticalPath > 0.0
  }

  predicate InstanceOk(i: Instance) {
    match i
    case Ignore(_) => true
    case Macro(_, _, _, _, f) => f > 0.0
    case Sum(_, cs) => forall k | 0 <= k < |cs| :: InstanceOk(cs[k])
  }

  function ModeOf(b: Option<Block>): nat {
    if b.Some? then b.value.mode else 0
  }

  function ChildOf(b: Option<Block>, t: nat, k: nat): Option<Block> {
    if b.Some? && t < |b.value.children| && k < |b.value.children[t]| then b.value.children[t][k] else None
  }

  /** A multiplexed interconnect has at least one input pin. */
  predicate InterconnectOk(c: Interconnect) {
    c.Muxed? ==> Flat(c.inputs) != []
  }

  /** The node, in the mode the block uses, and every node below it that is gone through, has what the source reads. */
  predicate Fits(n: Node, b: Option<Block>, i: Instance)
    decreases i
  {
    i.Sum? ==>
      && ModeOf(b) < |n.modes|
      && (forall k | 0 <= k < |n.modes[ModeOf(b)].interconnects| :: InterconnectOk(n.modes[ModeOf(b)].interconnects[k]))
      && (forall t, k | 0 <= t < |n.modes[ModeOf(b)].children| && 0 <= k < |n.modes[ModeOf(b)].children[t]| ::
            var child := n.modes[ModeOf(b)].children[t][k];
            var e := Entry(i.children, child.name);
            e < |i.children| ==> Fits(child, ChildOf(b, t, k), i.children[e]))
  }

  /** The first library entry of that name; |entries| when there is none. */
  function Entry(entries: seq<Instance>, name: string): (e: nat)
    ensures e <= |entries| && (e < |entries| ==> entries[e].name == name)
    ensures forall k | 0 <= k < e :: entries[k].name != name
  {
    if entries == [] || entries[0].name == name then 0 else 1 + Entry(entries[1..], name)
  }

  // ----- Activity -----

  function Flat<T>(ports: seq<seq<T>>): seq<T> {
    if ports == [] then [] else Flat(ports[..|ports| - 1]) + ports[|ports| - 1]
  }

  /** pin_dens. */
  function Density(b: Option<Block>, p: Pin): real {
    if b.Some? && p.id in b.value.density then b.value.density[p.id] else 0.0
  }

  /** The chance that no pin switches. */
  function Silent(b: Option<Block>, pins: seq<Pin>): real {
    if pins == [] then 1.0 else Silent(b, pins[..|pins| - 1]) * (1.0 - Density(b, pins[|pins| - 1]) / 2.0)
  }

  /** The summed activities of the first-level multiplexers, which take g inputs each. */
  function GroupSum(b: Option<Block>, pins: seq<Pin>, g: nat): real
    requires g > 0
    decreases |pins|
  {
    if pins == [] then 0.0
    else if |pins| <= g then 1.0 - Silent(b, pins)
    else 1.0 - Silent(b, pins[..g]) + GroupSum(b, pins[g..], g)
  }

  function Groups(pins: nat, g: nat): int
    requires g > 0
  {
    Ceil(pins, g)
  }

  /** Their mean; the source closes a group only after two inputs more than the multiplexer's size. */
  function MeanActivity(b: Option<Block>, pins: seq<Pin>, muxSize: nat): real
    requires pins != []
  {
    CeilBounds(|pins|, muxSize + 2);
    GroupSum(b, pins, muxSize + 2) / Groups(|pins|, muxSize + 2) as real
  }

  // ----- Usage -----

  datatype Use = Use(dynamic: real, leakage: real, memLeakage: real, primitive: real, inter: real, bits: int, muxes: int)

  const NoUse: Use := Use(0.0, 0.0, 0.0, 0.0, 0.0, 0, 0)

  function Add(u: Use, v: Use): Use {
    Use(u.dynamic + v.dynamic, u.leakage + v.leakage, u.memLeakage + v.memLeakage, u.primitive + v.primitive,
        u.inter + v.inter, u.bits + v.bits, u.muxes + v.muxes)
  }

  lemma AddNone(u: Use)
    ensures Add(u, NoUse) == u == Add(NoUse, u)
  {
  }

  lemma AddAdd(u: Use, v: Use, w: Use)
    ensures Add(Add(u, v), w) == Add(u, Add(v, w))
  {
  }

  /** The least number of bits that select among n inputs. */
  function SelectBits(n: nat): nat
    requires n >= 2
  {
    Depth(n, 2)
  }

  function MemLeakage(lib: Library, bits: int): real {
    lib.memStatic * bits as real
  }

  function MacroDynamic(lib: Library, i: Instance, sa: real): real
    requires LibraryOk(lib) && i.Macro? && i.atFreq > 0.0
  {
    sa * i.dynamicPower / lib.criticalPath / i.atFreq
  }

  function MacroLeakage(i: Instance, sa: real): real
    requires i.Macro?
  {
    (1.0 - sa) * i.staticPower
  }

  function MuxDynamic(lib: Library, count: int, sa: real): real
    requires LibraryOk(lib)
  {
    count as real * lib.muxDynamic / lib.criticalPath / lib.muxFreq * sa
  }

  function MuxLeakage(lib: Library, count: int, sa: real): real {
    count as real * lib.muxStatic * (1.0 - sa)
  }

  /** A primitive: only leakage when nothing is placed in it. */
  function MacroUse(lib: Library, n: Node, b: Option<Block>, i: Instance): Use
    requires LibraryOk(lib) && i.Macro? && i.atFreq > 0.0
  {
    if b.None? then Use(0.0, i.staticPower, MemLeakage(lib, i.confBits), i.staticPower, 0.0, i.confBits, 0)
    else
      var sa := 1.0 - Silent(b, Flat(n.inputs));
      var dynamic, leakage := MacroDynamic(lib, i, sa), MacroLeakage(i, sa);
      Use(dynamic, leakage, MemLeakage(lib, i.confBits), dynamic + leakage, 0.0, i.confBits, 0)
  }

  /** One output pin of a multiplexed interconnect. */
  function OutputUse(lib: Library, b: Option<Block>, pins: seq<Pin>): Use
    requires LibraryOk(lib) && pins != []
  {
    var sa, count := MeanActivity(b, pins, lib.muxSize), Muxes(|pins|, lib.muxSize);
    var dynamic, leakage := MuxDynamic(lib, count, sa), MuxLeakage(lib, count, sa);
    var bits := count * SelectBits(lib.muxSize);
    Use(dynamic, leakage, MemLeakage(lib, bits), 0.0, dynamic + leakage, bits, count)
  }

  predicate HasClock(pins: seq<Pin>) {
    exists p | p in pins :: p.clock
  }

  // ----- Grid and routing -----

  /** A grid location: blocks hang on the one at offset 0; kind is its type's name and graph head. */
  datatype Location = Location(offset: nat, kind: Option<Node>, blocks: seq<Option<Block>>)

  predicate LocationOk(l: Location, entries: seq<Instance>) {
    l.offset == 0 && l.kind.Some? ==>
      var e := Entry(entries, l.kind.value.name);
      e < |entries| ==> forall z | 0 <= z < |l.blocks| :: Fits(l.kind.value, l.blocks[z], entries[e])
  }

  datatype RouteKind = Source | Sink | OutPin | InPin | Channel

  datatype RouteNode = RouteNode(kind: RouteKind, fanIn: nat)

  /** The configuration bits of the multiplexer in front of a routing node. */
  function RouteBits(n: RouteNode, muxSize: nat): int
    requires muxSize >= 2
  {
    if (n.kind == InPin && n.fanIn > 0) || n.kind == Channel then Muxes(n.fanIn, muxSize) * SelectBits(muxSize) else 0
  }

  function RoutingBits(ns: seq<RouteNode>, muxSize: nat, k: nat): int
    requires muxSize >= 2 && k <= |ns|
  {
    if k == 0 then 0 else RoutingBits(ns, muxSize, k - 1) + RouteBits(ns[k - 1], muxSize)
  }

  // ----- Activities are probabilities -----

  predicate DensitiesOk(b: Option<Block>) {
    b.Some? ==> forall k | k in b.value.density :: 0.0 <= b.value.density[k] <= 2.0
  }

  lemma {:induction false} SilentBounds(b: Option<Block>, pins: seq<Pin>)
    requires DensitiesOk(b)
    ensures 0.0 <= Silent(b, pins) <= 1.0
  {
    if pins != [] {
      var n := |pins| - 1;
      SilentBounds(b, pins[..n]);
      assert 0.0 <= Density(b, pins[n]) <= 2.0;
      UnitProduct(Silent(b, pins[..n]), 1.0 - Density(b, pins[n]) / 2.0);
    }
  }

  lemma UnitProduct(x: real, y: real)
    requires 0.0 <= x <= 1.0 && 0.0 <= y <= 1.0
    ensures 0.0 <= x * y <= 1.0
  {
    assert x * y <= x * 1.0 by { assert x * (1.0 - y) >= 0.0; }
  }

  lemma {:induction false} GroupSumBounds(b: Option<Block>, pins: seq<Pin>, g: nat)
    requires DensitiesOk(b) && g > 0
    ensures 0.0 <= GroupSum(b, pins, g) <= Groups(|pins|, g) as real
    decreases |pins|
  {
    CeilBounds(|pins|, g);
    SilentBounds(b, pins);
    if pins == [] {
    } else if |pins| <= g {
      CeilOne(|pins|, g);
    } else {
      SilentBounds(b, pins[..g]);
      GroupSumBounds(b, pins[g..], g);
      CeilStep(|pins| - g, g);
    }
  }

  /** The mean activity of the first-level multiplexers is a probability when the densities allow. */
  lemma MeanActivityBounds(b: Option<Block>, pins: seq<Pin>, muxSize: nat)
    requires DensitiesOk(b) && pins != []
    ensures 0.0 <= MeanActivity(b, pins, muxSize) <= 1.0
  {
    hide GroupSum;
    CeilBounds(|pins|, muxSize + 2);
    GroupSumBounds(b, pins, muxSize + 2);
    Fraction(GroupSum(b, pins, muxSize + 2), Groups(|pins|, muxSize + 2) as real);
  }

  lemma Fraction(x: real, y: real)
    requires 0.0 <= x <= y && y > 0.0
    ensures 0.0 <= x / y <= 1.0
  {
    var q := x / y;
    assert y * q == x && y * (q - 1.0) == x - y;
    SameSign(y, q - 1.0);
    SameSign(y, q);
  }

  lemma SameSign(y: real, d: real)
    requires y > 0.0
    ensures d > 0.0 ==> y * d > 0.0
    ensures d < 0.0 ==> y * d < 0.0
  {
  }
}
