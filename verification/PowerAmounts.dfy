/** How much a primitive, an output pin and a routing node use, said by sums, products and logarithms. */
module PowerAmounts {
  import opened Options
  import opened Division
  import opened MuxCount
  import opened PowerUse
  import opened PowerSites

  // ----- What the amounts should be -----

  function Product(fs: seq<real>): real {
    if fs == [] then 1.0 else Product(fs[..|fs| - 1]) * fs[|fs| - 1]
  }

  function SumOf(xs: seq<real>): real {
    if xs == [] then 0.0 else xs[0] + SumOf(xs[1..])
  }

  /** The densities of the nets on a node's pins; none where nothing is placed. */
  function Densities(b: Option<Block>): map<nat, real> {
    if b.Some? then b.value.density else map[]
  }

  /** Some pin switches, each on its own with half the density of its net; a pin without a net never does. */
  ghost predicate SwitchChance(density: map<nat, real>, pins: seq<Pin>, sa: real) {
    exists fs: seq<real> ::
      && |fs| == |pins| && sa == 1.0 - Product(fs)
      && forall k | 0 <= k < |pins| :: fs[k] == if pins[k].id in density then 1.0 - density[pins[k].id] / 2.0 else 1.0
  }

  function Smaller(x: nat, y: nat): nat {
    if x <= y then x else y
  }

  /** The group of g pins that begins at pin s, or what is left of it. */
  function GroupAt(pins: seq<Pin>, g: nat, s: nat): seq<Pin> {
    pins[Smaller(s, |pins|)..Smaller(s + g, |pins|)]
  }

  /** The mean, over as few groups of two pins more than m as hold them all, of the chance that a pin of the group switches. */
  ghost predicate MeanChance(density: map<nat, real>, pins: seq<Pin>, m: nat, sa: real) {
    var g := m + 2;
    exists chances: seq<real> ::
      && chances != [] && (|chances| - 1) * g < |pins| <= |chances| * g
      && sa * |chances| as real == SumOf(chances)
      && forall j | 0 <= j < |chances| :: SwitchChance(density, GroupAt(pins, g, j * g), chances[j])
  }

  /** d is the least depth, and at least 1, of a tree over n inputs. */
  ghost predicate LeastDepth(n: nat, m: nat, d: nat)
    requires m >= 2
  {
    d >= 1 && n <= Power(m, d) && (d > 1 ==> Power(m, d - 1) < n)
  }

  /** The multiplexers, of m inputs each, of a tree of least depth over n inputs; one if there is no input. */
  ghost predicate TreeCount(n: nat, m: nat, count: int)
    requires m >= 2
  {
    if n == 0 then count == 1
    else exists d: nat :: LeastDepth(n, m, d) && count == LevelSum(n, m, d)
  }

  /** d is the least number of bits that select among m inputs. */
  ghost predicate Selects(m: nat, d: nat) {
    d >= 1 && Power(2, d - 1) < m <= Power(2, d)
  }

  ghost predicate PrimitiveAmounts(lib: Library, p: Place, u: Use)
    requires p.entry.Macro?
  {
    && u.bits == p.entry.confBits && u.memLeakage == lib.memStatic * p.entry.confBits as real
    && u.primitive == u.dynamic + u.leakage && u.inter == 0.0 && u.muxes == 0
    && if p.block.None? then u.dynamic == 0.0 && u.leakage == p.entry.staticPower
       else exists sa: real ::
         && SwitchChance(p.block.value.density, Flat(p.node.inputs), sa)
         && u.leakage == p.entry.staticPower - sa * p.entry.staticPower
         && u.dynamic * lib.criticalPath * p.entry.atFreq == sa * p.entry.dynamicPower
  }

  ghost predicate OutputAmounts(lib: Library, b: Option<Block>, pins: seq<Pin>, u: Use)
    requires LibraryOk(lib)
  {
    && u.memLeakage == lib.memStatic * u.bits as real && u.inter == u.dynamic + u.leakage && u.primitive == 0.0
    && TreeCount(|pins|, lib.muxSize, u.muxes)
    && (exists d: nat :: Selects(lib.muxSize, d) && u.bits == u.muxes * d)
    && exists sa: real ::
         && MeanChance(Densities(b), pins, lib.muxSize, sa)
         && u.leakage == u.muxes as real * lib.muxStatic - sa * (u.muxes as real * lib.muxStatic)
         && u.dynamic * lib.criticalPath * lib.muxFreq == u.muxes as real * lib.muxDynamic * sa
  }

  /** What an item should add. */
  ghost predicate Amounts(lib: Library, item: Item, u: Use)
    requires LibraryOk(lib)
  {
    var p := item.place;
    match item.site
    case Primitive => p.entry.Macro? && PrimitiveAmounts(lib, p, u)
    case Output(c, _, _) =>
      exists mode | mode in p.node.modes && InMode(p, mode) ::
        c < |mode.interconnects| && mode.interconnects[c].Muxed? && OutputAmounts(lib, p.block, Flat(mode.interconnects[c].inputs), u)
  }

  /** A routing node has a multiplexer if it is a channel, or an input pin with a fan-in. */
  ghost predicate RouteAmount(n: RouteNode, m: nat, bits: int)
    requires m >= 2
  {
    if n.kind == Channel || (n.kind == InPin && n.fanIn != 0)
    then exists count: int, d: nat :: TreeCount(n.fanIn, m, count) && Selects(m, d) && bits == count * d
    else bits == 0
  }

  // ----- What they are -----

  lemma {:induction false} SilentIsProduct(b: Option<Block>, pins: seq<Pin>) returns (fs: seq<real>)
    ensures |fs| == |pins| && Silent(b, pins) == Product(fs)
    ensures forall k | 0 <= k < |pins| :: fs[k] == if pins[k].id in Densities(b) then 1.0 - Densities(b)[pins[k].id] / 2.0 else 1.0
  {
    if pins == [] {
      fs := [];
    } else {
      var n := |pins| - 1;
      var front := SilentIsProduct(b, pins[..n]);
      fs := front + [1.0 - Density(b, pins[n]) / 2.0];
      assert fs[..n] == front;
    }
  }

  /** One minus the silence is the chance that some pin switches. */
  lemma SilenceExact(b: Option<Block>, pins: seq<Pin>)
    ensures SwitchChance(Densities(b), pins, 1.0 - Silent(b, pins))
  {
    hide Silent, Product, Densities;
    var fs := SilentIsProduct(b, pins);
  }

  lemma GroupLater(pins: seq<Pin>, g: nat, j: nat)
    requires g <= |pins|
    ensures GroupAt(pins[g..], g, j * g) == GroupAt(pins, g, (j + 1) * g)
    ensures GroupAt(pins, g, 0) == pins[..g]
  {
    assert (j + 1) * g == j * g + g;
  }

  lemma {:induction false} GroupsAre(b: Option<Block>, pins: seq<Pin>, g: nat) returns (chances: seq<real>)
    requires g > 0
    ensures |chances| == Groups(|pins|, g) && SumOf(chances) == GroupSum(b, pins, g)
    ensures forall j | 0 <= j < |chances| :: SwitchChance(Densities(b), GroupAt(pins, g, j * g), chances[j])
    decreases |pins|
  {
    hide SwitchChance, Silent, Densities;
    CeilBounds(|pins|, g);
    SilenceExact(b, pins);
    if pins == [] {
      chances := [];
      assert Groups(0, g) == 0 by { CeilUnique(0, g, 0); }
    } else if |pins| <= g {
      CeilOne(|pins|, g);
      chances := [1.0 - Silent(b, pins)];
      assert GroupAt(pins, g, 0 * g) == pins;
      assert chances[1..] == [];
    } else {
      CeilStep(|pins| - g, g);
      var rest := GroupsAre(b, pins[g..], g);
      SilenceExact(b, pins[..g]);
      chances := [1.0 - Silent(b, pins[..g])] + rest;
      assert chances[1..] == rest;
      forall j | 0 <= j < |chances| ensures SwitchChance(Densities(b), GroupAt(pins, g, j * g), chances[j]) {
        if j == 0 {
          GroupLater(pins, g, 0);
          assert 0 * g == 0;
        } else {
          GroupLater(pins, g, j - 1);
        }
      }
    }
  }

  /** The mean activity is the mean over the groups. */
  lemma MeanExact(b: Option<Block>, pins: seq<Pin>, muxSize: nat)
    requires pins != []
    ensures MeanChance(Densities(b), pins, muxSize, MeanActivity(b, pins, muxSize))
  {
    hide SwitchChance, GroupSum, GroupAt, Densities, SumOf;
    var g := muxSize + 2;
    CeilBounds(|pins|, g);
    var chances := GroupsAre(b, pins, g);
    MeanTimes(GroupSum(b, pins, g), |chances| as real);
    GroupCount(|pins|, g, |chances|);
  }

  lemma MeanTimes(x: real, y: real)
    requires y != 0.0
    ensures x / y * y == x
  {
  }

  lemma GroupCount(n: nat, g: nat, q: nat)
    requires g > 0 && q == Ceil(n, g) && n > 0
    ensures q > 0 && (q - 1) * g < n <= q * g
  {
    hide Ceil;
    CeilBounds(n, g);
    assert (q - 1) * g == g * q - g && q * g == g * q;
  }

  /** The loop's count is that of the tree, for any number of inputs. */
  lemma TreeExact(n: nat, m: nat)
    requires m >= 2
    ensures TreeCount(n, m, Muxes(n, m))
  {
    hide Power, LevelSum, Ceil;
    if n > 0 {
      DepthIsLogarithm(n, m);
      MuxesSum(n, m);
      assert LeastDepth(n, m, Depth(n, m));
    }
  }

  lemma SelectExact(m: nat)
    requires m >= 2
    ensures Selects(m, SelectBits(m))
  {
    DepthIsLogarithm(m, 2);
    PowerUnfold(2, 0);
  }

  lemma Undo(x: real, a: real, b: real)
    requires a > 0.0 && b > 0.0
    ensures x / a / b * a * b == x
  {
    var y := x / a / b;
    assert y * b == x / a;
    assert y * a * b == y * b * a;
  }

  lemma PrimitiveExact(lib: Library, p: Place)
    requires LibraryOk(lib) && p.entry.Macro? && p.entry.atFreq > 0.0
    ensures PrimitiveAmounts(lib, p, MacroUse(lib, p.node, p.block, p.entry))
  {
    hide SwitchChance, Flat, Silent;
    if p.block.Some? {
      var sa := 1.0 - Silent(p.block, Flat(p.node.inputs));
      SilenceExact(p.block, Flat(p.node.inputs));
      MacroShares(lib, p.entry, sa);
    }
  }

  lemma MacroShares(lib: Library, i: Instance, sa: real)
    requires LibraryOk(lib) && i.Macro? && i.atFreq > 0.0
    ensures MacroLeakage(i, sa) == i.staticPower - sa * i.staticPower
    ensures MacroDynamic(lib, i, sa) * lib.criticalPath * i.atFreq == sa * i.dynamicPower
  {
    Undo(sa * i.dynamicPower, lib.criticalPath, i.atFreq);
  }

  lemma MuxShares(lib: Library, count: int, sa: real)
    requires LibraryOk(lib)
    ensures MuxLeakage(lib, count, sa) == count as real * lib.muxStatic - sa * (count as real * lib.muxStatic)
    ensures MuxDynamic(lib, count, sa) * lib.criticalPath * lib.muxFreq == count as real * lib.muxDynamic * sa
  {
    var x := count as real * lib.muxDynamic;
    Undo(x, lib.criticalPath, lib.muxFreq);
    Swap(x / lib.criticalPath / lib.muxFreq, lib.criticalPath, lib.muxFreq, sa);
    Swap(count as real * lib.muxStatic, 1.0, 1.0, 1.0 - sa);
  }

  lemma Swap(y: real, a: real, b: real, s: real)
    ensures y * s * a * b == y * a * b * s
  {
    assert y * s * a == y * a * s;
    assert y * a * s * b == y * a * b * s;
  }

  lemma OutputExact(lib: Library, b: Option<Block>, pins: seq<Pin>)
    requires LibraryOk(lib) && pins != []
    ensures OutputAmounts(lib, b, pins, OutputUse(lib, b, pins))
  {
    hide MeanActivity, MeanChance, Muxes, SelectBits, TreeCount, Selects, MuxDynamic, MuxLeakage, Densities;
    var count, sa := Muxes(|pins|, lib.muxSize), MeanActivity(b, pins, lib.muxSize);
    MeanExact(b, pins, lib.muxSize);
    TreeExact(|pins|, lib.muxSize);
    SelectExact(lib.muxSize);
    MuxShares(lib, count, sa);
  }

  lemma {:induction false} LeadsOk(start: Place, path: seq<Step>, end: Place)
    requires PlaceOk(start) && Leads(start, path, end)
    ensures PlaceOk(end)
    decreases path
  {
    hide PlaceOk, Child, ModeHere;
    if path != [] {
      var mid :| Child(start, path[0], mid) && Leads(mid, path[1..], end);
      ChildOk(start, path[0], mid);
      LeadsOk(mid, path[1..], end);
    }
  }

  lemma ChildOk(p: Place, s: Step, q: Place)
    requires PlaceOk(p) && Child(p, s, q)
    ensures PlaceOk(q)
  {
    hide PlaceOk, ModeHere;
    assert p.entry.Sum?;
    ChildUnique(p, s, q);
  }

  /** Everything that is counted uses what it should. */
  lemma ItemExact(lib: Library, start: Place, item: Item)
    requires LibraryOk(lib) && PlaceOk(start) && Belongs(start, item)
    ensures Amounts(lib, item, ItemUse(lib, item))
  {
    hide PlaceOk, Leads, PrimitiveAmounts, OutputAmounts, MacroUse, OutputUse, Flat, ModeHere, InMode;
    var p := item.place;
    LeadsOk(start, item.path, p);
    match item.site
    case Primitive =>
      MacroFrequency(p);
      PrimitiveExact(lib, p);
    case Output(c, _, _) =>
      ModeUnique(p, ModeHere(p));
      forall mode ensures mode in p.node.modes && InMode(p, mode) <==> mode == ModeHere(p) {
        ModeUnique(p, mode);
      }
      HasInputs(p, c);
      OutputExact(lib, p.block, Flat(ModeHere(p).interconnects[c].inputs));
  }

  lemma MacroFrequency(p: Place)
    requires PlaceOk(p) && p.entry.Macro?
    ensures p.entry.atFreq > 0.0
  {
  }

  lemma HasInputs(p: Place, c: nat)
    requires PlaceOk(p) && p.entry.Sum? && c < |ModeHere(p).interconnects| && ModeHere(p).interconnects[c].Muxed?
    ensures Flat(ModeHere(p).interconnects[c].inputs) != []
    ensures ModeOf(p.block) < |p.node.modes| && ModeHere(p) == p.node.modes[ModeOf(p.block)]
  {
    hide Flat;
    assert InterconnectOk(p.node.modes[ModeOf(p.block)].interconnects[c]);
  }

  /** A routing node's bits are what they should be. */
  lemma RouteExact(n: RouteNode, m: nat)
    requires m >= 2
    ensures RouteAmount(n, m, RouteBits(n, m))
  {
    hide Muxes, SelectBits, TreeCount, Selects;
    TreeExact(n.fanIn, m);
    SelectExact(m);
  }
}
