/** The loops that add everything up, over blocks, interconnects, the grid and the routing. */
module PowerAccounts {
  import opened Options
  import opened Division
  import opened MuxCount
  import opened PowerUse
  import opened PowerSites
  import opened PowerGrid
  import opened PowerAmounts
  import opened PowerLedger

  // ----- The activity loop -----

  /** After the pins so far: closed groups, their summed activity, and the open group's size and silence. */
  ghost predicate Grouped(b: Option<Block>, pins: seq<Pin>, g: nat, total: real, oneMux: real, flag: nat, groups: nat) {
    && g > 0 && flag < g && |pins| == groups * g + flag
    && total == GroupSum(b, pins[..groups * g], g) && oneMux == Silent(b, pins[groups * g..])
  }

  lemma {:induction false} GroupAppend(b: Option<Block>, xs: seq<Pin>, ys: seq<Pin>, g: nat, q: nat)
    requires g > 0 && |xs| == q * g
    ensures GroupSum(b, xs + ys, g) == GroupSum(b, xs, g) + GroupSum(b, ys, g)
    decreases q
  {
    if q == 0 {
      assert xs + ys == ys;
    } else {
      assert q * g == (q - 1) * g + g;
      assert (xs + ys)[..g] == xs[..g] && (xs + ys)[g..] == xs[g..] + ys;
      GroupAppend(b, xs[g..], ys, g, q - 1);
      GroupFront(b, xs, g);
      if ys == [] {
        assert xs + ys == xs;
      } else {
        GroupFront(b, xs + ys, g);
      }
    }
  }

  lemma GroupFront(b: Option<Block>, xs: seq<Pin>, g: nat)
    requires 0 < g <= |xs|
    ensures GroupSum(b, xs, g) == 1.0 - Silent(b, xs[..g]) + GroupSum(b, xs[g..], g)
  {
    if |xs| == g {
      assert xs[..g] == xs && xs[g..] == [];
    }
  }

  lemma GroupOne(b: Option<Block>, xs: seq<Pin>, g: nat)
    requires 0 < |xs| <= g
    ensures GroupSum(b, xs, g) == 1.0 - Silent(b, xs)
  {
  }

  lemma SilentNext(b: Option<Block>, xs: seq<Pin>, p: Pin)
    ensures Silent(b, xs + [p]) == Silent(b, xs) * (1.0 - Density(b, p) / 2.0)
    ensures Silent(b, []) == 1.0
  {
    assert (xs + [p])[..|xs|] == xs;
  }

  /** One more pin: into the open group, or closing it. */
  lemma GroupStep(b: Option<Block>, pins: seq<Pin>, p: Pin, g: nat, total: real, oneMux: real, flag: nat, groups: nat)
    requires Grouped(b, pins, g, total, oneMux, flag, groups)
    ensures flag + 1 < g ==> Grouped(b, pins + [p], g, total, oneMux * (1.0 - Density(b, p) / 2.0), flag + 1, groups)
    ensures flag + 1 == g ==> Grouped(b, pins + [p], g, total + (1.0 - oneMux * (1.0 - Density(b, p) / 2.0)), 1.0, 0, groups + 1)
  {
    hide GroupSum, Silent, Density;
    var q := groups * g;
    var more := pins + [p];
    assert more[..q] == pins[..q] && more[q..] == pins[q..] + [p];
    SilentNext(b, pins[q..], p);
    if flag + 1 == g {
      assert (groups + 1) * g == q + g;
      GroupAppend(b, more[..q], more[q..], g, groups);
      GroupOne(b, more[q..], g);
      assert more[..q] + more[q..] == more && more[..q + g] == more && more[q + g..] == [];
    }
  }

  lemma GroupEnd(b: Option<Block>, pins: seq<Pin>, g: nat, total: real, oneMux: real, flag: nat, groups: nat)
    requires Grouped(b, pins, g, total, oneMux, flag, groups) && pins != []
    ensures flag == 0 ==> total == GroupSum(b, pins, g) && groups == Groups(|pins|, g) > 0
    ensures flag != 0 ==> total + (1.0 - oneMux) == GroupSum(b, pins, g) && groups + 1 == Groups(|pins|, g)
  {
    hide GroupSum, Silent;
    var q := groups * g;
    assert pins[..q] + pins[q..] == pins;
    if flag == 0 {
      assert pins[..q] == pins;
      CeilUnique(|pins|, g, groups);
    } else {
      GroupAppend(b, pins[..q], pins[q..], g, groups);
      GroupOne(b, pins[q..], g);
      assert g * (groups + 1) == q + g;
      CeilUnique(|pins|, g, groups + 1);
    }
  }

  lemma EmptyGroups(b: Option<Block>, pins: seq<Pin>, g: nat, total: real, oneMux: real, flag: nat, groups: nat)
    requires Grouped(b, pins, g, total, oneMux, flag, groups)
    ensures pins == [] ==> groups == 0 && flag == 0
  {
    hide GroupSum, Silent;
    if groups > 0 {
      Times(g, groups, 1);
      assert groups * g == g * groups;
    }
  }

  lemma NoneGrouped(b: Option<Block>, g: nat)
    requires g > 0
    ensures Grouped(b, [], g, 0.0, 1.0, 0, 0)
  {
  }

  lemma FlatNext<T>(ports: seq<seq<T>>, i: nat)
    requires i < |ports|
    ensures Flat(ports[..i + 1]) == Flat(ports[..i]) + ports[i]
    ensures Flat(ports[..0]) == []
  {
    assert ports[..i + 1][..i] == ports[..i];
  }

  // ----- The traversals -----

  /** The power of the blocks, the memory's leakage, and the totals kept on the side. */
  class Accounts {
    const lib: Library
    var dynamic: real
    var leakage: real
    var memLeakage: real
    var primitivePower: real
    var interPower: real
    var logicConfBits: int
    var numMuxes: int

    constructor (lib: Library)
      ensures this.lib == lib && Now() == NoUse
    {
      this.lib := lib;
      dynamic, leakage, memLeakage, primitivePower, interPower := 0.0, 0.0, 0.0, 0.0, 0.0;
      logicConfBits, numMuxes := 0, 0;
    }

    ghost function Now(): Use
      reads this
    {
      Use(dynamic, leakage, memLeakage, primitivePower, interPower, logicConfBits, numMuxes)
    }

    /** The mean activity of an interconnect's first-level multiplexers; None is the quotient 0 / 0 when there are none. */
    method InterconnectActivity(b: Option<Block>, inputs: seq<seq<Pin>>)
      returns (numInputs: nat, mean: Option<real>, clock: bool)
      requires LibraryOk(lib)
      ensures numInputs == |Flat(inputs)| && clock == HasClock(Flat(inputs))
      ensures mean == if Flat(inputs) == [] then None else Some(MeanActivity(b, Flat(inputs), lib.muxSize))
    {
      hide GroupSum, Silent, Grouped, Flat, Density;
      var g := lib.muxSize + 2;
      var averageSa, oneMux, flag, groups: nat := 0.0, 1.0, 0, 0;
      numInputs, clock := 0, false;
      ghost var pins: seq<Pin> := [];
      NoneGrouped(b, g);
      FlatEmpty(inputs);
      for i := 0 to |inputs|
        invariant pins == Flat(inputs[..i]) && numInputs == |pins| && clock == HasClock(pins)
        invariant Grouped(b, pins, g, averageSa, oneMux, flag, groups) && flag < g
      {
        for j := 0 to |inputs[i]|
          invariant pins == Flat(inputs[..i]) + inputs[i][..j] && numInputs == |pins| && clock == HasClock(pins)
          invariant Grouped(b, pins, g, averageSa, oneMux, flag, groups) && flag < g
        {
          var p := inputs[i][j];
          GroupStep(b, pins, p, g, averageSa, oneMux, flag, groups);
          numInputs := numInputs + 1;
          oneMux := oneMux * (1.0 - Density(b, p) / 2.0);
          if flag <= lib.muxSize {
            flag := flag + 1;
          } else {
            flag := 0;
            averageSa := averageSa + (1.0 - oneMux);
            oneMux := 1.0;
            groups := groups + 1;
          }
          clock := clock || p.clock;
          ClockNext(pins, p);
          pins := pins + [p];
          assert inputs[i][..j + 1] == inputs[i][..j] + [p];
        }
        FlatNext(inputs, i);
        assert inputs[i][..|inputs[i]|] == inputs[i];
      }
      assert inputs[..|inputs|] == inputs;
      EmptyGroups(b, pins, g, averageSa, oneMux, flag, groups);
      if pins != [] {
        GroupEnd(b, pins, g, averageSa, oneMux, flag, groups);
      }
      if flag != 0 {
        averageSa := averageSa + (1.0 - oneMux);
        groups := groups + 1;
      }
      mean := if groups == 0 then None else Some(averageSa / groups as real);
    }

    /** The chance that none of a node's input pins switches. */
    method InputSilence(b: Option<Block>, inputs: seq<seq<Pin>>) returns (silence: real)
      ensures silence == Silent(b, Flat(inputs))
    {
      hide Silent, Flat, Density;
      silence := 1.0;
      FlatEmpty(inputs);
      SilentNext(b, [], Pin(0, false));
      ghost var pins: seq<Pin> := [];
      for x := 0 to |inputs|
        invariant pins == Flat(inputs[..x]) && silence == Silent(b, pins)
      {
        for y := 0 to |inputs[x]|
          invariant pins == Flat(inputs[..x]) + inputs[x][..y] && silence == Silent(b, pins)
        {
          var p := inputs[x][y];
          silence := silence * (1.0 - Density(b, p) / 2.0);
          SilentNext(b, pins, p);
          pins := pins + [p];
          assert inputs[x][..y + 1] == inputs[x][..y] + [p];
        }
        FlatNext(inputs, x);
        assert inputs[x][..|inputs[x]|] == inputs[x];
      }
      assert inputs[..|inputs|] == inputs;
    }

    /** A primitive. */
    method PowerMacro(n: Node, b: Option<Block>, i: Instance)
      requires LibraryOk(lib) && i.Macro? && i.atFreq > 0.0
      modifies this
      ensures Now() == Add(old(Now()), MacroUse(lib, n, b, i))
    {
      hide Silent, Flat, MemLeakage, MacroDynamic, MacroLeakage;
      memLeakage := memLeakage + MemLeakage(lib, i.confBits);
      logicConfBits := logicConfBits + i.confBits;
      if b.None? {
        leakage := leakage + i.staticPower;
        primitivePower := primitivePower + i.staticPower;
        return;
      }
      var silence := InputSilence(b, n.inputs);
      var averageSa := 1.0 - silence;
      dynamic := dynamic + MacroDynamic(lib, i, averageSa);
      leakage := leakage + MacroLeakage(i, averageSa);
      primitivePower := primitivePower + (MacroDynamic(lib, i, averageSa) + MacroLeakage(i, averageSa));
    }

    /** One output pin of an interconnect, a multiplexer tree of its own. */
    method PowerOutput(ghost b: Option<Block>, ghost pins: seq<Pin>, numInputs: nat, averageSa: real)
      requires LibraryOk(lib) && pins != [] && numInputs == |pins| && averageSa == MeanActivity(b, pins, lib.muxSize)
      modifies this
      ensures Now() == Add(old(Now()), OutputUse(lib, b, pins))
    {
      hide MeanActivity, Muxes, SelectBits, MemLeakage, MuxDynamic, MuxLeakage;
      var count := NumDefaultMuxes(numInputs, lib.muxSize);
      dynamic := dynamic + MuxDynamic(lib, count, averageSa);
      leakage := leakage + MuxLeakage(lib, count, averageSa);
      numMuxes := numMuxes + count;
      interPower := interPower + (MuxDynamic(lib, count, averageSa) + MuxLeakage(lib, count, averageSa));
      var bits := count * SelectBits(lib.muxSize);
      memLeakage := memLeakage + MemLeakage(lib, bits);
      logicConfBits := logicConfBits + bits;
    }

    /** Interconnect c of the node at place p: every output pin, unless a clock is among the inputs. */
    method PowerInterconnect(b: Option<Block>, i: Interconnect, ghost p: Place, ghost c: nat)
      requires LibraryOk(lib) && PlaceOk(p) && p.entry.Sum? && p.block == b
      requires c < |ModeHere(p).interconnects| && ModeHere(p).interconnects[c] == i
      modifies this
      ensures Now() == Add(old(Now()), Total(lib, InterconnectItems(p, c, i)))
    {
      hide PlaceOk, ModeHere, OutputUse, ItemUse, MeanActivity, Flat, HasClock, Add, Total;
      ghost var before := Now();
      AddNone(before);
      NoTotal(lib);
      if i.Direct? {
        return;
      }
      HasInputs(p, c);
      var numInputs, mean, clock := InterconnectActivity(b, i.inputs);
      var averageSa := mean.value;
      for x := 0 to |i.outputs|
        invariant Now() == if clock then before else Add(before, Total(lib, PortItems(p, c, i.outputs, x)))
      {
        ghost var ports := PortItems(p, c, i.outputs, x);
        assert ports + PinItems(p, c, x, 0) == ports;
        for y := 0 to |i.outputs[x]|
          invariant Now() == if clock then before else Add(before, Total(lib, ports + PinItems(p, c, x, y)))
        {
          if !clock {
            PowerOutput(b, Flat(i.inputs), numInputs, averageSa);
            NextPin(lib, before, p, c, i, ports, x, y);
          }
        }
      }
    }

    /** power_pb. */
    method PowerPb(b: Option<Block>, n: Node, i: Instance)
      requires LibraryOk(lib) && PlaceOk(Place(n, b, i))
      modifies this
      ensures ListsAll(Place(n, b, i), Items(Place(n, b, i)))
      ensures Now() == Add(old(Now()), Total(lib, Items(Place(n, b, i))))
      decreases i
    {
      hide PlaceOk, MacroUse, TypeItems, ChildrenItems, ChildItems, InterconnectsItems, InterconnectItems, Add, Entry, Total, ItemUse;
      hide ListsAll;
      ghost var before, p := Now(), Place(n, b, i);
      ItemsExact(p);
      AddNone(before);
      NoTotal(lib);
      PlaceFits(p);
      if i.Ignore? {
        return;
      }
      if i.Macro? {
        PowerMacro(n, b, i);
        MacroTotal(lib, p);
        return;
      }
      var mode := n.modes[ModeOf(b)];
      NoItems(p);
      for t := 0 to |mode.children|
        invariant Now() == Add(before, Total(lib, TypeItems(p, t)))
      {
        ghost var types := TypeItems(p, t);
        assert types + ChildrenItems(p, t, 0) == types by { NoChildren(p, t); }
        for k := 0 to |mode.children[t]|
          invariant Now() == Add(before, Total(lib, types + ChildrenItems(p, t, k)))
        {
          var child := mode.children[t][k];
          var e := Entry(i.children, child.name);
          NextChild(lib, before, p, types, t, k);
          if e < |i.children| {
            PowerPb(ChildOf(b, t, k), child, i.children[e]);
          }
        }
        NextType(p, t);
      }
      ghost var types := TypeItems(p, |mode.children|);
      assert types + InterconnectsItems(p, mode.interconnects, 0) == types;
      for c := 0 to |mode.interconnects|
        invariant Now() == Add(before, Total(lib, types + InterconnectsItems(p, mode.interconnects, c)))
      {
        PowerInterconnect(b, mode.interconnects[c], p, c);
        NextInterconnect(lib, before, p, types, mode.interconnects, c);
      }
    }

    lemma NowIs()
      ensures Now() == Use(dynamic, leakage, memLeakage, primitivePower, interPower, logicConfBits, numMuxes)
    {
    }

    /** The first library entry of a location's name is used for each of its blocks. */
    method PowerLocation(entries: seq<Instance>, l: Location, ghost x: nat, ghost y: nat)
      requires LibraryOk(lib) && EntriesOk(entries) && LocationOk(l, entries)
      modifies this
      ensures Now() == Add(old(Now()), GridTotal(lib, BlockItems(entries, l, x, y, |l.blocks|)))
    {
      hide EntriesOk, LocationOk, PlaceOk, BlockItems, Items, Add, GridTotal;
      ghost var before := Now();
      AddNone(before);
      NoGridTotal(lib);
      NoBlocks(entries, l, x, y, |l.blocks|);
      NoBlocks(entries, l, x, y, 0);
      if l.offset != 0 || l.kind.None? {
        return;
      }
      for z := 0 to |l.blocks|
        invariant Now() == Add(before, GridTotal(lib, BlockItems(entries, l, x, y, z)))
      {
        var e := Entry(entries, l.kind.value.name);
        NextBlock(lib, before, entries, l, x, y, z);
        if e < |entries| {
          PowerPb(l.blocks[z], l.kind.value, entries[e]);
        }
      }
    }

    /** power_complex_block. */
    method PowerComplexBlock(entries: seq<Instance>, grid: seq<seq<Location>>)
      requires LibraryOk(lib) && EntriesOk(entries) && GridOk(entries, grid)
      modifies this
      ensures CoversGrid(entries, grid, GridItems(entries, grid, |grid|))
      ensures Now() == Add(old(Now()), GridTotal(lib, GridItems(entries, grid, |grid|)))
    {
      hide EntriesOk, LocationOk, BlockItems, Add, GridTotal, CoversGrid;
      ghost var before := Now();
      GridExact(entries, grid);
      AddNone(before);
      NoGridTotal(lib);
      for x := 0 to |grid|
        invariant Now() == Add(before, GridTotal(lib, GridItems(entries, grid, x)))
      {
        ghost var columns := GridItems(entries, grid, x);
        assert columns + ColumnItems(entries, grid, x, 0) == columns;
        for y := 0 to |grid[x]|
          invariant Now() == Add(before, GridTotal(lib, columns + ColumnItems(entries, grid, x, y)))
        {
          PowerLocation(entries, grid[x][y], x, y);
          NextLocation(lib, before, entries, grid, columns, x, y);
        }
      }
    }

    /** The configuration memory of power_routing. */
    method PowerRouting(ns: seq<RouteNode>) returns (totalConfBits: int)
      requires LibraryOk(lib)
      modifies this
      ensures totalConfBits == RoutingBits(ns, lib.muxSize, |ns|)
      ensures Now() == Add(old(Now()), Use(0.0, 0.0, MemLeakage(lib, totalConfBits), 0.0, 0.0, 0, 0))
    {
      hide Muxes, SelectBits, MemLeakage;
      totalConfBits := 0;
      MemLeakageAdds(lib, 0, 0);
      for k := 0 to |ns|
        invariant totalConfBits == RoutingBits(ns, lib.muxSize, k)
        invariant Now() == Add(old(Now()), Use(0.0, 0.0, MemLeakage(lib, totalConfBits), 0.0, 0.0, 0, 0))
      {
        var n := ns[k];
        if n.kind == InPin {
          if n.fanIn != 0 {
            var count := NumDefaultMuxes(n.fanIn, lib.muxSize);
            MemLeakageAdds(lib, totalConfBits, count * SelectBits(lib.muxSize));
            memLeakage := memLeakage + MemLeakage(lib, count * SelectBits(lib.muxSize));
            totalConfBits := totalConfBits + count * SelectBits(lib.muxSize);
          }
        } else if n.kind == Channel {
          var count := NumDefaultMuxes(n.fanIn, lib.muxSize);
          MemLeakageAdds(lib, totalConfBits, count * SelectBits(lib.muxSize));
          memLeakage := memLeakage + MemLeakage(lib, count * SelectBits(lib.muxSize));
          totalConfBits := totalConfBits + count * SelectBits(lib.muxSize);
        }
      }
    }

    /**
     * Routing and blocks. The list os has everything counted in the grid once, and block power, memory leakage and bits are
     * the sums of what should be added for it; block power by kind is block power by origin, and memory leakage is the
     * static power of every configuration bit counted.
     */
    method Estimate(entries: seq<Instance>, grid: seq<seq<Location>>, ns: seq<RouteNode>)
      returns (totalConfBits: int, ghost os: seq<Occurrence>)
      requires LibraryOk(lib) && EntriesOk(entries) && GridOk(entries, grid) && Now() == NoUse
      modifies this
      ensures CoversGrid(entries, grid, os) && forall k | 0 <= k < |os| :: Amounts(lib, os[k].item, ItemUse(lib, os[k].item))
      ensures dynamic == GridTotal(lib, os).dynamic && leakage == GridTotal(lib, os).leakage
      ensures logicConfBits == GridTotal(lib, os).bits && numMuxes == GridTotal(lib, os).muxes
      ensures totalConfBits == RoutingBits(ns, lib.muxSize, |ns|)
      ensures forall k | 0 <= k < |ns| :: RouteAmount(ns[k], lib.muxSize, RouteBits(ns[k], lib.muxSize))
      ensures memLeakage == lib.memStatic * (totalConfBits + logicConfBits) as real
      ensures primitivePower == GridTotal(lib, os).primitive && interPower == GridTotal(lib, os).inter
      ensures dynamic + leakage == primitivePower + interPower
    {
      hide *;
      totalConfBits := PowerRouting(ns);
      PowerComplexBlock(entries, grid);
      os := GridItems(entries, grid, |grid|);
      GridBalanced(lib, os);
      Totals(lib, totalConfBits, GridTotal(lib, os));
      NowIs();
      forall k | 0 <= k < |os| ensures Amounts(lib, os[k].item, ItemUse(lib, os[k].item)) {
        OccurrenceAmounts(lib, entries, grid, os, k);
      }
      SizeOk(lib);
      forall k | 0 <= k < |ns| ensures RouteAmount(ns[k], lib.muxSize, RouteBits(ns[k], lib.muxSize)) {
        RouteExact(ns[k], lib.muxSize);
      }
    }
  }

  lemma SizeOk(lib: Library)
    requires LibraryOk(lib)
    ensures lib.muxSize >= 2
  {
  }

  lemma OccurrenceAmounts(lib: Library, entries: seq<Instance>, grid: seq<seq<Location>>, os: seq<Occurrence>, k: nat)
    requires LibraryOk(lib) && EntriesOk(entries) && GridOk(entries, grid) && CoversGrid(entries, grid, os) && k < |os|
    ensures Amounts(lib, os[k].item, ItemUse(lib, os[k].item))
  {
    hide LibraryOk, EntriesOk, LocationOk, Belongs, Amounts, ItemUse, AllApart, PlaceOk;
    var o := os[k];
    assert Occurs(entries, grid, o);
    OccursThere(entries, grid, o);
    ItemExact(lib, BlockPlace(entries, grid[o.x][o.y], o.z), o.item);
  }

  lemma Totals(lib: Library, routingBits: int, u: Use)
    requires Balanced(lib, u)
    ensures var t := Add(Add(NoUse, Use(0.0, 0.0, MemLeakage(lib, routingBits), 0.0, 0.0, 0, 0)), u);
            && t == u.(memLeakage := lib.memStatic * (routingBits + u.bits) as real)
            && t.dynamic + t.leakage == t.primitive + t.inter
  {
    hide MemLeakage;
    MemLeakageAdds(lib, routingBits, u.bits);
    MemLeakageAdds(lib, u.bits, 0);
  }

  lemma MemLeakageAdds(lib: Library, x: int, y: int)
    ensures MemLeakage(lib, x + y) == MemLeakage(lib, x) + MemLeakage(lib, y)
    ensures MemLeakage(lib, x + y) == lib.memStatic * (x + y) as real && MemLeakage(lib, 0) == 0.0
  {
  }

  lemma NoTotal(lib: Library)
    requires LibraryOk(lib)
    ensures Total(lib, []) == NoUse
  {
  }

  lemma NoGridTotal(lib: Library)
    requires LibraryOk(lib)
    ensures GridTotal(lib, []) == NoUse
  {
  }

  lemma OneTotal(lib: Library, item: Item)
    requires LibraryOk(lib)
    ensures Total(lib, [item]) == ItemUse(lib, item)
  {
    hide ItemUse, Add;
    assert [item][..0] == [];
    AddNone(ItemUse(lib, item));
  }

  lemma OutputItem(lib: Library, p: Place, c: nat, x: nat, y: nat)
    requires LibraryOk(lib) && PlaceOk(p) && p.entry.Sum? && c < |ModeHere(p).interconnects| && ModeHere(p).interconnects[c].Muxed?
    requires Flat(ModeHere(p).interconnects[c].inputs) != []
    ensures ItemUse(lib, Item([], Output(c, x, y), p)) == OutputUse(lib, p.block, Flat(ModeHere(p).interconnects[c].inputs))
  {
    hide Flat, OutputUse;
    HasInputs(p, c);
  }

  lemma NextPin(lib: Library, before: Use, p: Place, c: nat, i: Interconnect, ports: seq<Item>, x: nat, y: nat)
    requires LibraryOk(lib) && PlaceOk(p) && p.entry.Sum? && c < |ModeHere(p).interconnects| && ModeHere(p).interconnects[c] == i
    requires i.Muxed? && Flat(i.inputs) != []
    ensures Add(before, Total(lib, ports + PinItems(p, c, x, y + 1)))
         == Add(Add(before, Total(lib, ports + PinItems(p, c, x, y))), OutputUse(lib, p.block, Flat(i.inputs)))
  {
    hide PlaceOk, ModeHere, Flat, OutputUse, ItemUse, Total, Add;
    var item := Item([], Output(c, x, y), p);
    assert ports + PinItems(p, c, x, y + 1) == ports + PinItems(p, c, x, y) + [item];
    TotalAppend(lib, ports + PinItems(p, c, x, y), [item]);
    OneTotal(lib, item);
    OutputItem(lib, p, c, x, y);
    AddAdd(before, Total(lib, ports + PinItems(p, c, x, y)), ItemUse(lib, item));
  }

  lemma MacroTotal(lib: Library, p: Place)
    requires LibraryOk(lib) && PlaceOk(p) && p.entry.Macro?
    ensures p.entry.atFreq > 0.0 && Total(lib, Items(p)) == MacroUse(lib, p.node, p.block, p.entry)
  {
    hide MacroUse, Add, Total;
    OneTotal(lib, Item([], Primitive, p));
  }

  lemma PlaceFits(p: Place)
    requires PlaceOk(p)
    ensures p.entry.Macro? ==> p.entry.atFreq > 0.0
    ensures p.entry.Sum? ==> ModeOf(p.block) < |p.node.modes| && ModeHere(p) == p.node.modes[ModeOf(p.block)]
  {
  }

  lemma NoItems(p: Place)
    requires PlaceOk(p) && p.entry.Sum?
    ensures TypeItems(p, 0) == [] && InterconnectsItems(p, ModeHere(p).interconnects, 0) == []
  {
  }

  lemma NoChildren(p: Place, t: nat)
    requires PlaceOk(p) && p.entry.Sum? && t < |ModeHere(p).children|
    ensures ChildrenItems(p, t, 0) == []
  {
  }

  lemma NextType(p: Place, t: nat)
    requires PlaceOk(p) && p.entry.Sum? && t < |ModeHere(p).children|
    ensures TypeItems(p, t + 1) == TypeItems(p, t) + ChildrenItems(p, t, |ModeHere(p).children[t]|)
  {
    hide PlaceOk, ModeHere, ChildrenItems;
  }

  /** A list that grows by items at its end grows by their total. */
  lemma Grows(lib: Library, before: Use, items: seq<Item>, more: seq<Item>)
    requires LibraryOk(lib)
    ensures Add(before, Total(lib, items + more)) == Add(Add(before, Total(lib, items)), Total(lib, more))
  {
    hide Total, Add;
    TotalAppend(lib, items, more);
    AddAdd(before, Total(lib, items), Total(lib, more));
  }

  lemma NextChild(lib: Library, before: Use, p: Place, types: seq<Item>, t: nat, k: nat)
    requires LibraryOk(lib) && PlaceOk(p) && p.entry.Sum? && t < |ModeHere(p).children| && k < |ModeHere(p).children[t]|
    ensures var more := ChildrenItems(p, t, k + 1);
            var now := Add(before, Total(lib, types + ChildrenItems(p, t, k)));
            if Known(p, t, k) then Add(before, Total(lib, types + more)) == Add(now, Total(lib, Items(ChildPlace(p, t, k))))
            else Add(before, Total(lib, types + more)) == now
    ensures ModeHere(p) == p.node.modes[ModeOf(p.block)]
    ensures var child := ModeHere(p).children[t][k];
            var e := Entry(p.entry.children, child.name);
            && Known(p, t, k) == (e < |p.entry.children|)
            && (Known(p, t, k) ==> ChildPlace(p, t, k) == Place(child, ChildOf(p.block, t, k), p.entry.children[e]) && p.entry.children[e] < p.entry)
  {
    hide PlaceOk, Total, Add, Items, Under, Entry;
    var items := ChildrenItems(p, t, k);
    assert types + ChildrenItems(p, t, k + 1) == types + items + ChildItems(p, t, k);
    if Known(p, t, k) {
      Grows(lib, before, types + items, ChildItems(p, t, k));
      UnderTotal(lib, Step(t, k), Items(ChildPlace(p, t, k)));
    } else {
      assert types + items + ChildItems(p, t, k) == types + items;
    }
  }

  lemma NextInterconnect(lib: Library, before: Use, p: Place, types: seq<Item>, cs: seq<Interconnect>, c: nat)
    requires LibraryOk(lib) && c < |cs|
    ensures Add(before, Total(lib, types + InterconnectsItems(p, cs, c + 1)))
         == Add(Add(before, Total(lib, types + InterconnectsItems(p, cs, c))), Total(lib, InterconnectItems(p, c, cs[c])))
  {
    hide Total, Add, InterconnectItems;
    assert types + InterconnectsItems(p, cs, c + 1) == types + InterconnectsItems(p, cs, c) + InterconnectItems(p, c, cs[c]);
    Grows(lib, before, types + InterconnectsItems(p, cs, c), InterconnectItems(p, c, cs[c]));
  }

  lemma NoBlocks(entries: seq<Instance>, l: Location, x: nat, y: nat, z: nat)
    requires EntriesOk(entries) && LocationOk(l, entries) && z <= |l.blocks|
    ensures z == 0 || l.offset != 0 || l.kind.None? ==> BlockItems(entries, l, x, y, z) == []
  {
    hide EntriesOk, LocationOk;
  }

  lemma NextBlock(lib: Library, before: Use, entries: seq<Instance>, l: Location, x: nat, y: nat, z: nat)
    requires LibraryOk(lib) && EntriesOk(entries) && LocationOk(l, entries) && z < |l.blocks| && l.offset == 0 && l.kind.Some?
    ensures var e := Entry(entries, l.kind.value.name);
            var now := Add(before, GridTotal(lib, BlockItems(entries, l, x, y, z)));
            var next := Add(before, GridTotal(lib, BlockItems(entries, l, x, y, z + 1)));
            && (e == |entries| ==> next == now)
            && (e < |entries| ==>
                  var p := Place(l.kind.value, l.blocks[z], entries[e]);
                  PlaceOk(p) && next == Add(now, Total(lib, Items(p))))
  {
    hide EntriesOk, LocationOk, GridTotal, Items, Add, PlaceOk, Stamped, Entry;
    if InUse(entries, l) {
      var p := BlockPlace(entries, l, z);
      GridTotalAppend(lib, BlockItems(entries, l, x, y, z), Stamped(x, y, z, Items(p)));
      StampedTotal(lib, x, y, z, Items(p));
      AddAdd(before, GridTotal(lib, BlockItems(entries, l, x, y, z)), Total(lib, Items(p)));
    }
  }

  lemma NextLocation(
    lib: Library, before: Use, entries: seq<Instance>, grid: seq<seq<Location>>, columns: seq<Occurrence>, x: nat, y: nat)
    requires LibraryOk(lib) && EntriesOk(entries) && GridOk(entries, grid) && x < |grid| && y < |grid[x]|
    ensures Add(before, GridTotal(lib, columns + ColumnItems(entries, grid, x, y + 1)))
         == Add(Add(before, GridTotal(lib, columns + ColumnItems(entries, grid, x, y))),
                GridTotal(lib, BlockItems(entries, grid[x][y], x, y, |grid[x][y].blocks|)))
  {
    hide EntriesOk, LocationOk, GridTotal, BlockItems, Add;
    var front, more := columns + ColumnItems(entries, grid, x, y), BlockItems(entries, grid[x][y], x, y, |grid[x][y].blocks|);
    assert columns + ColumnItems(entries, grid, x, y + 1) == front + more;
    GridTotalAppend(lib, front, more);
    AddAdd(before, GridTotal(lib, front), GridTotal(lib, more));
  }

  lemma FlatEmpty<T>(ports: seq<seq<T>>)
    ensures Flat(ports[..0]) == []
  {
  }

  lemma ClockNext(pins: seq<Pin>, p: Pin)
    ensures HasClock(pins + [p]) == (HasClock(pins) || p.clock)
    ensures !HasClock([])
  {
    if p.clock {
      assert p in pins + [p];
    }
    if q :| q in pins && q.clock {
      assert q in pins + [p];
    }
  }
}
