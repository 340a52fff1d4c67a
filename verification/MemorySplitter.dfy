/**
 * The depth-splitting recursion itself: memory nodes lose address pins in place, their copies take the other half, and
 * the banks end up on the memory lists.
 */
module MemorySplitter {
  import opened Options
  import opened Signals
  import opened BankedRam
  import opened Binary
  import opened MemoryDepth
  import opened OutputWiring

  class MemNode {
    var inputPins: seq<MemPin>
    var inputPortSizes: seq<nat>
    var outputPins: seq<OutPin>

    constructor (pins: seq<MemPin>, sizes: seq<nat>)
      ensures inputPins == pins && inputPortSizes == sizes && outputPins == []
    {
      inputPins, inputPortSizes, outputPins := pins, sizes, [];
    }

    ghost predicate Valid()
      reads this
    {
      Ported(inputPins, inputPortSizes)
    }

    /** The loop over the ports that looks for a mapping: the port's number (-1 when absent) and first pin. */
    method FindPort(mapping: Mapping) returns (port: int, idx: nat)
      requires Valid()
      ensures port == -1 <==> !Has(inputPins, mapping)
      ensures port >= -1
      ensures port >= 0 ==> Has(inputPins, mapping) && idx == First(inputPins, mapping)
      ensures port >= 0 ==> port < |inputPortSizes| && idx == Sum(inputPortSizes[..port])
      ensures port >= 0 ==> idx + inputPortSizes[port] <= |inputPins| && inputPins[idx..idx + inputPortSizes[port]] == Mapped(inputPins, mapping)
    {
      hide Mapped, Has, Ported;
      port, idx := -1, 0;
      var at: nat := 0;
      SearchStart(inputPins, inputPortSizes, mapping);
      for i := 0 to |inputPortSizes|
        invariant Searched(inputPins, inputPortSizes, i, at, port, idx, mapping)
      {
        SearchStep(inputPins, inputPortSizes, i, at, port, idx, mapping);
        var hit := inputPins[at].mapping == mapping;
        port, idx, at := if hit then i else port, if hit then at else idx, at + inputPortSizes[i];
      }
      SearchEnd(inputPins, inputPortSizes, at, port, idx, mapping);
    }

    /** Shifts the pins after a port's first pin down by one and shortens the port. */
    method RemovePin(port: nat, idx: nat)
      requires Valid() && port < |inputPortSizes| && inputPortSizes[port] >= 2
      requires idx == Sum(inputPortSizes[..port]) < |inputPins|
      modifies this`inputPins, this`inputPortSizes
      ensures Valid()
      ensures inputPins == RemoveAt(old(inputPins), idx)
    {
      RemovePorted(inputPins, inputPortSizes, port);
      ShiftDown(idx);
      inputPortSizes := inputPortSizes[port := inputPortSizes[port] - 1];
    }

    method ShiftDown(idx: nat)
      requires idx < |inputPins|
      modifies this`inputPins
      ensures inputPins == RemoveAt(old(inputPins), idx)
    {
      hide Shifted;
      ghost var pins0 := inputPins;
      ShiftStart(pins0, idx);
      var i := idx;
      while i < |inputPins| - 1
        invariant idx <= i <= |inputPins| - 1 && |inputPins| == |pins0|
        invariant inputPins == Shifted(pins0, idx, i)
      {
        ShiftStep(pins0, idx, i);
        inputPins := inputPins[i := inputPins[i + 1]];
        i := i + 1;
      }
      ShiftEnd(pins0, idx);
      inputPins := inputPins[..|inputPins| - 1];
    }

    /** The first of the mappings that no port has. */
    method MissingPort(mappings: seq<Mapping>) returns (missing: Option<Mapping>)
      requires Valid()
      ensures missing.None? <==> forall i | 0 <= i < |mappings| :: Has(inputPins, mappings[i])
      ensures missing.Some? ==> missing.value in mappings && !Has(inputPins, missing.value)
    {
      for i := 0 to |mappings|
        invariant forall k | 0 <= k < i :: Has(inputPins, mappings[k])
      {
        var port, _ := FindPort(mappings[i]);
        if port == -1 {
          return Some(mappings[i]);
        }
      }
      missing := None;
    }

    /** The address pins before the first one tied to the pad net. */
    method LogicalSize(mapping: Mapping) returns (size: nat)
      requires Valid() && Has(inputPins, mapping)
      ensures size == Leading(Mapped(inputPins, mapping))
    {
      hide Mapped, Has, First, Ported;
      var port, idx := FindPort(mapping);
      ghost var pins := Mapped(inputPins, mapping);
      size := 0;
      while size < inputPortSizes[port] && inputPins[idx + size].name != PAD
        invariant size <= inputPortSizes[port] == |pins|
        invariant size + Leading(pins[size..]) == Leading(pins)
      {
        assert pins[size] == inputPins[idx + size];
        assert pins[size..][1..] == pins[size + 1..];
        size := size + 1;
      }
      if size < |pins| {
        assert pins[size] == inputPins[idx + size];
      }
    }

    method PinOf(mapping: Mapping) returns (pin: MemPin)
      requires Valid() && Has(inputPins, mapping)
      ensures Mapped(inputPins, mapping) != [] && pin == Mapped(inputPins, mapping)[0]
    {
      var _, idx := FindPort(mapping);
      MappedRemove(inputPins, mapping, mapping);
      pin := inputPins[idx];
    }

    /** Takes the port's first pin out of the node. */
    method DropFirst(mapping: Mapping) returns (pin: MemPin)
      requires Valid() && |Mapped(inputPins, mapping)| >= 2
      modifies this`inputPins, this`inputPortSizes
      ensures Valid()
      ensures pin == old(Mapped(inputPins, mapping)[0])
      ensures Replaced(old(inputPins), inputPins, mapping, old(Mapped(inputPins, mapping)[1..]))
    {
      MappedNone(inputPins, mapping);
      var port, idx := FindPort(mapping);
      forall m ensures Mapped(RemoveAt(inputPins, idx), m) == if m == mapping then Mapped(inputPins, m)[1..] else Mapped(inputPins, m) {
        MappedRemove(inputPins, mapping, m);
      }
      MappedRemove(inputPins, mapping, mapping);
      pin := inputPins[idx];
      RemovePin(port, idx);
    }

    method PinIfAny(mapping: Mapping) returns (pin: Option<MemPin>)
      requires Valid()
      ensures pin == FirstMapped(inputPins, mapping)
    {
      hide Mapped, Has, Ported, Sum;
      MappedNone(inputPins, mapping);
      var port, _ := FindPort(mapping);
      if port == -1 {
        pin := None;
      } else {
        var p := PinOf(mapping);
        pin := Some(p);
      }
    }

    method DropIfAny(mapping: Mapping) returns (pin: Option<MemPin>)
      requires Valid() && |Mapped(inputPins, mapping)| != 1
      modifies this`inputPins, this`inputPortSizes
      ensures Valid()
      ensures pin == FirstMapped(old(inputPins), mapping)
      ensures Replaced(old(inputPins), inputPins, mapping, Tail(Mapped(old(inputPins), mapping)))
    {
      hide Mapped, Has, Ported, Sum;
      MappedNone(inputPins, mapping);
      var port, _ := FindPort(mapping);
      if port == -1 {
        pin := None;
      } else {
        var p := DropFirst(mapping);
        pin := Some(p);
      }
    }

    method GateIfAny(mapping: Mapping, bit: Option<MemPin>, high: bool, we: Option<MemPin>)
      requires Valid() && |Mapped(inputPins, mapping)| == (if we.Some? then 1 else 0)
      requires we.Some? ==> bit.Some?
      modifies this`inputPins
      ensures Valid()
      ensures Replaced(old(inputPins), inputPins, mapping, GatePins(mapping, bit, high, we))
    {
      hide Mapped, Has, First, Ported, Sum;
      MappedNone(inputPins, mapping);
      if we.Some? {
        GateEnable(mapping, bit.value.sig, high, we.value.sig);
      }
    }

    method GateBoth(bit1: Option<MemPin>, bit2: Option<MemPin>, high: bool, we1: Option<MemPin>, we2: Option<MemPin>)
      requires Valid() && |Mapped(inputPins, We1)| == (if we1.Some? then 1 else 0) && |Mapped(inputPins, We2)| == (if we2.Some? then 1 else 0)
      requires (we1.Some? ==> bit1.Some?) && (we2.Some? ==> bit2.Some?)
      modifies this`inputPins
      ensures Valid()
      ensures DpGated(old(inputPins), inputPins, GatePins(We1, bit1, high, we1), GatePins(We2, bit2, high, we2))
    {
      hide Mapped, Has, Ported;
      GateIfAny(We1, bit1, high, we1);
      GateIfAny(We2, bit2, high, we2);
    }

    /** Puts an AND of the (possibly inverted) address bit and the old enable in front of a write enable. */
    method GateEnable(mapping: Mapping, bit: Signal, high: bool, we: Signal)
      requires Valid() && Has(inputPins, mapping) && |Mapped(inputPins, mapping)| == 1
      modifies this`inputPins
      ensures Valid()
      ensures Replaced(old(inputPins), inputPins, mapping, [MemPin(mapping, "", Gate(bit, high, we))])
    {
      var _, idx := FindPort(mapping);
      var gate := MemPin(mapping, "", Gate(bit, high, we));
      forall m ensures Mapped(inputPins[idx := gate], m) == if m == mapping then [gate] else Mapped(inputPins, m) {
        MappedReplace(inputPins, mapping, gate, m);
      }
      ReplacePorted(inputPins, inputPortSizes, idx, gate);
      inputPins := inputPins[idx := gate];
    }
  }

  /** The elements idx + 1 .. i moved down by one. */
  function Shifted<T>(s: seq<T>, idx: nat, i: nat): (r: seq<T>)
    requires idx <= i < |s|
    ensures |r| == |s|
  {
    s[..idx] + s[idx + 1..i + 1] + s[i..]
  }

  lemma ShiftStart<T>(s: seq<T>, idx: nat)
    requires idx < |s|
    ensures Shifted(s, idx, idx) == s
  {
  }

  lemma ShiftStep<T>(s: seq<T>, idx: nat, i: nat)
    requires idx <= i < |s| - 1
    ensures Shifted(s, idx, i)[i := Shifted(s, idx, i)[i + 1]] == Shifted(s, idx, i + 1)
  {
  }

  lemma ShiftEnd<T>(s: seq<T>, idx: nat)
    requires idx < |s|
    ensures Shifted(s, idx, |s| - 1)[..|s| - 1] == RemoveAt(s, idx)
  {
  }

  /** One port's pins replaced, all others kept. */
  ghost predicate Replaced(before: seq<MemPin>, after: seq<MemPin>, port: Mapping, pins: seq<MemPin>) {
    forall m :: Mapped(after, m) == if m == port then pins else Mapped(before, m)
  }

  /** A run of pins with the mapping, and no other pin with it. */
  ghost predicate PortIs(pins: seq<MemPin>, idx: nat, size: nat, mapping: Mapping) {
    && idx + size <= |pins| && size > 0
    && (forall i | 0 <= i < |pins| :: pins[i].mapping == mapping <==> idx <= i < idx + size)
  }

  lemma {:induction false} SumStep(sizes: seq<nat>, i: nat)
    requires i < |sizes|
    ensures Sum(sizes[..i + 1]) == Sum(sizes[..i]) + sizes[i]
  {
    if i > 0 {
      SumStep(sizes[1..], i - 1);
      assert sizes[..i + 1][1..] == sizes[1..][..i] && sizes[..i][1..] == sizes[1..][..i - 1];
    } else {
      assert sizes[..1][1..] == [];
    }
  }

  /** The state of the port search before port i, whose first pin is at. */
  ghost predicate Searched(pins: seq<MemPin>, sizes: seq<nat>, i: nat, at: nat, port: int, idx: nat, mapping: Mapping) {
    && i <= |sizes| && at <= |pins| && at == Sum(sizes[..i]) && Ported(pins[at..], sizes[i..])
    && -1 <= port < i
    && (port == -1 ==> !Has(pins[..at], mapping))
    && (port >= 0 ==> idx == Sum(sizes[..port]) && PortIs(pins, idx, sizes[port], mapping) && idx + sizes[port] <= at)
  }

  lemma SearchStart(pins: seq<MemPin>, sizes: seq<nat>, mapping: Mapping)
    requires Ported(pins, sizes)
    ensures Searched(pins, sizes, 0, 0, -1, 0, mapping)
  {
    assert pins[0..] == pins && sizes[0..] == sizes;
  }

  lemma SearchStep(pins: seq<MemPin>, sizes: seq<nat>, i: nat, at: nat, port: int, idx: nat, mapping: Mapping)
    requires i < |sizes| && Searched(pins, sizes, i, at, port, idx, mapping)
    ensures at < |pins|
    ensures var hit := pins[at].mapping == mapping;
            Searched(pins, sizes, i + 1, at + sizes[i], if hit then i else port, if hit then at else idx, mapping)
  {
    var size := sizes[i];
    assert pins[at..][size..] == pins[at + size..] && sizes[i..][1..] == sizes[i + 1..];
    SumStep(sizes, i);
    forall k | at <= k < |pins| ensures pins[k].mapping == pins[at].mapping <==> k < at + size {
      assert pins[k] == pins[at..][k - at];
    }
    if port == -1 {
      forall k | 0 <= k < at ensures pins[k].mapping != mapping {
        assert pins[k] == pins[..at][k];
      }
    }
  }

  lemma SearchEnd(pins: seq<MemPin>, sizes: seq<nat>, at: nat, port: int, idx: nat, mapping: Mapping)
    requires Searched(pins, sizes, |sizes|, at, port, idx, mapping)
    ensures port == -1 <==> !Has(pins, mapping)
    ensures port >= 0 ==> idx == First(pins, mapping) && idx + sizes[port] <= |pins|
    ensures port >= 0 ==> pins[idx..idx + sizes[port]] == Mapped(pins, mapping)
  {
    assert sizes[|sizes|..] == [] && pins[..at] == pins;
    if port >= 0 {
      PortFound(pins, idx, sizes[port], mapping);
    }
  }

  lemma {:induction false} MappedAll(pins: seq<MemPin>, mapping: Mapping)
    requires forall i | 0 <= i < |pins| :: pins[i].mapping == mapping
    ensures Mapped(pins, mapping) == pins
  {
    if pins != [] {
      MappedAll(pins[1..], mapping);
    }
  }

  lemma PortFound(pins: seq<MemPin>, idx: nat, size: nat, mapping: Mapping)
    requires PortIs(pins, idx, size, mapping)
    ensures Has(pins, mapping) && First(pins, mapping) == idx
    ensures Mapped(pins, mapping) == pins[idx..idx + size]
  {
    hide Mapped, First;
    assert pins[idx].mapping == mapping;
    var front, block, rest := pins[..idx], pins[idx..idx + size], pins[idx + size..];
    assert pins == front + (block + rest);
    MappedAppend(front, block + rest, mapping);
    MappedAppend(block, rest, mapping);
    MappedAll(block, mapping);
    MappedNone(front, mapping);
    MappedNone(rest, mapping);
  }

  /** One access port as its pins' mappings describe it. */
  function PortView(pins: seq<MemPin>, addr: Mapping, data: Mapping, we: Mapping): Port {
    Port(Drivers(Mapped(pins, addr)), Drivers(Mapped(pins, data)),
         if Mapped(pins, we) == [] then None else Some(Mapped(pins, we)[0].sig))
  }

  function SpPorts(pins: seq<MemPin>): seq<Port> {
    [PortView(pins, Addr, Data, We)]
  }

  function DpPorts(pins: seq<MemPin>): seq<Port> {
    [PortView(pins, Addr1, Data1, We1)] + if Has(pins, Addr2) then [PortView(pins, Addr2, Data2, We2)] else []
  }

  /** How many address bits have to go. */
  function Levels(pins: seq<MemPin>, addr: Mapping, limit: int): nat
    requires limit >= 1
  {
    var depth := Leading(Mapped(pins, addr));
    if depth > limit then depth - limit else 0
  }

  lemma {:induction false} LeadingBound(pins: seq<MemPin>)
    ensures Leading(pins) <= |pins|
  {
    if pins != [] {
      LeadingBound(pins[1..]);
    }
  }

  /** One port of a half: the address without its first pin, the write enable gated by that pin, the data as it was. */
  ghost predicate PortHalved(before: seq<MemPin>, after: seq<MemPin>, high: bool, addr: Mapping, data: Mapping, we: Mapping)
    requires Mapped(before, addr) != []
  {
    && Mapped(after, addr) == Mapped(before, addr)[1..]
    && Mapped(after, data) == Mapped(before, data)
    && Mapped(after, we) == if Mapped(before, we) == [] then []
                            else [MemPin(we, "", Gate(Mapped(before, addr)[0].sig, high, Mapped(before, we)[0].sig))]
  }

  lemma HalfView(before: seq<MemPin>, after: seq<MemPin>, high: bool, addr: Mapping, data: Mapping, we: Mapping)
    requires Mapped(before, addr) != [] && PortHalved(before, after, high, addr, data, we)
    ensures PortView(before, addr, data, we).addr != []
    ensures PortView(after, addr, data, we) == HalfPort(PortView(before, addr, data, we), high)
  {
    hide Mapped;
    assert Drivers(Mapped(before, addr)[1..]) == Drivers(Mapped(before, addr))[1..];
  }

  /** Mapped over all mappings except the two named. */
  ghost predicate OthersKept(before: seq<MemPin>, after: seq<MemPin>, addr: Mapping, we: Mapping) {
    forall m | m != addr && m != we :: Mapped(after, m) == Mapped(before, m)
  }

  /** The ports that splitting changes: addresses and write enables. */
  predicate Changed(m: Mapping, dual: bool) {
    if dual then m == Addr1 || m == Addr2 || m == We1 || m == We2 else m == Addr || m == We
  }

  /** All other ports, data and clock among them, have the pins they had. */
  ghost predicate Elsewhere(before: seq<MemPin>, after: seq<MemPin>, dual: bool) {
    forall m | !Changed(m, dual) :: Mapped(after, m) == Mapped(before, m)
  }

  lemma ElsewhereTransitive(a: seq<MemPin>, b: seq<MemPin>, c: seq<MemPin>, dual: bool)
    requires Elsewhere(a, b, dual) && Elsewhere(b, c, dual)
    ensures Elsewhere(a, c, dual)
  {
    hide Mapped;
  }

  lemma ElsewhereSame(pins: seq<MemPin>, dual: bool)
    ensures Elsewhere(pins, pins, dual)
  {
  }

  /** Every node has the pins elsewhere. */
  ghost predicate AllElsewhere(pins: seq<MemPin>, nodes: seq<MemNode>, dual: bool)
    reads nodes
  {
    forall k | 0 <= k < |nodes| :: Elsewhere(pins, nodes[k].inputPins, dual)
  }

  lemma JoinElsewhere(pins0: seq<MemPin>, pins1: seq<MemPin>, pins2: seq<MemPin>, lows: seq<MemNode>, highs: seq<MemNode>, dual: bool)
    requires Elsewhere(pins0, pins1, dual) && Elsewhere(pins0, pins2, dual)
    requires AllElsewhere(pins1, highs, dual) && AllElsewhere(pins2, lows, dual)
    ensures AllElsewhere(pins0, lows + highs, dual)
  {
    hide Elsewhere;
    var nodes := lows + highs;
    forall k | 0 <= k < |nodes| ensures Elsewhere(pins0, nodes[k].inputPins, dual) {
      ElsewhereTransitive(pins0, if k < |lows| then pins2 else pins1, nodes[k].inputPins, dual);
    }
  }

  lemma ClocksElsewhere(pins: seq<MemPin>, nodes: seq<MemNode>, dual: bool)
    requires AllElsewhere(pins, nodes, dual)
    ensures forall k | 0 <= k < |nodes| :: Mapped(nodes[k].inputPins, Clk) == Mapped(pins, Clk)
  {
    hide Mapped, Elsewhere;
    forall k | 0 <= k < |nodes| ensures Mapped(nodes[k].inputPins, Clk) == Mapped(pins, Clk) {
      ClockElsewhere(pins, nodes[k].inputPins, dual);
    }
  }

  lemma ClockElsewhere(before: seq<MemPin>, after: seq<MemPin>, dual: bool)
    requires Elsewhere(before, after, dual)
    ensures Mapped(after, Clk) == Mapped(before, Clk)
  {
    assert !Changed(Clk, dual);
  }

  lemma Halving(before: seq<MemPin>, mid: seq<MemPin>, after: seq<MemPin>, high: bool, addr: Mapping, data: Mapping, we: Mapping)
    requires addr != data && addr != we && data != we && Mapped(before, addr) != [] && Mapped(before, we) != []
    requires Replaced(before, mid, addr, Mapped(before, addr)[1..])
    requires Replaced(mid, after, we, [MemPin(we, "", Gate(Mapped(before, addr)[0].sig, high, Mapped(before, we)[0].sig))])
    ensures PortHalved(before, after, high, addr, data, we)
    ensures OthersKept(before, after, addr, we)
  {
    hide Mapped, Has, Ported;
  }

  /** The nodes are the banks of a split network, in order. */
  ghost predicate Listed(nodes: seq<MemNode>, banks: seq<seq<Port>>, dual: bool)
    reads nodes
  {
    && |nodes| == |banks|
    && forall b | 0 <= b < |nodes| :: IsBank(nodes[b], banks[b], dual)
  }

  ghost predicate IsBank(node: MemNode, ports: seq<Port>, dual: bool)
    reads node
  {
    node.Valid() && ports == if dual then DpPorts(node.inputPins) else SpPorts(node.inputPins)
  }

  ghost predicate Distinct(nodes: seq<MemNode>) {
    forall i, j | 0 <= i < j < |nodes| :: nodes[i] != nodes[j]
  }

  /** The output side of one split: the pins' nets taken over by multiplexers, both halves on new nets. */
  ghost predicate OutsHalved(outs: seq<OutPin>, select: seq<Signal>, n: nat, muxes0: seq<Mux2>, muxes: seq<Mux2>, next: nat,
                             highs: seq<OutPin>, lows: seq<OutPin>)
  {
    && muxes == muxes0 + PinMuxes(outs, select, n, |outs|) && next == n + 2 * |outs|
    && highs == HighPins(outs, n, |outs|) && lows == LowPins(outs, n, |outs|)
  }

  ghost predicate OutsAre(nodes: seq<MemNode>, banks: seq<seq<OutPin>>)
    reads nodes
  {
    |nodes| == |banks| && forall b | 0 <= b < |nodes| :: nodes[b].outputPins == banks[b]
  }

  /** The network's multiplexers have been added, and the nodes have its banks' output pins. */
  ghost predicate WiredUp(net: Net, outs: seq<OutPin>, n: nat, muxes0: seq<Mux2>, muxes: seq<Mux2>, next: nat, nodes: seq<MemNode>)
    reads nodes
  {
    var w := Wire(net, outs, n);
    muxes == muxes0 + w.muxes && next == w.next && OutsAre(nodes, w.banks)
  }

  /** Both halves' networks, one after the other. */
  ghost predicate HalvesWired(high: Net, low: Net, highs: seq<OutPin>, lows: seq<OutPin>, n: nat, muxes0: seq<Mux2>, muxes: seq<Mux2>,
                              next: nat, nodes: seq<MemNode>)
    reads nodes
  {
    var hw := Wire(high, highs, n);
    var lw := Wire(low, lows, hw.next);
    muxes == muxes0 + hw.muxes + lw.muxes && next == lw.next && OutsAre(nodes, lw.banks + hw.banks)
  }

  lemma JoinWired(high: Net, low: Net, select: seq<Signal>, outs: seq<OutPin>, n: nat, muxes0: seq<Mux2>, muxes1: seq<Mux2>, mid: nat,
                  highs: seq<OutPin>, lows: seq<OutPin>, muxes: seq<Mux2>, next: nat, nodes: seq<MemNode>)
    requires OutsHalved(outs, select, n, muxes0, muxes1, mid, highs, lows)
    requires HalvesWired(high, low, highs, lows, mid, muxes1, muxes, next, nodes)
    ensures WiredUp(Split(select, high, low), outs, n, muxes0, muxes, next, nodes)
  {
    hide OutsAre, PinMuxes, HighPins, LowPins;
    var ms, hw := PinMuxes(outs, select, n, |outs|), Wire(high, highs, mid);
    var lw := Wire(low, lows, hw.next);
    assert Wire(Split(select, high, low), outs, n) == Wiring(ms + hw.muxes + lw.muxes, lw.banks + hw.banks, lw.next);
    assert muxes0 + ms + hw.muxes + lw.muxes == muxes0 + (ms + hw.muxes + lw.muxes);
  }

  lemma JoinHalves(high: Net, low: Net, highs: seq<OutPin>, lows: seq<OutPin>, n: nat, muxes0: seq<Mux2>, muxes1: seq<Mux2>, mid: nat,
                   muxes: seq<Mux2>, next: nat, highNodes: seq<MemNode>, lowNodes: seq<MemNode>)
    requires WiredUp(high, highs, n, muxes0, muxes1, mid, highNodes) && WiredUp(low, lows, mid, muxes1, muxes, next, lowNodes)
    ensures HalvesWired(high, low, highs, lows, n, muxes0, muxes, next, lowNodes + highNodes)
  {
    hide Wire;
  }

  lemma BankWired(ports: seq<Port>, node: MemNode, n: nat, muxes: seq<Mux2>)
    ensures WiredUp(Bank(ports), node.outputPins, n, muxes, muxes, n, [node])
  {
  }

  class Splitter {
    var splitSize: int
    var spMemoryList: seq<MemNode>
    var dpMemoryList: seq<MemNode>
    var muxes: seq<Mux2>
    var nextNet: nat

    constructor (size: int, net: nat)
      ensures splitSize == size && spMemoryList == [] && dpMemoryList == [] && muxes == [] && nextNet == net
    {
      splitSize, spMemoryList, dpMemoryList, muxes, nextNet := size, [], [], [], net;
    }

    /** The loops over the output pins: each pin's net becomes a multiplexer's, and both halves get a pin on a new net. */
    method MuxOutputs(outs: seq<OutPin>, select: seq<Signal>) returns (highs: seq<OutPin>, lows: seq<OutPin>)
      modifies this`muxes, this`nextNet
      ensures OutsHalved(outs, select, old(nextNet), old(muxes), muxes, nextNet, highs, lows)
    {
      ghost var muxes0, n := muxes, nextNet;
      highs, lows := [], [];
      for j := 0 to |outs|
        invariant muxes == muxes0 + PinMuxes(outs, select, n, j) && nextNet == n + 2 * j
        invariant highs == HighPins(outs, n, j) && lows == LowPins(outs, n, j)
      {
        muxes := muxes + [Mux2(SelectOf(select, outs[j]), nextNet, nextNet + 1, outs[j].net)];
        highs := highs + [outs[j].(net := nextNet)];
        lows := lows + [outs[j].(net := nextNet + 1)];
        nextNet := nextNet + 2;
      }
    }

    /** One split of a single-port memory: node becomes the half of address bit 1, the new node that of bit 0. */
    method HalveSp(node: MemNode) returns (other: MemNode)
      requires node.Valid() && SpReady(node.inputPins)
      modifies node, this`muxes, this`nextNet
      ensures node.Valid() && other.Valid() && fresh(other)
      ensures SpHalf(old(node.inputPins), node.inputPins, true) && SpHalf(old(node.inputPins), other.inputPins, false)
      ensures Mapped(node.inputPins, Clk) == Mapped(other.inputPins, Clk) == old(Mapped(node.inputPins, Clk))
      ensures OutsHalved(old(node.outputPins), [old(Mapped(node.inputPins, Addr))[0].sig], old(nextNet), old(muxes), muxes, nextNet,
                         node.outputPins, other.outputPins)
    {
      hide Mapped, Has, Ported, Leading, OutsHalved;
      ghost var pins0 := node.inputPins;
      SpReadyPorts(pins0);
      var wePin := node.PinOf(We);
      var addrPin := node.DropFirst(Addr);
      ghost var mid := node.inputPins;
      MappedNone(mid, We);
      other := new MemNode(node.inputPins, node.inputPortSizes);
      node.GateEnable(We, addrPin.sig, true, wePin.sig);
      other.GateEnable(We, addrPin.sig, false, wePin.sig);
      Halving(pins0, mid, node.inputPins, true, Addr, Data, We);
      Halving(pins0, mid, other.inputPins, false, Addr, Data, We);
      HalfComplete(pins0, node.inputPins, true);
      HalfComplete(pins0, other.inputPins, false);
      ClockElsewhere(pins0, node.inputPins, false);
      ClockElsewhere(pins0, other.inputPins, false);
      var highs, lows := MuxOutputs(node.outputPins, [addrPin.sig]);
      node.outputPins, other.outputPins := highs, lows;
    }

    /**
     * split_sp_memory_depth. It fails exactly when a port is missing or the split size is not positive; otherwise the
     * node becomes the bank network that drops the excess address bits, and the banks are put on the memory list.
     */
    method SplitSp(node: MemNode) returns (r: Result<Net>, ghost added: seq<MemNode>)
      requires node.Valid() && |Mapped(node.inputPins, We)| <= 1
      modifies node, this`spMemoryList, this`muxes, this`nextNet
      ensures r.Ok? <==> SpComplete(old(node.inputPins)) && splitSize >= 1
      ensures r.Ok? ==> WiredUp(r.value, old(node.outputPins), old(nextNet), old(muxes), muxes, nextNet, added)
      ensures r.Ok? ==> IsSplit(SpPorts(old(node.inputPins)), Levels(old(node.inputPins), Addr, splitSize), r.value)
      ensures r.Ok? ==> AreBanks(added, r.value, false)
      ensures AllElsewhere(old(node.inputPins), added, false)
      ensures forall k | 0 <= k < |added| :: Mapped(added[k].inputPins, Clk) == old(Mapped(node.inputPins, Clk))
      ensures spMemoryList == added + old(spMemoryList)
      ensures forall n | n in added :: n == node || fresh(n)
      decreases Leading(Mapped(node.inputPins, Addr)), 1
    {
      hide Mapped, Has, Ported, Leading, WiredUp;
      added := [];
      var missing := node.MissingPort(SP_PORTS);
      if missing.Some? { return Err(MissingPort(missing.value)), []; }
      assert SP_PORTS[1] == Addr;
      var logicalSize := node.LogicalSize(Addr);
      if splitSize <= 0 { return Err(BadSplitSize), []; }
      if logicalSize <= splitSize {
        spMemoryList := [node] + spMemoryList;
        added := [node];
        ElsewhereSame(node.inputPins, false);
        BankWired(SpPorts(node.inputPins), node, nextNet, muxes);
        r := Ok(Bank(SpPorts(node.inputPins)));
      } else {
        var net;
        LeadingBound(Mapped(node.inputPins, Addr));
        MappedNone(node.inputPins, We);
        assert SP_PORTS[2] == We;
        ghost var pins0 := node.inputPins;
        net, added := DivideSp(node);
        ClocksElsewhere(pins0, added, false);
        r := Ok(net);
      }
    }

    /** The splitting case: one address bit goes, and both halves are split further. */
    method DivideSp(node: MemNode) returns (net: Net, ghost added: seq<MemNode>)
      requires node.Valid() && SpReady(node.inputPins)
      requires 1 <= splitSize < Leading(Mapped(node.inputPins, Addr))
      modifies node, this`spMemoryList, this`muxes, this`nextNet
      ensures WiredUp(net, old(node.outputPins), old(nextNet), old(muxes), muxes, nextNet, added)
      ensures IsSplit(SpPorts(old(node.inputPins)), Levels(old(node.inputPins), Addr, splitSize), net)
      ensures AreBanks(added, net, false) && AllElsewhere(old(node.inputPins), added, false)
      ensures spMemoryList == added + old(spMemoryList)
      ensures forall n | n in added :: n == node || fresh(n)
      decreases Leading(Mapped(node.inputPins, Addr)), 0
    {
      hide Mapped, Has, Ported, Leading, OutsHalved, HalvesWired, WiredUp, AreBanks, IsSplit, Elsewhere, AllElsewhere;
      ghost var pins0, outs, n, muxes0 := node.inputPins, node.outputPins, nextNet, muxes;
      SpReadyPorts(pins0);
      var select := node.PinOf(Addr);
      var other := HalveSp(node);
      ghost var pins1, pins2, highs, lows, mid, muxes1 := node.inputPins, other.inputPins, node.outputPins, other.outputPins, nextNet, muxes;
      var high, low;
      high, low, added := SplitHalves(node, other, [select.sig], pins0);
      net := Split([select.sig], high, low);
      JoinSp(pins0, pins1, pins2, splitSize, high, low);
      JoinWired(high, low, [select.sig], outs, n, muxes0, muxes1, mid, highs, lows, muxes, nextNet, added);
    }

    method SplitHalves(node: MemNode, other: MemNode, select: seq<Signal>, ghost pins0: seq<MemPin>) returns (high: Net, low: Net, ghost added: seq<MemNode>)
      requires node != other && node.Valid() && other.Valid() && splitSize >= 1
      requires SpComplete(node.inputPins) && |Mapped(node.inputPins, We)| == 1
      requires SpComplete(other.inputPins) && |Mapped(other.inputPins, We)| == 1
      requires Leading(Mapped(node.inputPins, Addr)) == Leading(Mapped(other.inputPins, Addr))
      requires Elsewhere(pins0, node.inputPins, false) && Elsewhere(pins0, other.inputPins, false)
      modifies node, other, this`spMemoryList, this`muxes, this`nextNet
      ensures HalvesWired(high, low, old(node.outputPins), old(other.outputPins), old(nextNet), old(muxes), muxes, nextNet, added)
      ensures IsSplit(SpPorts(old(node.inputPins)), Levels(old(node.inputPins), Addr, splitSize), high)
      ensures IsSplit(SpPorts(old(other.inputPins)), Levels(old(other.inputPins), Addr, splitSize), low)
      ensures AreBanks(added, Split(select, high, low), false) && AllElsewhere(pins0, added, false)
      ensures spMemoryList == added + old(spMemoryList)
      ensures forall n | n in added :: n == node || n == other || fresh(n)
      decreases Leading(Mapped(node.inputPins, Addr)), 2
    {
      hide Mapped, Has, Ported, Leading, WiredUp, HalvesWired, AreBanks, IsSplit, Elsewhere, AllElsewhere;
      ghost var outs1, outs2, n, muxes0 := node.outputPins, other.outputPins, nextNet, muxes;
      ghost var pins1, pins2 := node.inputPins, other.inputPins;
      var h, highs := SplitSp(node);
      ghost var mid, muxes1 := nextNet, muxes;
      assert other !in highs;
      var l, lows := SplitSp(other);
      high, low := h.value, l.value;
      JoinBanks(lows, low, highs, high, select, false);
      JoinElsewhere(pins0, pins1, pins2, lows, highs, false);
      JoinHalves(high, low, outs1, outs2, n, muxes0, muxes1, mid, muxes, nextNet, highs, lows);
      added := lows + highs;
    }

    /** One split of a dual-port memory; the second port and the write enables may be absent. */
    method HalveDp(node: MemNode) returns (other: MemNode)
      requires node.Valid() && DpReady(node.inputPins)
      modifies node, this`muxes, this`nextNet
      ensures node.Valid() && other.Valid() && fresh(other)
      ensures DpHalf(old(node.inputPins), node.inputPins, true) && DpHalf(old(node.inputPins), other.inputPins, false)
      ensures Mapped(node.inputPins, Clk) == Mapped(other.inputPins, Clk) == old(Mapped(node.inputPins, Clk))
      ensures OutsHalved(old(node.outputPins), FirstBits(old(node.inputPins)), old(nextNet), old(muxes), muxes, nextNet,
                         node.outputPins, other.outputPins)
    {
      hide Mapped, Has, Ported, Leading, OutsHalved, DpHalf, DpReady, FirstBits;
      var select;
      other, select := HalveDpInputs(node);
      var highs, lows := MuxOutputs(node.outputPins, select);
      node.outputPins, other.outputPins := highs, lows;
    }

    method HalveDpInputs(node: MemNode) returns (other: MemNode, select: seq<Signal>)
      requires node.Valid() && DpReady(node.inputPins)
      modifies node`inputPins, node`inputPortSizes
      ensures node.Valid() && other.Valid() && fresh(other) && select == FirstBits(old(node.inputPins))
      ensures DpHalf(old(node.inputPins), node.inputPins, true) && DpHalf(old(node.inputPins), other.inputPins, false)
      ensures Mapped(node.inputPins, Clk) == Mapped(other.inputPins, Clk) == old(Mapped(node.inputPins, Clk))
    {
      hide Mapped, Has, Ported, Leading;
      ghost var pins0 := node.inputPins;
      DpReadyPorts(pins0);
      var we1 := node.PinIfAny(We1);
      var we2 := node.PinIfAny(We2);
      var bit1 := node.DropFirst(Addr1);
      ghost var pins1 := node.inputPins;
      DpFirstDropped(pins0, pins1);
      var bit2 := node.DropIfAny(Addr2);
      ghost var mid := node.inputPins;
      DpMid(pins0, pins1, mid);
      other := new MemNode(node.inputPins, node.inputPortSizes);
      node.GateBoth(Some(bit1), bit2, true, we1, we2);
      other.GateBoth(Some(bit1), bit2, false, we1, we2);
      DpHalving(pins0, mid, node.inputPins, true);
      DpHalving(pins0, mid, other.inputPins, false);
      ClockElsewhere(pins0, node.inputPins, true);
      ClockElsewhere(pins0, other.inputPins, true);
      select := [bit1.sig] + if bit2.Some? then [bit2.value.sig] else [];
    }

    /** split_dp_memory_depth; the depth is the first port's. The source does not check that the split size is positive. */
    method SplitDp(node: MemNode) returns (r: Result<Net>, ghost added: seq<MemNode>)
      requires node.Valid() && DpShaped(node.inputPins) && splitSize >= 1
      modifies node, this`dpMemoryList, this`muxes, this`nextNet
      ensures r.Ok? <==> Has(old(node.inputPins), Addr1)
      ensures r.Ok? ==> WiredUp(r.value, old(node.outputPins), old(nextNet), old(muxes), muxes, nextNet, added)
      ensures r.Ok? ==> IsSplit(DpPorts(old(node.inputPins)), Levels(old(node.inputPins), Addr1, splitSize), r.value)
      ensures r.Ok? ==> AreBanks(added, r.value, true)
      ensures AllElsewhere(old(node.inputPins), added, true)
      ensures forall k | 0 <= k < |added| :: Mapped(added[k].inputPins, Clk) == old(Mapped(node.inputPins, Clk))
      ensures dpMemoryList == added + old(dpMemoryList)
      ensures forall n | n in added :: n == node || fresh(n)
      decreases Leading(Mapped(node.inputPins, Addr1)), 1
    {
      hide Mapped, Has, Ported, Leading, WiredUp;
      added := [];
      var missing := node.MissingPort([Addr1]);
      if missing.Some? { return Err(MissingPort(missing.value)), []; }
      assert Has(node.inputPins, [Addr1][0]);
      var logicalSize := node.LogicalSize(Addr1);
      if logicalSize <= splitSize {
        dpMemoryList := [node] + dpMemoryList;
        added := [node];
        ElsewhereSame(node.inputPins, true);
        BankWired(DpPorts(node.inputPins), node, nextNet, muxes);
        r := Ok(Bank(DpPorts(node.inputPins)));
      } else {
        var net;
        LeadingBound(Mapped(node.inputPins, Addr1));
        ghost var pins0 := node.inputPins;
        net, added := DivideDp(node);
        ClocksElsewhere(pins0, added, true);
        r := Ok(net);
      }
    }

    method DivideDp(node: MemNode) returns (net: Net, ghost added: seq<MemNode>)
      requires node.Valid() && DpReady(node.inputPins)
      requires 1 <= splitSize < Leading(Mapped(node.inputPins, Addr1))
      modifies node, this`dpMemoryList, this`muxes, this`nextNet
      ensures WiredUp(net, old(node.outputPins), old(nextNet), old(muxes), muxes, nextNet, added)
      ensures IsSplit(DpPorts(old(node.inputPins)), Levels(old(node.inputPins), Addr1, splitSize), net)
      ensures AreBanks(added, net, true) && AllElsewhere(old(node.inputPins), added, true)
      ensures dpMemoryList == added + old(dpMemoryList)
      ensures forall n | n in added :: n == node || fresh(n)
      decreases Leading(Mapped(node.inputPins, Addr1)), 0
    {
      hide Mapped, Has, Ported, Leading, OutsHalved, HalvesWired, WiredUp, AreBanks, IsSplit, Elsewhere, AllElsewhere;
      ghost var pins0, outs, n, muxes0 := node.inputPins, node.outputPins, nextNet, muxes;
      DpReadyPorts(pins0);
      var bit1 := node.PinOf(Addr1);
      var bit2 := node.PinIfAny(Addr2);
      var select := [bit1.sig] + if bit2.Some? then [bit2.value.sig] else [];
      var other := HalveDp(node);
      ghost var pins1, pins2, highs, lows, mid, muxes1 := node.inputPins, other.inputPins, node.outputPins, other.outputPins, nextNet, muxes;
      var high, low;
      high, low, added := SplitHalvesDp(node, other, select, pins0);
      net := Split(select, high, low);
      JoinDp(pins0, pins1, pins2, splitSize, high, low);
      JoinWired(high, low, select, outs, n, muxes0, muxes1, mid, highs, lows, muxes, nextNet, added);
    }

    method SplitHalvesDp(node: MemNode, other: MemNode, select: seq<Signal>, ghost pins0: seq<MemPin>) returns (high: Net, low: Net, ghost added: seq<MemNode>)
      requires node != other && node.Valid() && other.Valid() && splitSize >= 1
      requires DpShaped(node.inputPins) && DpShaped(other.inputPins)
      requires Has(node.inputPins, Addr1) && Has(other.inputPins, Addr1)
      requires Leading(Mapped(node.inputPins, Addr1)) == Leading(Mapped(other.inputPins, Addr1))
      requires Elsewhere(pins0, node.inputPins, true) && Elsewhere(pins0, other.inputPins, true)
      modifies node, other, this`dpMemoryList, this`muxes, this`nextNet
      ensures HalvesWired(high, low, old(node.outputPins), old(other.outputPins), old(nextNet), old(muxes), muxes, nextNet, added)
      ensures IsSplit(DpPorts(old(node.inputPins)), Levels(old(node.inputPins), Addr1, splitSize), high)
      ensures IsSplit(DpPorts(old(other.inputPins)), Levels(old(other.inputPins), Addr1, splitSize), low)
      ensures AreBanks(added, Split(select, high, low), true) && AllElsewhere(pins0, added, true)
      ensures dpMemoryList == added + old(dpMemoryList)
      ensures forall n | n in added :: n == node || n == other || fresh(n)
      decreases Leading(Mapped(node.inputPins, Addr1)), 2
    {
      hide Mapped, Has, Ported, Leading, WiredUp, HalvesWired, AreBanks, IsSplit, Elsewhere, AllElsewhere;
      ghost var outs1, outs2, n, muxes0 := node.outputPins, other.outputPins, nextNet, muxes;
      ghost var pins1, pins2 := node.inputPins, other.inputPins;
      var h, highs := SplitDp(node);
      ghost var mid, muxes1 := nextNet, muxes;
      assert other !in highs;
      var l, lows := SplitDp(other);
      high, low := h.value, l.value;
      JoinBanks(lows, low, highs, high, select, true);
      JoinElsewhere(pins0, pins1, pins2, lows, highs, true);
      JoinHalves(high, low, outs1, outs2, n, muxes0, muxes1, mid, muxes, nextNet, highs, lows);
      added := lows + highs;
    }
  }

  /** What split_dp_memory_depth takes for granted: one-pin enables, and a second address port as wide as the first. */
  ghost predicate DpShaped(pins: seq<MemPin>) {
    && |Mapped(pins, We1)| <= 1 && |Mapped(pins, We2)| <= 1
    && (Has(pins, Addr2) ==> |Mapped(pins, Addr2)| == |Mapped(pins, Addr1)|)
    && (Has(pins, We2) ==> Has(pins, Addr2))
  }

  /** The first address bit of each port that there is. */
  function FirstBits(pins: seq<MemPin>): seq<Signal> {
    (if Mapped(pins, Addr1) == [] then [] else [Mapped(pins, Addr1)[0].sig])
    + (if Mapped(pins, Addr2) == [] then [] else [Mapped(pins, Addr2)[0].sig])
  }

  ghost predicate DpReady(pins: seq<MemPin>) {
    DpShaped(pins) && |Mapped(pins, Addr1)| >= 2 && Leading(Mapped(pins, Addr1)) >= 1
  }

  ghost predicate DpHalf(before: seq<MemPin>, after: seq<MemPin>, high: bool)
    requires DpReady(before)
  {
    && Elsewhere(before, after, true)
    && PortHalved(before, after, high, Addr1, Data1, We1)
    && (Has(before, Addr2) <==> Has(after, Addr2))
    && (Mapped(before, Addr2) != [] ==> PortHalved(before, after, high, Addr2, Data2, We2))
    && DpShaped(after) && Has(after, Addr1)
    && Leading(Mapped(after, Addr1)) == Leading(Mapped(before, Addr1)) - 1
  }

  lemma DpReadyPorts(pins: seq<MemPin>)
    requires DpReady(pins)
    ensures Has(pins, Addr1)
    ensures Has(pins, Addr2) <==> Mapped(pins, Addr2) != []
    ensures Has(pins, We2) <==> Mapped(pins, We2) != []
  {
    hide Mapped, Has, Ported;
    MappedNone(pins, Addr1);
    MappedNone(pins, Addr2);
    MappedNone(pins, We2);
  }

  function FirstMapped(pins: seq<MemPin>, mapping: Mapping): Option<MemPin> {
    if Mapped(pins, mapping) == [] then None else Some(Mapped(pins, mapping)[0])
  }

  function GatePins(mapping: Mapping, bit: Option<MemPin>, high: bool, we: Option<MemPin>): seq<MemPin> {
    if we.Some? && bit.Some? then [MemPin(mapping, "", Gate(bit.value.sig, high, we.value.sig))] else []
  }

  /** Both address ports have lost their first pin. */
  ghost predicate DpDropped(before: seq<MemPin>, mid: seq<MemPin>) {
    forall m :: Mapped(mid, m) == if m == Addr1 || m == Addr2 then Tail(Mapped(before, m)) else Mapped(before, m)
  }

  ghost predicate DpGated(mid: seq<MemPin>, after: seq<MemPin>, we1: seq<MemPin>, we2: seq<MemPin>) {
    forall m :: Mapped(after, m) == if m == We1 then we1 else if m == We2 then we2 else Mapped(mid, m)
  }

  lemma DpFirstDropped(before: seq<MemPin>, mid: seq<MemPin>)
    requires DpReady(before) && Replaced(before, mid, Addr1, Mapped(before, Addr1)[1..])
    ensures |Mapped(mid, Addr2)| != 1
  {
    hide Mapped, Has, Ported;
    DpReadyPorts(before);
  }

  lemma DpMid(before: seq<MemPin>, first: seq<MemPin>, mid: seq<MemPin>)
    requires Mapped(before, Addr1) != []
    requires Replaced(before, first, Addr1, Mapped(before, Addr1)[1..])
    requires Replaced(first, mid, Addr2, Tail(Mapped(first, Addr2)))
    ensures DpDropped(before, mid)
    ensures FirstMapped(first, Addr2) == FirstMapped(before, Addr2)
    ensures Mapped(mid, We1) == Mapped(before, We1) && Mapped(mid, We2) == Mapped(before, We2)
  {
    hide Mapped, Has, Ported;
  }

  lemma DpHalving(before: seq<MemPin>, mid: seq<MemPin>, after: seq<MemPin>, high: bool)
    requires DpReady(before) && DpDropped(before, mid)
    requires DpGated(mid, after, GatePins(We1, FirstMapped(before, Addr1), high, FirstMapped(before, We1)),
                     GatePins(We2, FirstMapped(before, Addr2), high, FirstMapped(before, We2)))
    ensures DpHalf(before, after, high)
  {
    hide Mapped, Has;
    DpReadyPorts(before);
    assert Mapped(mid, Addr1) == Mapped(before, Addr1)[1..];
    assert Mapped(after, Addr1) == Mapped(before, Addr1)[1..] && Mapped(after, Addr2) == Tail(Mapped(before, Addr2));
    assert Mapped(after, Data1) == Mapped(before, Data1) && Mapped(after, Data2) == Mapped(before, Data2);
    MappedNone(after, Addr1);
    MappedNone(after, Addr2);
    MappedNone(after, We2);
  }

  lemma JoinDp(pins0: seq<MemPin>, pins1: seq<MemPin>, pins2: seq<MemPin>, limit: int, high: Net, low: Net)
    requires 1 <= limit < Leading(Mapped(pins0, Addr1))
    requires DpReady(pins0) && DpHalf(pins0, pins1, true) && DpHalf(pins0, pins2, false)
    requires IsSplit(DpPorts(pins1), Levels(pins1, Addr1, limit), high)
    requires IsSplit(DpPorts(pins2), Levels(pins2, Addr1, limit), low)
    ensures IsSplit(DpPorts(pins0), Levels(pins0, Addr1, limit),
                    Split([Mapped(pins0, Addr1)[0].sig] + (if Mapped(pins0, Addr2) == [] then [] else [Mapped(pins0, Addr2)[0].sig]), high, low))
  {
    hide Mapped, Has, Leading, PortView;
    DpHalves(pins0, pins1, true);
    DpHalves(pins0, pins2, false);
    LeadingBound(Mapped(pins0, Addr1));
    DpSelects(pins0);
  }

  lemma DpSelects(pins: seq<MemPin>)
    requires DpReady(pins)
    ensures Deep(DpPorts(pins), |Mapped(pins, Addr1)|)
    ensures Selects(DpPorts(pins)) ==
            [Mapped(pins, Addr1)[0].sig] + (if Mapped(pins, Addr2) == [] then [] else [Mapped(pins, Addr2)[0].sig])
  {
    hide Mapped, Has, Leading;
    DpReadyPorts(pins);
  }

  lemma DpHalves(before: seq<MemPin>, after: seq<MemPin>, high: bool)
    requires DpReady(before) && DpHalf(before, after, high)
    ensures Deep(DpPorts(before), 1) && Halves(DpPorts(before), high) == DpPorts(after)
  {
    hide Mapped, Has, Leading, PortView;
    DpReadyPorts(before);
    HalfView(before, after, high, Addr1, Data1, We1);
    if Has(before, Addr2) {
      HalfView(before, after, high, Addr2, Data2, We2);
    }
  }

  function Tail<T>(s: seq<T>): seq<T> {
    if s == [] then [] else s[1..]
  }

  ghost predicate IsSplit(ports: seq<Port>, levels: nat, net: Net) {
    Deep(ports, levels) && net == SplitPorts(ports, levels)
  }

  /** The distinct nodes are the network's banks, in order. */
  ghost predicate AreBanks(nodes: seq<MemNode>, net: Net, dual: bool)
    reads nodes
  {
    Distinct(nodes) && Listed(nodes, Banks(net), dual)
  }

  lemma JoinDistinct(lows: seq<MemNode>, highs: seq<MemNode>)
    requires Distinct(lows) && Distinct(highs) && forall n | n in lows :: n !in highs
    ensures Distinct(lows + highs)
  {
    var nodes := lows + highs;
    forall i, j | 0 <= i < j < |nodes| ensures nodes[i] != nodes[j] {
      if i < |lows| && j >= |lows| {
        assert lows[i] in lows && highs[j - |lows|] in highs;
      }
    }
  }

  lemma JoinListed(lows: seq<MemNode>, low: seq<seq<Port>>, highs: seq<MemNode>, high: seq<seq<Port>>, dual: bool)
    requires Listed(lows, low, dual) && Listed(highs, high, dual)
    ensures Listed(lows + highs, low + high, dual)
  {
    hide Mapped, Has, Ported, IsBank;
  }

  lemma JoinBanks(lows: seq<MemNode>, low: Net, highs: seq<MemNode>, high: Net, select: seq<Signal>, dual: bool)
    requires AreBanks(lows, low, dual) && AreBanks(highs, high, dual)
    requires forall n | n in lows :: n !in highs
    ensures AreBanks(lows + highs, Split(select, high, low), dual)
  {
    JoinDistinct(lows, highs);
    JoinListed(lows, Banks(low), highs, Banks(high), dual);
  }

  lemma JoinSp(pins0: seq<MemPin>, pins1: seq<MemPin>, pins2: seq<MemPin>, limit: int, high: Net, low: Net)
    requires 1 <= limit < Leading(Mapped(pins0, Addr)) && Mapped(pins0, Addr) != []
    requires SpReady(pins0) && SpHalf(pins0, pins1, true) && SpHalf(pins0, pins2, false)
    requires IsSplit(SpPorts(pins1), Levels(pins1, Addr, limit), high)
    requires IsSplit(SpPorts(pins2), Levels(pins2, Addr, limit), low)
    ensures IsSplit(SpPorts(pins0), Levels(pins0, Addr, limit), Split([Mapped(pins0, Addr)[0].sig], high, low))
  {
    hide Mapped, Has, Ported;
    HalfView(pins0, pins1, true, Addr, Data, We);
    HalfView(pins0, pins2, false, Addr, Data, We);
    var ports, levels := SpPorts(pins0), Levels(pins0, Addr, limit);
    LeadingBound(Mapped(pins0, Addr));
    assert Halves(ports, true) == SpPorts(pins1) && Halves(ports, false) == SpPorts(pins2);
    assert Selects(ports) == [Mapped(pins0, Addr)[0].sig];
    assert Levels(pins1, Addr, limit) == levels - 1 == Levels(pins2, Addr, limit);
  }

  predicate SpComplete(pins: seq<MemPin>) {
    forall i | 0 <= i < |SP_PORTS| :: Has(pins, SP_PORTS[i])
  }

  const SP_PORTS: seq<Mapping> := [Data, Addr, We, Clk]

  /** A complete single-port memory with at least one address bit to spare. */
  ghost predicate SpReady(pins: seq<MemPin>) {
    SpComplete(pins) && |Mapped(pins, We)| == 1 && |Mapped(pins, Addr)| >= 2 && Leading(Mapped(pins, Addr)) >= 1
  }

  ghost predicate SpHalf(before: seq<MemPin>, after: seq<MemPin>, high: bool)
    requires SpReady(before)
  {
    && PortHalved(before, after, high, Addr, Data, We) && Elsewhere(before, after, false)
    && SpComplete(after) && |Mapped(after, We)| == 1
    && Leading(Mapped(after, Addr)) == Leading(Mapped(before, Addr)) - 1
  }

  lemma SpReadyPorts(pins: seq<MemPin>)
    requires SpReady(pins)
    ensures Has(pins, Addr) && Has(pins, We)
  {
    assert Has(pins, SP_PORTS[1]) && Has(pins, SP_PORTS[2]);
  }

  lemma HalfComplete(before: seq<MemPin>, after: seq<MemPin>, high: bool)
    requires SpReady(before)
    requires PortHalved(before, after, high, Addr, Data, We) && OthersKept(before, after, Addr, We)
    ensures SpHalf(before, after, high)
  {
    hide Mapped, Has, Ported;
    assert Has(before, SP_PORTS[0]) && Has(before, SP_PORTS[3]);
    MappedNone(before, Data);
    MappedNone(before, Clk);
    MappedNone(after, Data);
    MappedNone(after, Clk);
    MappedNone(after, Addr);
    MappedNone(before, We);
    MappedNone(after, We);
  }

  /**
   * What splitting a single-port memory buys: 2^(L - S) banks for L real address bits and split size S < L, each bank
   * left with at least S address bits, and on every trace from any contents the outputs of the unsplit RAM.
   */
  lemma SplitSpCorrect(pins: seq<MemPin>, depth: nat, limit: int, net: Net, mem: Mem, width: nat, trace: seq<Values>)
    requires SpComplete(pins) && limit >= 1 && IsSplit(SpPorts(pins), Levels(pins, Addr, limit), net)
    requires Widths(mem, width) && |Mapped(pins, Data)| == width && IsDepth(Mapped(pins, Addr), depth)
    ensures |Banks(net)| == Pow2(if depth > limit then depth - limit else 0)
    ensures forall bank: seq<Port> | bank in Banks(net) :: |bank| == 1 && (depth > limit ==> limit <= |bank[0].addr| == |Mapped(pins, Addr)| - (depth - limit))
    ensures Fits(net, Load(net, mem)) && RunNet(net, Load(net, mem), trace) == RunRam(SpPorts(pins), mem, trace)
  {
    hide *;
    LeadingExact(Mapped(pins, Addr), depth);
    SpBanks(pins, limit, net);
    SpRuns(pins, limit, net, mem, width, trace);
  }

  lemma SpBanks(pins: seq<MemPin>, limit: int, net: Net)
    requires limit >= 1 && IsSplit(SpPorts(pins), Levels(pins, Addr, limit), net)
    ensures var depth := Leading(Mapped(pins, Addr));
            && |Banks(net)| == Pow2(if depth > limit then depth - limit else 0)
            && forall bank: seq<Port> | bank in Banks(net) :: |bank| == 1 && (depth > limit ==> limit <= |bank[0].addr| == |Mapped(pins, Addr)| - (depth - limit))
  {
    hide Mapped, Leading, Has, Banks, SplitPorts;
    LeadingBound(Mapped(pins, Addr));
    BankShape(SpPorts(pins), Levels(pins, Addr, limit));
  }

  lemma SpRuns(pins: seq<MemPin>, limit: int, net: Net, mem: Mem, width: nat, trace: seq<Values>)
    requires limit >= 1 && IsSplit(SpPorts(pins), Levels(pins, Addr, limit), net)
    requires Widths(mem, width) && |Mapped(pins, Data)| == width
    ensures Fits(net, Load(net, mem)) && RunNet(net, Load(net, mem), trace) == RunRam(SpPorts(pins), mem, trace)
  {
    hide Mapped, Leading, Has, SplitPorts, RunNet, RunRam, Load, Levels;
    SplitEquivalent(SpPorts(pins), Levels(pins, Addr, limit), mem, width, trace);
  }

  /** The same for two ports, including cycles in which both ports meet on one address: port 2's write wins in both. */
  lemma SplitDpCorrect(pins: seq<MemPin>, depth: nat, limit: int, net: Net, mem: Mem, width: nat, trace: seq<Values>)
    requires IsDepth(Mapped(pins, Addr1), depth)
    requires limit >= 1 && DpShaped(pins) && IsSplit(DpPorts(pins), Levels(pins, Addr1, limit), net)
    requires Widths(mem, width) && |Mapped(pins, Data1)| == width && (Has(pins, Addr2) ==> |Mapped(pins, Data2)| == width)
    ensures |Banks(net)| == Pow2(if depth > limit then depth - limit else 0)
    ensures Fits(net, Load(net, mem)) && RunNet(net, Load(net, mem), trace) == RunRam(DpPorts(pins), mem, trace)
  {
    hide Mapped, Has, Leading, IsDepth;
    LeadingExact(Mapped(pins, Addr1), depth);
    var levels := Levels(pins, Addr1, limit);
    BankShape(DpPorts(pins), levels);
    SplitEquivalent(DpPorts(pins), levels, mem, width, trace);
  }

  /** The network's state after a run from the given contents. */
  ghost function LoadedAfter(net: Net, mem: Mem, trace: seq<Values>): State {
    LoadStands(net, mem);
    StandsFits(net, Load(net, mem), mem);
    After(net, Load(net, mem), trace)
  }

  /**
   * The nets that the memory's output pins were on still carry its words: over any run from any contents, after any cycle,
   * whenever the multiplexers that splitting has built and the banks drive their nets.
   */
  lemma SplitOutputsCorrect(ports: seq<Port>, levels: nat, net: Net, mem: Mem, width: nat, trace: seq<Values>, t: nat,
                            outs: seq<OutPin>, n: nat, val: NetValues)
    requires IsSplit(ports, levels, net) && Widths(mem, width) && (forall i | 0 <= i < |ports| :: |ports[i].data| == width) && t < |trace|
    requires MuxesOk(Wire(net, outs, n).muxes, val, trace[t])
    requires BanksDrive(net, LoadedAfter(net, mem, trace[..t + 1]), Wire(net, outs, n).banks, val)
    ensures t < |RunRam(ports, mem, trace)| && Carry(outs, val, RunRam(ports, mem, trace)[t])
  {
    hide SplitPorts, Stands, Fits, Load, After, Wire, BanksDrive, MuxesOk, Carry, RunRam, Widths;
    LoadStands(net, mem);
    StandsFits(net, Load(net, mem), mem);
    OutputsCorrect(ports, levels, Load(net, mem), mem, width, trace, t, outs, n, val);
  }
}
