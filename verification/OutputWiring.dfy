/**
 * The output side of depth splitting: every output pin of a memory becomes the output of a multiplexer that picks the
 * half whose bank was addressed, and the halves put their words out on nets of their own.
 */
module OutputWiring {
  import opened Signals
  import opened BankedRam

  /** An output pin: its bit of a port's word, and the net it drives. */
  datatype OutPin = OutPin(port: nat, bit: nat, net: nat)

  /** A MUX_2; its select pins are a flip-flop that takes in select, and the flip-flop's inverse. */
  datatype Mux2 = Mux2(select: Signal, high: nat, low: nat, out: nat)

  // ----- One level -----

  function SelectOf(select: seq<Signal>, pin: OutPin): Signal {
    if pin.port < |select| then select[pin.port] else Const(false)
  }

  /** The first k pins of the half that is read when the bit is 1, on nets from n on. */
  function HighPins(outs: seq<OutPin>, n: nat, k: nat): (pins: seq<OutPin>)
    requires k <= |outs|
    ensures |pins| == k
  {
    if k == 0 then [] else HighPins(outs, n, k - 1) + [outs[k - 1].(net := n + 2 * (k - 1))]
  }

  function LowPins(outs: seq<OutPin>, n: nat, k: nat): (pins: seq<OutPin>)
    requires k <= |outs|
    ensures |pins| == k
  {
    if k == 0 then [] else LowPins(outs, n, k - 1) + [outs[k - 1].(net := n + 2 * (k - 1) + 1)]
  }

  /** The multiplexers that take the first k pins' nets over. */
  function PinMuxes(outs: seq<OutPin>, select: seq<Signal>, n: nat, k: nat): (ms: seq<Mux2>)
    requires k <= |outs|
    ensures |ms| == k
  {
    if k == 0 then []
    else PinMuxes(outs, select, n, k - 1)
         + [Mux2(SelectOf(select, outs[k - 1]), n + 2 * (k - 1), n + 2 * (k - 1) + 1, outs[k - 1].net)]
  }

  lemma {:induction false} PinAt(outs: seq<OutPin>, select: seq<Signal>, n: nat, k: nat, j: nat)
    requires j < k <= |outs|
    ensures HighPins(outs, n, k)[j] == outs[j].(net := n + 2 * j) && LowPins(outs, n, k)[j] == outs[j].(net := n + 2 * j + 1)
    ensures PinMuxes(outs, select, n, k)[j] == Mux2(SelectOf(select, outs[j]), n + 2 * j, n + 2 * j + 1, outs[j].net)
  {
    if j < k - 1 {
      PinAt(outs, select, n, k - 1, j);
    }
  }

  // ----- The whole network -----

  /** The multiplexers of a network, its banks' output pins in the order of the banks, and the next free net. */
  datatype Wiring = Wiring(muxes: seq<Mux2>, banks: seq<seq<OutPin>>, next: nat)

  function Wire(net: Net, outs: seq<OutPin>, n: nat): (w: Wiring)
    ensures |w.banks| == |Banks(net)|
  {
    match net
    case Bank(_) => Wiring([], [outs], n)
    case Split(select, h, l) =>
      var hw := Wire(h, HighPins(outs, n, |outs|), n + 2 * |outs|);
      var lw := Wire(l, LowPins(outs, n, |outs|), hw.next);
      Wiring(PinMuxes(outs, select, n, |outs|) + hw.muxes + lw.muxes, lw.banks + hw.banks, lw.next)
  }

  // ----- What the nets carry -----

  type NetValues = nat -> bool

  /** After a clock edge with values v the flip-flop holds what select was. */
  predicate MuxOk(m: Mux2, val: NetValues, v: Values) {
    val(m.out) == ((Eval(m.select, v) && val(m.high)) || (!Eval(m.select, v) && val(m.low)))
  }

  function BitOf(words: seq<Word>, pin: OutPin): bool {
    pin.port < |words| && pin.bit < |words[pin.port]| && words[pin.port][pin.bit]
  }

  /** The pins' nets carry the words. */
  predicate Carry(pins: seq<OutPin>, val: NetValues, words: seq<Word>) {
    forall j | 0 <= j < |pins| :: val(pins[j].net) == BitOf(words, pins[j])
  }

  /** Every bank's pins carry its output registers. */
  ghost predicate BanksDrive(net: Net, st: State, banks: seq<seq<OutPin>>, val: NetValues) {
    match net
    case Bank(_) => st.Ram? && |banks| == 1 && Carry(banks[0], val, st.out)
    case Split(_, h, l) =>
      && st.Mux? && |banks| == |Banks(l)| + |Banks(h)|
      && BanksDrive(h, st.high, banks[|Banks(l)|..], val) && BanksDrive(l, st.low, banks[..|Banks(l)|], val)
  }

  ghost predicate MuxesOk(ms: seq<Mux2>, val: NetValues, v: Values) {
    forall j | 0 <= j < |ms| :: MuxOk(ms[j], val, v)
  }

  lemma MuxesSplit(a: seq<Mux2>, b: seq<Mux2>, c: seq<Mux2>, val: NetValues, v: Values)
    requires MuxesOk(a + b + c, val, v)
    ensures MuxesOk(a, val, v) && MuxesOk(b, val, v) && MuxesOk(c, val, v)
  {
    hide MuxOk;
    var ms := a + b + c;
    forall j | 0 <= j < |a| ensures MuxOk(a[j], val, v) {
      assert ms[j] == a[j];
    }
    forall j | 0 <= j < |b| ensures MuxOk(b[j], val, v) {
      assert ms[|a| + j] == b[j];
    }
    forall j | 0 <= j < |c| ensures MuxOk(c[j], val, v) {
      assert ms[|a| + |b| + j] == c[j];
    }
  }

  /** Picking the half by bit 0 of the address picks the addressed word. */
  lemma PickedWord(p: Port, mem: Mem, width: nat, v: Values)
    requires p.addr != [] && Widths(mem, width)
    ensures mem(Address(p, v)) == if Eval(p.addr[0], v) then HalfMem(mem, true)(Address(HalfPort(p, true), v))
                                  else HalfMem(mem, false)(Address(HalfPort(p, false), v))
  {
    hide Address, HalfPort, HalfMem, Eval, Select, Widths;
    MuxRead(p, mem, width, v);
    var a := Address(HalfPort(p, true), v);
    AddressSplit(p, v);
    HalfAt(mem, true, a, width);
    HalfAt(mem, false, a, width);
    SelectIs(Eval(p.addr[0], v), HalfMem(mem, true)(a), HalfMem(mem, false)(a));
  }

  /** The multiplexers of one level make the pins carry the memory's word from what the halves' pins carry. */
  lemma LevelCarries(ports: seq<Port>, mem: Mem, width: nat, v: Values, outs: seq<OutPin>, n: nat, val: NetValues)
    requires Deep(ports, 1) && Widths(mem, width)
    requires MuxesOk(PinMuxes(outs, Selects(ports), n, |outs|), val, v)
    requires Carry(HighPins(outs, n, |outs|), val, ReadAll(HalfMem(mem, true), Halves(ports, true), v))
    requires Carry(LowPins(outs, n, |outs|), val, ReadAll(HalfMem(mem, false), Halves(ports, false), v))
    ensures Carry(outs, val, ReadAll(mem, ports, v))
  {
    hide PinMuxes, HighPins, LowPins, Address, HalfPort, HalfMem, Eval, Widths;
    forall j | 0 <= j < |outs| ensures val(outs[j].net) == BitOf(ReadAll(mem, ports, v), outs[j]) {
      PinAt(outs, Selects(ports), n, |outs|, j);
      var p, q := outs[j].port, outs[j].bit;
      assert MuxOk(PinMuxes(outs, Selects(ports), n, |outs|)[j], val, v);
      var high, low := HighPins(outs, n, |outs|)[j], LowPins(outs, n, |outs|)[j];
      assert val(high.net) == BitOf(ReadAll(HalfMem(mem, true), Halves(ports, true), v), high);
      assert val(low.net) == BitOf(ReadAll(HalfMem(mem, false), Halves(ports, false), v), low);
      if p < |ports| {
        PickedWord(ports[p], mem, width, v);
      }
    }
  }

  /** After a clock edge the memory's own output nets carry what the unsplit RAM reads. */
  lemma {:induction false} WiringCarries(ports: seq<Port>, levels: nat, st: State, mem: Mem, width: nat, v: Values,
                                         outs: seq<OutPin>, n: nat, val: NetValues)
    requires Deep(ports, levels) && Stands(SplitPorts(ports, levels), st, mem) && Widths(mem, width)
    requires Fits(SplitPorts(ports, levels), st)
    requires MuxesOk(Wire(SplitPorts(ports, levels), outs, n).muxes, val, v)
    requires BanksDrive(SplitPorts(ports, levels), StepNet(SplitPorts(ports, levels), st, v), Wire(SplitPorts(ports, levels), outs, n).banks, val)
    ensures Carry(outs, val, ReadAll(mem, ports, v))
    decreases levels
  {
    hide MuxesOk, Carry, ReadAll, PinMuxes, HighPins, LowPins, WriteAll, Widths, HalfMem, Halves, Selects;
    if levels == 0 {
      SameReads(st.mem, mem, ports, v);
    } else {
      var net := SplitPorts(ports, levels);
      var hp, lp := Halves(ports, true), Halves(ports, false);
      HalvesDeep(ports, levels);
      var h, l := SplitPorts(hp, levels - 1), SplitPorts(lp, levels - 1);
      var hw := Wire(h, HighPins(outs, n, |outs|), n + 2 * |outs|);
      var lw := Wire(l, LowPins(outs, n, |outs|), hw.next);
      MuxesSplit(PinMuxes(outs, Selects(ports), n, |outs|), hw.muxes, lw.muxes, val, v);
      assert (lw.banks + hw.banks)[|Banks(l)|..] == hw.banks && (lw.banks + hw.banks)[..|Banks(l)|] == lw.banks;
      HalfWidths(mem, width);
      WiringCarries(hp, levels - 1, st.high, HalfMem(mem, true), width, v, HighPins(outs, n, |outs|), n + 2 * |outs|, val);
      WiringCarries(lp, levels - 1, st.low, HalfMem(mem, false), width, v, LowPins(outs, n, |outs|), hw.next, val);
      LevelCarries(ports, mem, width, v, outs, n, val);
    }
  }

  lemma SameReads(m1: Mem, m2: Mem, ports: seq<Port>, v: Values)
    requires forall a :: m1(a) == m2(a)
    ensures ReadAll(m1, ports, v) == ReadAll(m2, ports, v)
  {
    assert forall i | 0 <= i < |ports| :: m1(Address(ports[i], v)) == m2(Address(ports[i], v));
  }

  lemma HalvesDeep(ports: seq<Port>, levels: nat)
    requires Deep(ports, levels) && levels > 0
    ensures Deep(ports, 1) && Deep(Halves(ports, true), levels - 1) && Deep(Halves(ports, false), levels - 1)
  {
  }

  lemma HalfWidths(mem: Mem, width: nat)
    requires Widths(mem, width)
    ensures Widths(HalfMem(mem, true), width) && Widths(HalfMem(mem, false), width)
  {
  }

  // ----- Runs -----

  /** The network's state after a run. */
  function After(net: Net, st: State, trace: seq<Values>): State
    requires Fits(net, st)
    decreases trace
  {
    if trace == [] then st
    else
      StepFits(net, st, trace[0]);
      After(net, StepNet(net, st, trace[0]), trace[1..])
  }

  /**
   * Over any run, after any cycle: whenever every multiplexer and every bank drives its nets, the nets of the memory that
   * was split carry what the memory put out.
   */
  lemma {:induction false} OutputsCorrect(ports: seq<Port>, levels: nat, st: State, mem: Mem, width: nat, trace: seq<Values>, t: nat,
                                          outs: seq<OutPin>, n: nat, val: NetValues)
    requires Deep(ports, levels) && Stands(SplitPorts(ports, levels), st, mem) && Fits(SplitPorts(ports, levels), st)
    requires Widths(mem, width) && (forall i | 0 <= i < |ports| :: |ports[i].data| == width) && t < |trace|
    requires MuxesOk(Wire(SplitPorts(ports, levels), outs, n).muxes, val, trace[t])
    requires BanksDrive(SplitPorts(ports, levels), After(SplitPorts(ports, levels), st, trace[..t + 1]),
                        Wire(SplitPorts(ports, levels), outs, n).banks, val)
    ensures t < |RunRam(ports, mem, trace)| && Carry(outs, val, RunRam(ports, mem, trace)[t])
    decreases t
  {
    hide MuxesOk, BanksDrive, Carry, Wire, StepNet, ReadAll, WriteAll, SplitPorts, Stands, Fits, Widths;
    var net, v := SplitPorts(ports, levels), trace[0];
    assert trace[..t + 1][0] == v && trace[..t + 1][1..] == trace[1..][..t];
    StepFits(net, st, v);
    if t == 0 {
      assert After(net, StepNet(net, st, v), []) == StepNet(net, st, v);
      WiringCarries(ports, levels, st, mem, width, v, outs, n, val);
    } else {
      StepRefines(ports, levels, st, mem, v);
      WriteKeepsWidth(mem, ports, width, v);
      OutputsCorrect(ports, levels, StepNet(net, st, v), WriteAll(mem, ports, v), width, trace[1..], t - 1, outs, n, val);
    }
  }

  // ----- One driver a net -----

  function PinsOn(pins: seq<OutPin>, x: nat): nat {
    if pins == [] then 0 else PinsOn(pins[..|pins| - 1], x) + if pins[|pins| - 1].net == x then 1 else 0
  }

  function BankPinsOn(banks: seq<seq<OutPin>>, x: nat): nat {
    if banks == [] then 0 else BankPinsOn(banks[..|banks| - 1], x) + PinsOn(banks[|banks| - 1], x)
  }

  function MuxesOn(ms: seq<Mux2>, x: nat): nat {
    if ms == [] then 0 else MuxesOn(ms[..|ms| - 1], x) + if ms[|ms| - 1].out == x then 1 else 0
  }

  /** How many multiplexers and bank pins drive net x. */
  function DriversOn(w: Wiring, x: nat): nat {
    MuxesOn(w.muxes, x) + BankPinsOn(w.banks, x)
  }

  lemma {:induction false} MuxesOnAppend(a: seq<Mux2>, b: seq<Mux2>, x: nat)
    ensures MuxesOn(a + b, x) == MuxesOn(a, x) + MuxesOn(b, x)
  {
    if b == [] {
      assert a + b == a;
    } else {
      assert (a + b)[..|a + b| - 1] == a + b[..|b| - 1];
      MuxesOnAppend(a, b[..|b| - 1], x);
    }
  }

  lemma {:induction false} BankPinsOnAppend(a: seq<seq<OutPin>>, b: seq<seq<OutPin>>, x: nat)
    ensures BankPinsOn(a + b, x) == BankPinsOn(a, x) + BankPinsOn(b, x)
  {
    if b == [] {
      assert a + b == a;
    } else {
      assert (a + b)[..|a + b| - 1] == a + b[..|b| - 1];
      BankPinsOnAppend(a, b[..|b| - 1], x);
    }
  }

  /** A level puts one pin of a half on every new net, and a multiplexer on every net it takes over. */
  lemma {:induction false} LevelDrivers(outs: seq<OutPin>, select: seq<Signal>, n: nat, k: nat, x: nat)
    requires k <= |outs|
    ensures PinsOn(HighPins(outs, n, k), x) + PinsOn(LowPins(outs, n, k), x) == if n <= x < n + 2 * k then 1 else 0
    ensures MuxesOn(PinMuxes(outs, select, n, k), x) == PinsOn(outs[..k], x)
  {
    if k > 0 {
      LevelDrivers(outs, select, n, k - 1, x);
      assert outs[..k][..k - 1] == outs[..k - 1];
    }
  }

  /**
   * Every net of the memory keeps as many drivers as it had pins of the memory on it, every new net gets exactly one, and
   * no other net any.
   */
  lemma {:induction false} DriversExact(net: Net, outs: seq<OutPin>, n: nat, x: nat)
    ensures n <= Wire(net, outs, n).next
    ensures DriversOn(Wire(net, outs, n), x) == PinsOn(outs, x) + if n <= x < Wire(net, outs, n).next then 1 else 0
  {
    hide HighPins, LowPins, PinMuxes, PinsOn, MuxesOn, BankPinsOn, Banks;
    match net
    case Bank(_) =>
      OneBank(outs, x);
    case Split(select, h, l) =>
      var hi, lo, k := HighPins(outs, n, |outs|), LowPins(outs, n, |outs|), n + 2 * |outs|;
      var hw := Wire(h, hi, k);
      var lw := Wire(l, lo, hw.next);
      DriversExact(h, hi, k, x);
      DriversExact(l, lo, hw.next, x);
      LevelDrivers(outs, select, n, |outs|, x);
      assert outs[..|outs|] == outs;
      MuxesOnAppend(PinMuxes(outs, select, n, |outs|) + hw.muxes, lw.muxes, x);
      MuxesOnAppend(PinMuxes(outs, select, n, |outs|), hw.muxes, x);
      BankPinsOnAppend(lw.banks, hw.banks, x);
  }

  lemma OneBank(outs: seq<OutPin>, x: nat)
    ensures MuxesOn([], x) == 0 && BankPinsOn([outs], x) == PinsOn(outs, x)
  {
    assert [outs][..0] == [];
    assert BankPinsOn([], x) == 0;
  }
}
