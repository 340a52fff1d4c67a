/**
 * Synchronous RAMs and the networks of RAM banks that depth splitting builds, for any number of access ports.
 * A bank network stands for one RAM, and keeps standing for it through every run.
 */
module BankedRam {
  import opened Options
  import opened Signals
  import opened Binary

  type Word = seq<bool>
  type Mem = nat -> Word

  /** The input side of one access port; the address is least significant bit first. Without an enable it only reads. */
  datatype Port = Port(addr: seq<Signal>, data: seq<Signal>, we: Option<Signal>)

  function Address(p: Port, v: Values): nat {
    Num(Bits(p.addr, v))
  }

  predicate Enabled(p: Port, v: Values) {
    p.we.Some? && Eval(p.we.value, v)
  }

  function Write(mem: Mem, p: Port, v: Values): Mem {
    if Enabled(p, v) then (a: nat) => if a == Address(p, v) then Bits(p.data, v) else mem(a) else mem
  }

  /** The memory after the clock edge: the ports write in order, so a later port wins a shared address. */
  function WriteAll(mem: Mem, ports: seq<Port>, v: Values): Mem {
    if ports == [] then mem else Write(WriteAll(mem, ports[..|ports| - 1], v), ports[|ports| - 1], v)
  }

  /** The output registers after the clock edge: what each port's address held before the edge. */
  function ReadAll(mem: Mem, ports: seq<Port>, v: Values): seq<Word> {
    seq(|ports|, i requires 0 <= i < |ports| => mem(Address(ports[i], v)))
  }

  /** One RAM over a run: the outputs after each clock edge. */
  function RunRam(ports: seq<Port>, mem: Mem, trace: seq<Values>): seq<seq<Word>> {
    if trace == [] then [] else [ReadAll(mem, ports, trace[0])] + RunRam(ports, WriteAll(mem, ports, trace[0]), trace[1..])
  }

  /** A RAM bank, or two networks whose outputs are selected, per port, by a registered select signal. */
  datatype Net = Bank(ports: seq<Port>) | Split(select: seq<Signal>, high: Net, low: Net)

  datatype State = Ram(mem: Mem, out: seq<Word>) | Mux(select: seq<bool>, high: State, low: State)

  ghost predicate Fits(net: Net, st: State) {
    match net
    case Bank(_) => st.Ram?
    case Split(_, h, l) => st.Mux? && Fits(h, st.high) && Fits(l, st.low)
  }

  /** The two select wires of an output mux are the flip-flop and its inverse. */
  function Select(flipFlop: bool, high: Word, low: Word): Word {
    seq(|high|, i requires 0 <= i < |high| => (flipFlop && high[i]) || (!flipFlop && i < |low| && low[i]))
  }

  function SelectAll(flipFlops: seq<bool>, high: seq<Word>, low: seq<Word>): seq<Word> {
    seq(|flipFlops|, i requires 0 <= i < |flipFlops| =>
      if i < |high| && i < |low| then Select(flipFlops[i], high[i], low[i]) else [])
  }

  function Out(st: State): seq<Word> {
    match st
    case Ram(_, out) => out
    case Mux(select, h, l) => SelectAll(select, Out(h), Out(l))
  }

  function StepNet(net: Net, st: State, v: Values): State
    requires Fits(net, st)
  {
    match net
    case Bank(ports) => Ram(WriteAll(st.mem, ports, v), ReadAll(st.mem, ports, v))
    case Split(select, h, l) => Mux(Bits(select, v), StepNet(h, st.high, v), StepNet(l, st.low, v))
  }

  lemma {:induction false} StepFits(net: Net, st: State, v: Values)
    requires Fits(net, st)
    ensures Fits(net, StepNet(net, st, v))
  {
    if net.Split? {
      StepFits(net.high, st.high, v);
      StepFits(net.low, st.low, v);
    }
  }

  function RunNet(net: Net, st: State, trace: seq<Values>): seq<seq<Word>>
    requires Fits(net, st)
    decreases trace
  {
    if trace == [] then []
    else
      StepFits(net, st, trace[0]);
      var next := StepNet(net, st, trace[0]);
      [Out(next)] + RunNet(net, next, trace[1..])
  }

  // ----- Splitting by address bit 0 -----

  function Gate(bit: Signal, high: bool, we: Signal): Signal {
    And(if high then bit else Not(bit), we)
  }

  /** The port of one half: bit 0 leaves the address and gates the write enable. */
  function HalfPort(p: Port, high: bool): Port
    requires p.addr != []
  {
    Port(p.addr[1..], p.data, if p.we.None? then None else Some(Gate(p.addr[0], high, p.we.value)))
  }

  function Halves(ports: seq<Port>, high: bool): seq<Port>
    requires forall i | 0 <= i < |ports| :: ports[i].addr != []
  {
    seq(|ports|, i requires 0 <= i < |ports| => HalfPort(ports[i], high))
  }

  function Selects(ports: seq<Port>): seq<Signal>
    requires forall i | 0 <= i < |ports| :: ports[i].addr != []
  {
    seq(|ports|, i requires 0 <= i < |ports| => ports[i].addr[0])
  }

  predicate Deep(ports: seq<Port>, levels: nat) {
    forall i | 0 <= i < |ports| :: |ports[i].addr| >= levels
  }

  function SplitPorts(ports: seq<Port>, levels: nat): Net
    requires Deep(ports, levels)
    decreases levels
  {
    if levels == 0 then Bank(ports)
    else Split(Selects(ports), SplitPorts(Halves(ports, true), levels - 1), SplitPorts(Halves(ports, false), levels - 1))
  }

  function Banks(net: Net): seq<seq<Port>> {
    match net
    case Bank(ports) => [ports]
    case Split(_, h, l) => Banks(l) + Banks(h)
  }

  /** k levels of splitting give exactly 2^k banks, each port's address k bits shorter and its data untouched. */
  lemma {:induction false} BankShape(ports: seq<Port>, levels: nat)
    requires Deep(ports, levels)
    ensures |Banks(SplitPorts(ports, levels))| == Pow2(levels)
    ensures forall bank | bank in Banks(SplitPorts(ports, levels)) :: Shortened(ports, levels, bank)
    decreases levels
  {
    if levels > 0 {
      var hp, lp := Halves(ports, true), Halves(ports, false);
      BankShape(hp, levels - 1);
      BankShape(lp, levels - 1);
      forall bank | Shortened(hp, levels - 1, bank) || Shortened(lp, levels - 1, bank)
        ensures Shortened(ports, levels, bank)
      {
        assert forall i | 0 <= i < |ports| :: ports[i].addr[1..][levels - 1..] == ports[i].addr[levels..];
      }
    }
  }

  predicate Shortened(ports: seq<Port>, levels: nat, bank: seq<Port>)
    requires Deep(ports, levels)
  {
    |bank| == |ports| && forall i | 0 <= i < |ports| :: bank[i].addr == ports[i].addr[levels..] && bank[i].data == ports[i].data
  }

  // ----- Equivalence -----

  /** The network state holds the contents mem, bit 0 of the address choosing the half at every level. */
  ghost predicate Stands(net: Net, st: State, mem: Mem) {
    match net
    case Bank(_) => st.Ram? && forall a :: st.mem(a) == mem(a)
    case Split(_, h, l) =>
      st.Mux? && Stands(h, st.high, HalfMem(mem, true)) && Stands(l, st.low, HalfMem(mem, false))
  }

  lemma {:induction false} StandsFits(net: Net, st: State, mem: Mem)
    requires Stands(net, st, mem)
    ensures Fits(net, st)
  {
    if net.Split? {
      StandsFits(net.high, st.high, HalfMem(mem, true));
      StandsFits(net.low, st.low, HalfMem(mem, false));
    }
  }

  lemma {:induction false} StandsExtensional(net: Net, st: State, m1: Mem, m2: Mem)
    requires Stands(net, st, m1) && forall a :: m1(a) == m2(a)
    ensures Stands(net, st, m2)
  {
    if net.Split? {
      StandsExtensional(net.high, st.high, HalfMem(m1, true), HalfMem(m2, true));
      StandsExtensional(net.low, st.low, HalfMem(m1, false), HalfMem(m2, false));
    }
  }

  lemma AddressSplit(p: Port, v: Values)
    requires p.addr != []
    ensures Address(p, v) == (if Eval(p.addr[0], v) then 1 else 0) + 2 * Address(HalfPort(p, true), v)
    ensures Address(HalfPort(p, false), v) == Address(HalfPort(p, true), v)
  {
    var bits := Bits(p.addr, v);
    assert bits == [bits[0]] + bits[1..] && bits[1..] == Bits(p.addr[1..], v);
    NumCons(bits[0], bits[1..]);
  }

  lemma WriteHalf(half: Mem, mem: Mem, p: Port, high: bool, v: Values, a: nat)
    requires p.addr != [] && half(a) == mem(2 * a + if high then 1 else 0)
    ensures Write(half, HalfPort(p, high), v)(a) == Write(mem, p, v)(2 * a + if high then 1 else 0)
  {
    AddressSplit(p, v);
    assert Eval(Not(p.addr[0]), v) == !Eval(p.addr[0], v);
    assert Enabled(HalfPort(p, high), v) == ((Eval(p.addr[0], v) == high) && Enabled(p, v));
  }

  /** Writing a half through its gated enables is writing the whole memory. */
  lemma {:induction false} WriteHalves(half: Mem, mem: Mem, ports: seq<Port>, high: bool, v: Values, a: nat)
    requires Deep(ports, 1) && half(a) == mem(2 * a + if high then 1 else 0)
    ensures WriteAll(half, Halves(ports, high), v)(a) == WriteAll(mem, ports, v)(2 * a + if high then 1 else 0)
  {
    if ports != [] {
      var front, last := ports[..|ports| - 1], ports[|ports| - 1];
      WriteHalves(half, mem, front, high, v, a);
      assert Halves(ports, high)[..|ports| - 1] == Halves(front, high);
      WriteHalf(WriteAll(half, Halves(front, high), v), WriteAll(mem, front, v), last, high, v, a);
    }
  }

  function HalfMem(mem: Mem, high: bool): Mem {
    (a: nat) => mem(2 * a + if high then 1 else 0)
  }

  ghost predicate Widths(mem: Mem, width: nat) {
    forall a :: |mem(a)| == width
  }

  lemma {:induction false} WriteKeepsWidth(mem: Mem, ports: seq<Port>, width: nat, v: Values)
    requires Widths(mem, width) && forall i | 0 <= i < |ports| :: |ports[i].data| == width
    ensures Widths(WriteAll(mem, ports, v), width)
  {
    if ports != [] {
      WriteKeepsWidth(mem, ports[..|ports| - 1], width, v);
    }
  }

  /** One clock edge of the split network: it goes on standing for the RAM. */
  lemma {:induction false} StepRefines(ports: seq<Port>, levels: nat, st: State, mem: Mem, v: Values)
    requires Deep(ports, levels) && Stands(SplitPorts(ports, levels), st, mem)
    ensures Fits(SplitPorts(ports, levels), st)
    ensures Stands(SplitPorts(ports, levels), StepNet(SplitPorts(ports, levels), st, v), WriteAll(mem, ports, v))
    decreases levels
  {
    var net := SplitPorts(ports, levels);
    StandsFits(net, st, mem);
    if levels == 0 {
      forall a: nat ensures WriteAll(st.mem, ports, v)(a) == WriteAll(mem, ports, v)(a) {
        WriteExtensional(st.mem, mem, ports, v, a);
      }
    } else {
      var hp, lp := Halves(ports, true), Halves(ports, false);
      StepRefines(hp, levels - 1, st.high, HalfMem(mem, true), v);
      StepRefines(lp, levels - 1, st.low, HalfMem(mem, false), v);
      var next := StepNet(net, st, v);
      HalfKept(net.high, next.high, mem, ports, true, v);
      HalfKept(net.low, next.low, mem, ports, false, v);
    }
  }

  lemma HalfKept(net: Net, st: State, mem: Mem, ports: seq<Port>, high: bool, v: Values)
    requires Deep(ports, 1) && Stands(net, st, WriteAll(HalfMem(mem, high), Halves(ports, high), v))
    ensures Stands(net, st, HalfMem(WriteAll(mem, ports, v), high))
  {
    forall a: nat ensures WriteAll(HalfMem(mem, high), Halves(ports, high), v)(a) == HalfMem(WriteAll(mem, ports, v), high)(a) {
      WriteHalves(HalfMem(mem, high), mem, ports, high, v, a);
    }
    StandsExtensional(net, st, WriteAll(HalfMem(mem, high), Halves(ports, high), v), HalfMem(WriteAll(mem, ports, v), high));
  }

  /** The registered selects pick, on every port, the half whose bank read the word addressed. */
  lemma {:induction false} StepReads(ports: seq<Port>, levels: nat, st: State, mem: Mem, width: nat, v: Values)
    requires Deep(ports, levels) && Stands(SplitPorts(ports, levels), st, mem)
    requires Widths(mem, width)
    ensures Fits(SplitPorts(ports, levels), st)
    ensures Out(StepNet(SplitPorts(ports, levels), st, v)) == ReadAll(mem, ports, v)
    decreases levels
  {
    StandsFits(SplitPorts(ports, levels), st, mem);
    if levels > 0 {
      StepReads(Halves(ports, true), levels - 1, st.high, HalfMem(mem, true), width, v);
      StepReads(Halves(ports, false), levels - 1, st.low, HalfMem(mem, false), width, v);
      MuxReads(ports, mem, width, v);
    } else {
      forall i | 0 <= i < |ports| ensures st.mem(Address(ports[i], v)) == mem(Address(ports[i], v)) {
      }
      assert ReadAll(st.mem, ports, v) == ReadAll(mem, ports, v);
    }
  }

  lemma {:induction false} WriteExtensional(m1: Mem, m2: Mem, ports: seq<Port>, v: Values, a: nat)
    requires forall k :: m1(k) == m2(k)
    ensures WriteAll(m1, ports, v)(a) == WriteAll(m2, ports, v)(a)
  {
    if ports != [] {
      WriteExtensional(m1, m2, ports[..|ports| - 1], v, a);
    }
  }

  lemma SelectIs(flipFlop: bool, high: Word, low: Word)
    requires |high| == |low|
    ensures Select(flipFlop, high, low) == if flipFlop then high else low
  {
  }

  lemma HalfAt(mem: Mem, high: bool, a: nat, width: nat)
    requires Widths(mem, width)
    ensures HalfMem(mem, high)(a) == mem(2 * a + if high then 1 else 0) && |HalfMem(mem, high)(a)| == width
  {
  }

  /** The half that bit 0 selects holds the addressed word. */
  lemma MuxRead(p: Port, mem: Mem, width: nat, v: Values)
    requires p.addr != [] && Widths(mem, width)
    ensures Select(Eval(p.addr[0], v), HalfMem(mem, true)(Address(HalfPort(p, true), v)), HalfMem(mem, false)(Address(HalfPort(p, false), v)))
         == mem(Address(p, v))
  {
    hide Address, HalfPort, HalfMem, Eval, Select, Widths;
    AddressSplit(p, v);
    var a := Address(HalfPort(p, true), v);
    HalfAt(mem, true, a, width);
    HalfAt(mem, false, a, width);
    SelectIs(Eval(p.addr[0], v), HalfMem(mem, true)(a), HalfMem(mem, false)(a));
  }

  lemma MuxReads(ports: seq<Port>, mem: Mem, width: nat, v: Values)
    requires Deep(ports, 1) && Widths(mem, width)
    ensures SelectAll(Bits(Selects(ports), v), ReadAll(HalfMem(mem, true), Halves(ports, true), v),
                      ReadAll(HalfMem(mem, false), Halves(ports, false), v)) == ReadAll(mem, ports, v)
  {
    hide Address, HalfPort, HalfMem, Select, Eval, Widths;
    forall i | 0 <= i < |ports|
      ensures Select(Eval(ports[i].addr[0], v), HalfMem(mem, true)(Address(HalfPort(ports[i], true), v)),
                     HalfMem(mem, false)(Address(HalfPort(ports[i], false), v))) == mem(Address(ports[i], v))
    {
      MuxRead(ports[i], mem, width, v);
    }
  }

  /** The state in which the network holds the given contents. */
  function Load(net: Net, mem: Mem): State {
    match net
    case Bank(_) => Ram(mem, [])
    case Split(select, h, l) =>
      Mux(seq(|select|, _ => false), Load(h, HalfMem(mem, true)), Load(l, HalfMem(mem, false)))
  }

  lemma {:induction false} LoadStands(net: Net, mem: Mem)
    ensures Stands(net, Load(net, mem), mem)
  {
    if net.Split? {
      LoadStands(net.high, HalfMem(mem, true));
      LoadStands(net.low, HalfMem(mem, false));
    }
  }

  lemma {:induction false} RunRefines(ports: seq<Port>, levels: nat, st: State, mem: Mem, width: nat, trace: seq<Values>)
    requires Deep(ports, levels) && Stands(SplitPorts(ports, levels), st, mem)
    requires Widths(mem, width) && forall i | 0 <= i < |ports| :: |ports[i].data| == width
    ensures Fits(SplitPorts(ports, levels), st)
    ensures RunNet(SplitPorts(ports, levels), st, trace) == RunRam(ports, mem, trace)
    decreases |trace|
  {
    StandsFits(SplitPorts(ports, levels), st, mem);
    if trace != [] {
      StepRefines(ports, levels, st, mem, trace[0]);
      StepReads(ports, levels, st, mem, width, trace[0]);
      WriteKeepsWidth(mem, ports, width, trace[0]);
      RunRefines(ports, levels, StepNet(SplitPorts(ports, levels), st, trace[0]), WriteAll(mem, ports, trace[0]), width, trace[1..]);
    }
  }

  /** Over every input trace and from any contents, the split network puts out on every port what the RAM puts out. */
  lemma SplitEquivalent(ports: seq<Port>, levels: nat, mem: Mem, width: nat, trace: seq<Values>)
    requires Deep(ports, levels)
    requires Widths(mem, width) && forall i | 0 <= i < |ports| :: |ports[i].data| == width
    ensures Fits(SplitPorts(ports, levels), Load(SplitPorts(ports, levels), mem))
    ensures RunNet(SplitPorts(ports, levels), Load(SplitPorts(ports, levels), mem), trace) == RunRam(ports, mem, trace)
  {
    LoadStands(SplitPorts(ports, levels), mem);
    RunRefines(ports, levels, Load(SplitPorts(ports, levels), mem), mem, width, trace);
  }
}
