/**
 * Both splits after one another, as iterate_memories does them: a bank network from the depth split, each of its banks cut
 * into slices by the width split, is still the memory both started from.
 */
module SlicedBanks {
  import opened Signals
  import opened BankedRam
  import opened SlicePlan
  import opened RamSlices

  /** The state of a bank network whose banks are cut into slices. */
  datatype Parts = Slices(mems: seq<Mem>, out: seq<Word>) | Pair(select: seq<bool>, high: Parts, low: Parts)

  ghost predicate Shaped(net: Net, parts: Parts, width: nat, target: nat) {
    match net
    case Bank(ports) => Wide(ports, width) && target > 0 && parts.Slices? && |parts.mems| == SliceCount(width, target)
    case Split(_, h, l) => parts.Pair? && Shaped(h, parts.high, width, target) && Shaped(l, parts.low, width, target)
  }

  /** The ports of slice i. */
  function PortsOf(ports: seq<Port>, width: nat, target: nat, i: nat): (r: seq<Port>)
    requires Wide(ports, width)
    ensures |r| == |ports|
  {
    StartBounds(width, target, i);
    SlicePorts(ports, width, Start(width, target, i), Start(width, target, i + 1))
  }

  /** The first n slices after a clock edge. */
  function WriteSlices(mems: seq<Mem>, ports: seq<Port>, width: nat, target: nat, v: Values, n: nat): (r: seq<Mem>)
    requires Wide(ports, width) && n <= |mems|
    ensures |r| == n
  {
    if n == 0 then []
    else WriteSlices(mems, ports, width, target, v, n - 1) + [WriteAll(mems[n - 1], PortsOf(ports, width, target, n - 1), v)]
  }

  /** What the first n slices read at port p, side by side. */
  function ReadSlices(mems: seq<Mem>, ports: seq<Port>, width: nat, target: nat, v: Values, p: nat, n: nat): Word
    requires Wide(ports, width) && n <= |mems| && p < |ports|
  {
    if n == 0 then []
    else ReadSlices(mems, ports, width, target, v, p, n - 1) + ReadAll(mems[n - 1], PortsOf(ports, width, target, n - 1), v)[p]
  }

  /** The words of the first k ports. */
  function ReadPorts(mems: seq<Mem>, ports: seq<Port>, width: nat, target: nat, v: Values, k: nat): (r: seq<Word>)
    requires Wide(ports, width) && k <= |ports|
    ensures |r| == k
  {
    if k == 0 then []
    else ReadPorts(mems, ports, width, target, v, k - 1) + [ReadSlices(mems, ports, width, target, v, k - 1, |mems|)]
  }

  function OutParts(parts: Parts): seq<Word> {
    match parts
    case Slices(_, out) => out
    case Pair(select, h, l) => SelectAll(select, OutParts(h), OutParts(l))
  }

  function StepParts(net: Net, parts: Parts, width: nat, target: nat, v: Values): (next: Parts)
    requires Shaped(net, parts, width, target)
    ensures Shaped(net, next, width, target)
  {
    match net
    case Bank(ports) => Slices(WriteSlices(parts.mems, ports, width, target, v, |parts.mems|),
                               ReadPorts(parts.mems, ports, width, target, v, |ports|))
    case Split(select, h, l) => Pair(Bits(select, v), StepParts(h, parts.high, width, target, v), StepParts(l, parts.low, width, target, v))
  }

  function RunParts(net: Net, parts: Parts, width: nat, target: nat, trace: seq<Values>): seq<seq<Word>>
    requires Shaped(net, parts, width, target)
    decreases trace
  {
    if trace == [] then []
    else
      var next := StepParts(net, parts, width, target, trace[0]);
      [OutParts(next)] + RunParts(net, next, width, target, trace[1..])
  }

  // ----- Cut states -----

  /** The slices hold the stretches of mem. */
  ghost predicate Cut(mems: seq<Mem>, mem: Mem, width: nat, target: nat) {
    WideMem(mem, width) && forall i: nat | i < |mems| :: IsStretch(mems[i], mem, width, target, i)
  }

  /** Bank by bank, the slices hold what the bank holds, and put out what it puts out. */
  ghost predicate Cuts(net: Net, parts: Parts, st: State, width: nat, target: nat) {
    match net
    case Bank(_) => parts.Slices? && st.Ram? && Cut(parts.mems, st.mem, width, target) && parts.out == st.out
    case Split(_, h, l) =>
      && parts.Pair? && st.Mux? && parts.select == st.select
      && Cuts(h, parts.high, st.high, width, target) && Cuts(l, parts.low, st.low, width, target)
  }

  lemma {:induction false} WriteSlicesAt(mems: seq<Mem>, ports: seq<Port>, width: nat, target: nat, v: Values, n: nat, i: nat)
    requires Wide(ports, width) && i < n <= |mems|
    ensures WriteSlices(mems, ports, width, target, v, n)[i] == WriteAll(mems[i], PortsOf(ports, width, target, i), v)
  {
    hide WriteAll, PortsOf;
    if i < n - 1 {
      WriteSlicesAt(mems, ports, width, target, v, n - 1, i);
    }
  }

  lemma CutWrites(mems: seq<Mem>, mem: Mem, ports: seq<Port>, width: nat, target: nat, v: Values)
    requires Wide(ports, width) && Cut(mems, mem, width, target)
    ensures Cut(WriteSlices(mems, ports, width, target, v, |mems|), WriteAll(mem, ports, v), width, target)
  {
    hide Start, Stretch, WideMem, Wide, WriteAll, SlicePorts, WriteSlices;
    WritesWide(mem, ports, v, width);
    forall i: nat | i < |mems| ensures IsStretch(WriteSlices(mems, ports, width, target, v, |mems|)[i], WriteAll(mem, ports, v), width, target, i) {
      StartBounds(width, target, i);
      WriteSlicesAt(mems, ports, width, target, v, |mems|, i);
      assert IsStretch(mems[i], mem, width, target, i);
      SliceWritesAll(mem, mems[i], ports, v, width, Start(width, target, i), Start(width, target, i + 1));
    }
  }

  lemma ReadWide(mem: Mem, ports: seq<Port>, width: nat, v: Values, p: nat)
    requires WideMem(mem, width) && p < |ports|
    ensures |ReadAll(mem, ports, v)| == |ports| && |ReadAll(mem, ports, v)[p]| == width
  {
    assert ReadAll(mem, ports, v)[p] == mem(Address(ports[p], v));
    assert |mem(Address(ports[p], v))| == width;
  }

  lemma {:induction false} ReadSlicesTo(mems: seq<Mem>, mem: Mem, ports: seq<Port>, width: nat, target: nat, v: Values, p: nat, n: nat)
    requires Wide(ports, width) && Cut(mems, mem, width, target) && n <= |mems| && p < |ports|
    ensures Start(width, target, n) <= |ReadAll(mem, ports, v)[p]| == width
    ensures ReadSlices(mems, ports, width, target, v, p, n) == ReadAll(mem, ports, v)[p][..Start(width, target, n)]
  {
    hide Start, Stretch, Wide, WideMem, SlicePorts, ReadAll;
    StartBounds(width, target, n);
    ReadWide(mem, ports, width, v, p);
    var word := ReadAll(mem, ports, v)[p];
    if n > 0 {
      var a, b := Start(width, target, n - 1), Start(width, target, n);
      StartBounds(width, target, n - 1);
      ReadSlicesTo(mems, mem, ports, width, target, v, p, n - 1);
      assert IsStretch(mems[n - 1], mem, width, target, n - 1);
      SliceReads(mem, mems[n - 1], ports, v, width, a, b);
      assert WordsStretch(ReadAll(mems[n - 1], PortsOf(ports, width, target, n - 1), v), ReadAll(mem, ports, v), a, b);
      assert word[..a] + word[a..b] == word[..b];
    } else {
      StartBounds(width, target, 0);
    }
  }

  lemma {:induction false} ReadPortsTo(mems: seq<Mem>, mem: Mem, ports: seq<Port>, width: nat, target: nat, v: Values, k: nat)
    requires Wide(ports, width) && Cut(mems, mem, width, target) && k <= |ports|
    requires target > 0 && |mems| == SliceCount(width, target)
    ensures ReadPorts(mems, ports, width, target, v, k) == ReadAll(mem, ports, v)[..k]
  {
    hide Start, Wide, WideMem, IsStretch, ReadSlices, ReadAll;
    if k > 0 {
      ReadPortsTo(mems, mem, ports, width, target, v, k - 1);
      ReadSlicesTo(mems, mem, ports, width, target, v, k - 1, |mems|);
      ReadWide(mem, ports, width, v, k - 1);
      LastStart(width, target);
      var word := ReadAll(mem, ports, v)[k - 1];
      assert word[..width] == word;
    }
  }

  /** A clock edge keeps every bank cut into its slices. */
  lemma {:induction false} StepCuts(net: Net, parts: Parts, st: State, width: nat, target: nat, v: Values)
    requires Shaped(net, parts, width, target) && Fits(net, st) && Cuts(net, parts, st, width, target)
    ensures Cuts(net, StepParts(net, parts, width, target, v), StepNet(net, st, v), width, target)
  {
    hide Wide, Cut, WriteSlices, ReadPorts, WriteAll, SliceCount;
    match net
    case Bank(ports) =>
      CutWrites(parts.mems, st.mem, ports, width, target, v);
      ReadPortsTo(parts.mems, st.mem, ports, width, target, v, |ports|);
    case Split(_, h, l) =>
      StepCuts(h, parts.high, st.high, width, target, v);
      StepCuts(l, parts.low, st.low, width, target, v);
  }

  lemma {:induction false} CutsOut(net: Net, parts: Parts, st: State, width: nat, target: nat)
    requires Cuts(net, parts, st, width, target)
    ensures OutParts(parts) == Out(st)
  {
    hide Cut, SelectAll;
    if net.Split? {
      CutsOut(net.high, parts.high, st.high, width, target);
      CutsOut(net.low, parts.low, st.low, width, target);
    }
  }

  lemma {:induction false} RunCuts(net: Net, parts: Parts, st: State, width: nat, target: nat, trace: seq<Values>)
    requires Shaped(net, parts, width, target) && Fits(net, st) && Cuts(net, parts, st, width, target)
    ensures RunParts(net, parts, width, target, trace) == RunNet(net, st, trace)
    decreases trace
  {
    hide Shaped, Fits, Cuts, StepParts, StepNet, OutParts, Out;
    if trace != [] {
      StepFits(net, st, trace[0]);
      StepCuts(net, parts, st, width, target, trace[0]);
      var next, after := StepParts(net, parts, width, target, trace[0]), StepNet(net, st, trace[0]);
      CutsOut(net, next, after, width, target);
      RunCuts(net, next, after, width, target, trace[1..]);
    }
  }

  // ----- Contents -----

  /** Bits a .. b - 1 of every word. */
  function MemPart(mem: Mem, a: nat, b: nat): Mem {
    (x: nat) => if a <= b <= |mem(x)| then mem(x)[a..b] else []
  }

  function MemParts(mem: Mem, width: nat, target: nat, n: nat): (ms: seq<Mem>)
    ensures |ms| == n
  {
    if n == 0 then [] else MemParts(mem, width, target, n - 1) + [MemPart(mem, Start(width, target, n - 1), Start(width, target, n))]
  }

  lemma {:induction false} MemPartsAt(mem: Mem, width: nat, target: nat, n: nat, i: nat)
    requires WideMem(mem, width) && i < n
    ensures IsStretch(MemParts(mem, width, target, n)[i], mem, width, target, i)
  {
    hide Start;
    if i < n - 1 {
      MemPartsAt(mem, width, target, n - 1, i);
    } else {
      StartBounds(width, target, i);
      assert forall x: nat :: |mem(x)| == width;
    }
  }

  /** The state in which the sliced network holds the given contents. */
  function LoadParts(net: Net, mem: Mem, width: nat, target: nat): Parts
    requires target > 0
  {
    match net
    case Bank(_) => Slices(MemParts(mem, width, target, SliceCount(width, target)), [])
    case Split(select, h, l) =>
      Pair(seq(|select|, _ => false), LoadParts(h, HalfMem(mem, true), width, target), LoadParts(l, HalfMem(mem, false), width, target))
  }

  ghost predicate WideNet(net: Net, width: nat) {
    match net
    case Bank(ports) => Wide(ports, width)
    case Split(_, h, l) => WideNet(h, width) && WideNet(l, width)
  }

  lemma {:induction false} LoadCuts(net: Net, mem: Mem, width: nat, target: nat)
    requires WideNet(net, width) && WideMem(mem, width) && target > 0
    ensures Shaped(net, LoadParts(net, mem, width, target), width, target)
    ensures Cuts(net, LoadParts(net, mem, width, target), Load(net, mem), width, target)
  {
    hide IsStretch, MemParts, Wide, SliceCount;
    match net
    case Bank(_) =>
      var n := SliceCount(width, target);
      forall i: nat | i < n ensures IsStretch(MemParts(mem, width, target, n)[i], mem, width, target, i) {
        MemPartsAt(mem, width, target, n, i);
      }
    case Split(_, h, l) =>
      HalfWide(mem, width, true);
      HalfWide(mem, width, false);
      LoadCuts(h, HalfMem(mem, true), width, target);
      LoadCuts(l, HalfMem(mem, false), width, target);
      assert Load(net, mem).select == LoadParts(net, mem, width, target).select;
  }

  lemma HalfWide(mem: Mem, width: nat, high: bool)
    requires WideMem(mem, width)
    ensures WideMem(HalfMem(mem, high), width)
  {
  }

  lemma {:induction false} SplitWide(ports: seq<Port>, levels: nat, width: nat)
    requires Deep(ports, levels) && Wide(ports, width)
    ensures WideNet(SplitPorts(ports, levels), width)
    decreases levels
  {
    if levels > 0 {
      SplitWide(Halves(ports, true), levels - 1, width);
      SplitWide(Halves(ports, false), levels - 1, width);
    }
  }

  /**
   * Split in depth by any number of levels and every bank then cut to any width, a memory puts out at every port, over
   * every run and from any contents, what it put out whole.
   */
  lemma BothSplitsCorrect(ports: seq<Port>, levels: nat, mem: Mem, width: nat, target: nat, trace: seq<Values>)
    requires Deep(ports, levels) && Wide(ports, width) && WideMem(mem, width) && target > 0
    ensures var net := SplitPorts(ports, levels);
            && Shaped(net, LoadParts(net, mem, width, target), width, target)
            && RunParts(net, LoadParts(net, mem, width, target), width, target, trace) == RunRam(ports, mem, trace)
  {
    hide SplitPorts, LoadParts, Load, Shaped, Cuts, RunParts, RunNet, RunRam, WideNet;
    var net := SplitPorts(ports, levels);
    SplitWide(ports, levels, width);
    LoadCuts(net, mem, width, target);
    LoadStands(net, mem);
    SplitEquivalent(ports, levels, mem, width, trace);
    RunCuts(net, LoadParts(net, mem, width, target), Load(net, mem), width, target, trace);
  }
}
