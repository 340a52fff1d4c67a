/** What width slices compute: each is the RAM on its stretch of the word, through every run. */
module RamSlices {
  import opened Signals
  import opened BankedRam
  import opened SlicePlan

  /** Port p with the data inputs of bits a .. b - 1; address and enable are whole. */
  function SlicePort(p: Port, a: nat, b: nat): Port
    requires a <= b <= |p.data|
  {
    p.(data := p.data[a..b])
  }

  predicate Wide(ports: seq<Port>, width: nat) {
    forall i | 0 <= i < |ports| :: |ports[i].data| == width
  }

  function SlicePorts(ports: seq<Port>, width: nat, a: nat, b: nat): (r: seq<Port>)
    requires Wide(ports, width) && a <= b <= width
    ensures |r| == |ports| && forall i | 0 <= i < |ports| :: r[i] == SlicePort(ports[i], a, b)
  {
    if ports == [] then [] else SlicePorts(ports[..|ports| - 1], width, a, b) + [SlicePort(ports[|ports| - 1], a, b)]
  }

  ghost predicate WideMem(mem: Mem, width: nat) {
    forall x: nat :: |mem(x)| == width
  }

  /** m holds bits a .. b - 1 of every word of mem. */
  ghost predicate Stretch(m: Mem, mem: Mem, width: nat, a: nat, b: nat)
    requires a <= b <= width && WideMem(mem, width)
  {
    forall x: nat :: m(x) == mem(x)[a..b]
  }

  lemma SliceWrites(mem: Mem, m: Mem, p: Port, v: Values, width: nat, a: nat, b: nat)
    requires a <= b <= width && |p.data| == width && WideMem(mem, width) && Stretch(m, mem, width, a, b)
    ensures WideMem(Write(mem, p, v), width)
    ensures Stretch(Write(m, SlicePort(p, a, b), v), Write(mem, p, v), width, a, b)
  {
    var q := SlicePort(p, a, b);
    assert Bits(q.data, v) == Bits(p.data, v)[a..b];
    assert Address(q, v) == Address(p, v);
    var mem', m' := Write(mem, p, v), Write(m, q, v);
    forall x: nat ensures |mem'(x)| == width && m'(x) == mem'(x)[a..b] {
      assert |mem(x)| == width && m(x) == mem(x)[a..b];
    }
  }

  lemma {:induction false} SliceWritesAll(mem: Mem, m: Mem, ports: seq<Port>, v: Values, width: nat, a: nat, b: nat)
    requires a <= b <= width && Wide(ports, width) && WideMem(mem, width) && Stretch(m, mem, width, a, b)
    ensures WideMem(WriteAll(mem, ports, v), width)
    ensures Stretch(WriteAll(m, SlicePorts(ports, width, a, b), v), WriteAll(mem, ports, v), width, a, b)
  {
    if ports != [] {
      var n := |ports| - 1;
      var front, slices := ports[..n], SlicePorts(ports, width, a, b);
      SliceWritesAll(mem, m, front, v, width, a, b);
      assert slices[..n] == SlicePorts(front, width, a, b) && slices[n] == SlicePort(ports[n], a, b);
      hide Write, Stretch, WideMem, SlicePorts;
      SliceWrites(WriteAll(mem, front, v), WriteAll(m, slices[..n], v), ports[n], v, width, a, b);
    }
  }

  /** Bits a .. b - 1 of every output of every cycle. */
  ghost predicate OutputStretch(slice: seq<seq<Word>>, whole: seq<seq<Word>>, a: nat, b: nat) {
    |slice| == |whole| &&
    forall t | 0 <= t < |whole| :: WordsStretch(slice[t], whole[t], a, b)
  }

  predicate WordsStretch(slice: seq<Word>, whole: seq<Word>, a: nat, b: nat) {
    |slice| == |whole| && forall i | 0 <= i < |whole| :: a <= b <= |whole[i]| && slice[i] == whole[i][a..b]
  }

  /** Over any run, with any number of ports, a slice gives its stretch of what the whole RAM gives. */
  lemma {:induction false} SliceRuns(mem: Mem, m: Mem, ports: seq<Port>, trace: seq<Values>, width: nat, a: nat, b: nat)
    requires a <= b <= width && Wide(ports, width) && WideMem(mem, width) && Stretch(m, mem, width, a, b)
    ensures OutputStretch(RunRam(SlicePorts(ports, width, a, b), m, trace), RunRam(ports, mem, trace), a, b)
    decreases trace
  {
    if trace != [] {
      var v, slices := trace[0], SlicePorts(ports, width, a, b);
      SliceWritesAll(mem, m, ports, v, width, a, b);
      SliceRuns(WriteAll(mem, ports, v), WriteAll(m, slices, v), ports, trace[1..], width, a, b);
      assert WordsStretch(ReadAll(m, slices, v), ReadAll(mem, ports, v), a, b) by {
        SliceReads(mem, m, ports, v, width, a, b);
      }
      hide WriteAll, ReadAll, WordsStretch, Stretch, WideMem, Wide;
      Front(RunRam(slices, m, trace), RunRam(ports, mem, trace), a, b);
    }
  }

  lemma SliceReads(mem: Mem, m: Mem, ports: seq<Port>, v: Values, width: nat, a: nat, b: nat)
    requires a <= b <= width && Wide(ports, width) && WideMem(mem, width) && Stretch(m, mem, width, a, b)
    ensures WordsStretch(ReadAll(m, SlicePorts(ports, width, a, b), v), ReadAll(mem, ports, v), a, b)
  {
    var slices := SlicePorts(ports, width, a, b);
    forall i | 0 <= i < |ports| ensures Address(slices[i], v) == Address(ports[i], v) {
    }
  }

  lemma Front(slice: seq<seq<Word>>, whole: seq<seq<Word>>, a: nat, b: nat)
    requires slice != [] && whole != [] && WordsStretch(slice[0], whole[0], a, b) && OutputStretch(slice[1..], whole[1..], a, b)
    ensures OutputStretch(slice, whole, a, b)
  {
    hide WordsStretch;
    forall t | 0 <= t < |whole| ensures WordsStretch(slice[t], whole[t], a, b) {
      if t > 0 {
        assert WordsStretch(slice[1..][t - 1], whole[1..][t - 1], a, b);
      }
    }
  }

  // ----- All slices together -----

  /** The words that slices 0 .. n - 1 put out at port p after cycle t, lowest bits first. */
  function Together(ms: seq<Mem>, ports: seq<Port>, trace: seq<Values>, width: nat, target: nat, t: nat, p: nat, n: nat): Word
    requires n <= |ms| && Wide(ports, width)
  {
    if n == 0 then [] else
      StartBounds(width, target, n - 1);
      var outs := RunRam(SlicePorts(ports, width, Start(width, target, n - 1), Start(width, target, n)), ms[n - 1], trace);
      Together(ms, ports, trace, width, target, t, p, n - 1) + (if t < |outs| && p < |outs[t]| then outs[t][p] else [])
  }

  lemma {:induction false} TogetherTo(mem: Mem, ms: seq<Mem>, ports: seq<Port>, trace: seq<Values>, width: nat, target: nat, t: nat, p: nat, n: nat)
    requires Wide(ports, width) && WideMem(mem, width) && n <= |ms|
    requires forall i: nat | i < |ms| :: IsStretch(ms[i], mem, width, target, i)
    requires t < |RunRam(ports, mem, trace)| && p < |RunRam(ports, mem, trace)[t]|
    ensures Start(width, target, n) <= |RunRam(ports, mem, trace)[t][p]|
    ensures Together(ms, ports, trace, width, target, t, p, n) == RunRam(ports, mem, trace)[t][p][..Start(width, target, n)]
  {
    hide RunRam, Wide, WideMem, Stretch, Start, SlicePorts;
    StartBounds(width, target, n);
    if n > 0 {
      var a, b := Start(width, target, n - 1), Start(width, target, n);
      StartBounds(width, target, n - 1);
      TogetherTo(mem, ms, ports, trace, width, target, t, p, n - 1);
      assert IsStretch(ms[n - 1], mem, width, target, n - 1);
      SliceRuns(mem, ms[n - 1], ports, trace, width, a, b);
      var slice, whole := RunRam(SlicePorts(ports, width, a, b), ms[n - 1], trace), RunRam(ports, mem, trace);
      assert WordsStretch(slice[t], whole[t], a, b);
      assert whole[t][p][..a] + whole[t][p][a..b] == whole[t][p][..b];
    }
  }

  /** m is the part of mem that slice i holds. */
  ghost predicate IsStretch(m: Mem, mem: Mem, width: nat, target: nat, i: nat)
    requires WideMem(mem, width)
  {
    StartBounds(width, target, i);
    Stretch(m, mem, width, Start(width, target, i), Start(width, target, i + 1))
  }

  lemma {:induction false} ReadWidths(mem: Mem, ports: seq<Port>, trace: seq<Values>, width: nat, t: nat, p: nat)
    requires Wide(ports, width) && WideMem(mem, width)
    requires t < |RunRam(ports, mem, trace)| && p < |RunRam(ports, mem, trace)[t]|
    ensures |RunRam(ports, mem, trace)[t][p]| == width
    decreases trace
  {
    if t > 0 {
      WritesWide(mem, ports, trace[0], width);
      ReadWidths(WriteAll(mem, ports, trace[0]), ports, trace[1..], width, t - 1, p);
    } else {
      assert RunRam(ports, mem, trace)[0] == ReadAll(mem, ports, trace[0]);
      assert |mem(Address(ports[p], trace[0]))| == width;
    }
  }

  lemma {:induction false} WritesWide(mem: Mem, ports: seq<Port>, v: Values, width: nat)
    requires Wide(ports, width) && WideMem(mem, width)
    ensures WideMem(WriteAll(mem, ports, v), width)
  {
    if ports != [] {
      WritesWide(mem, ports[..|ports| - 1], v, width);
    }
  }

  /** The slices' outputs side by side are the RAM's output, at every port, after every cycle of every run. */
  lemma SlicesTogether(mem: Mem, ms: seq<Mem>, ports: seq<Port>, trace: seq<Values>, width: nat, target: nat, t: nat, p: nat)
    requires Wide(ports, width) && WideMem(mem, width) && target > 0 && |ms| == SliceCount(width, target)
    requires forall i: nat | i < |ms| :: IsStretch(ms[i], mem, width, target, i)
    requires t < |RunRam(ports, mem, trace)| && p < |RunRam(ports, mem, trace)[t]|
    ensures Together(ms, ports, trace, width, target, t, p, |ms|) == RunRam(ports, mem, trace)[t][p]
  {
    hide RunRam, Wide, WideMem, Stretch, Start, Together;
    TogetherTo(mem, ms, ports, trace, width, target, t, p, |ms|);
    LastStart(width, target);
    ReadWidths(mem, ports, trace, width, t, p);
    var word := RunRam(ports, mem, trace)[t][p];
    assert word[..width] == word;
  }
}
