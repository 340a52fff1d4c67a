/** The soft array multiplier: AND gates for the partial products and a chain of adders that sums them. */
module SoftMultiplier {
  import opened Binary
  import opened SoftAdder

  /** What an adder input or an output is connected to: Product(i, j) is the gate for bit i of b and bit j of a. */
  datatype Source = Unconnected | Zero | Product(row: nat, col: nat) | Sum(row: nat, bit: nat)

  /**
   * The built netlist. Input pins are a's bits, then b's; ands gives each gate's two input pins, adders each adder's
   * first operand followed by its second, and cells the adders' expansions.
   */
  datatype Multiplier = Multiplier(
    wa: nat, wb: nat, ands: seq<seq<(nat, nat)>>, adders: seq<seq<Source>>, outputs: seq<Source>, cells: seq<Adder>)

  // ----- Meaning -----

  /** A source that exists, counting only the first k adders. */
  predicate Exists(m: Multiplier, s: Source, k: nat) {
    match s
    case Unconnected => false
    case Zero => true
    case Product(i, j) => i < m.wb && j < m.wa
    case Sum(i, j) => i < k && j <= m.wa
  }

  predicate AdderWired(m: Multiplier, i: nat)
    requires i < |m.adders| == |m.cells|
  {
    && |m.adders[i]| == 2 * (m.wa + 1)
    && (forall k | 0 <= k < |m.adders[i]| :: Exists(m, m.adders[i][k], i))
    && WellWired(m.cells[i]) && m.cells[i].wa == m.cells[i].wb == |m.cells[i].adds| == m.wa + 1
  }

  predicate Wired(m: Multiplier) {
    match m case Multiplier(wa, wb, ands, adders, outputs, cells) =>
      && |ands| == wb && |adders| == |cells|
      && (forall i | 0 <= i < wb :: |ands[i]| == wa)
      && (forall i, j | 0 <= i < wb && 0 <= j < wa :: PinsExist(m, ands[i][j]))
      && (forall i | 0 <= i < |adders| :: AdderWired(m, i))
      && (forall i | 0 <= i < |outputs| :: Exists(m, outputs[i], |adders|))
  }

  predicate PinsExist(m: Multiplier, pins: (nat, nat)) {
    pins.0 < m.wa + m.wb && pins.1 < m.wa + m.wb
  }

  function Gate(m: Multiplier, pins: seq<bool>, i: nat, j: nat): bool
    requires Wired(m) && |pins| == m.wa + m.wb && i < m.wb && j < m.wa
  {
    assert PinsExist(m, m.ands[i][j]);
    pins[m.ands[i][j].0] && pins[m.ands[i][j].1]
  }

  function Value(m: Multiplier, pins: seq<bool>, s: Source, k: nat): bool
    requires Wired(m) && |pins| == m.wa + m.wb && k <= |m.adders| && Exists(m, s, k)
    decreases k, 0
  {
    match s
    case Unconnected => false
    case Zero => false
    case Product(i, j) => Gate(m, pins, i, j)
    case Sum(i, j) => AdderOut(m, pins, i)[j]
  }

  function Operand(m: Multiplier, pins: seq<bool>, i: nat, second: bool): (x: seq<bool>)
    requires Wired(m) && |pins| == m.wa + m.wb && i < |m.adders|
    ensures |x| == m.wa + 1
    decreases i, 1
  {
    assert AdderWired(m, i);
    var base := if second then m.wa + 1 else 0;
    seq(m.wa + 1, j requires 0 <= j < m.wa + 1 => Value(m, pins, m.adders[i][base + j], i))
  }

  /** The sum bits of adder i, from its expanded cells. */
  function AdderOut(m: Multiplier, pins: seq<bool>, i: nat): (x: seq<bool>)
    requires Wired(m) && |pins| == m.wa + m.wb && i < |m.adders|
    ensures |x| == m.wa + 1
    decreases i, 2
  {
    assert AdderWired(m, i);
    SumBits(m.cells[i], Operand(m, pins, i, false), Operand(m, pins, i, true))
  }

  function Outputs(m: Multiplier, pins: seq<bool>): seq<bool>
    requires Wired(m) && |pins| == m.wa + m.wb
  {
    seq(|m.outputs|, i requires 0 <= i < |m.outputs| => Value(m, pins, m.outputs[i], |m.adders|))
  }

  // ----- The construction -----

  /** Input k of adder i: one operand is the row before it shifted right, the other is partial product i + 1. */
  function AdderInput(wa: nat, i: nat, k: nat): Source {
    if k <= wa then
      if i == 0 then (if k + 1 < wa then Product(0, k + 1) else Zero)
      else if k < wa then Sum(i - 1, k + 1) else Zero
    else if k - wa - 1 < wa then Product(i + 1, k - wa - 1) else Zero
  }

  function Output(wb: nat, i: nat): Source
    requires wb >= 2
  {
    if i == 0 then Product(0, 0) else if i < wb - 1 then Sum(i - 1, 0) else Sum(wb - 2, i - (wb - 1))
  }

  predicate AndsBuilt(ands: seq<seq<(nat, nat)>>, wa: nat) {
    forall i | 0 <= i < |ands| :: AndRow(ands[i], wa, i) && |ands[i]| == wa
  }

  predicate AndRow(row: seq<(nat, nat)>, wa: nat, i: nat) {
    forall j | 0 <= j < |row| :: row[j] == (wa + i, j)
  }

  predicate AddersBuilt(adders: seq<seq<Source>>, wa: nat) {
    forall i | 0 <= i < |adders| :: AdderRow(adders[i], wa, i)
  }

  predicate AdderRow(row: seq<Source>, wa: nat, i: nat) {
    |row| == 2 * (wa + 1) && forall k | 0 <= k < |row| :: row[k] == AdderInput(wa, i, k)
  }

  predicate IsArray(m: Multiplier) {
    match m case Multiplier(wa, wb, ands, adders, outputs, cells) =>
      && wa > 0 && wb >= 2 && |ands| == wb && AndsBuilt(ands, wa)
      && |adders| == |cells| == wb - 1 && AddersBuilt(adders, wa)
      && |outputs| <= wa + wb && (forall i | 0 <= i < |outputs| :: outputs[i] == Output(wb, i))
      && forall i | 0 <= i < wb - 1 :: IsRipple(cells[i], wa + 1, wa + 1, wa + 1) && WellWired(cells[i])
  }

  /** OneBit is the error message for a multiplicand of one bit, NoSuchPin the failed assertion for an output past the last adder's. */
  datatype Outcome = Built(multiplier: Multiplier) | OneBit | NoSuchPin

  /** A multiplicand of one bit is rejected, and so are more outputs than both operands have bits; any other width is built. */
  method InstantiateSimpleSoftMultiplier(wa: nat, wb: nat, width: nat) returns (r: Outcome)
    requires wa > 0 && wb > 0 && width > 0
    ensures r.OneBit? <==> wb == 1
    ensures r.NoSuchPin? <==> wb >= 2 && width > wa + wb
    ensures r.Built? ==> IsArray(r.multiplier) && r.multiplier.wa == wa && r.multiplier.wb == wb && |r.multiplier.outputs| == width
  {
    var ands := ConnectGates(wa, wb);
    var adders := ConnectAdders(wa, wb);
    var outputs, currentIndex := [], 0;
    for i := 0 to width
      invariant |outputs| == i && (i > 0 ==> wb >= 2 && i <= wa + wb)
      invariant wb >= 2 ==> currentIndex == if i <= wb - 1 then 0 else i - (wb - 1)
      invariant wb >= 2 ==> forall k | 0 <= k < i :: outputs[k] == Output(wb, k)
    {
      if wb == 1 {
        return OneBit;
      } else if i == 0 {
        outputs := outputs + [Product(0, 0)];
      } else if i < wb - 1 {
        outputs := outputs + [Sum(i - 1, 0)];
      } else {
        if currentIndex >= wa + 1 {
          return NoSuchPin;
        }
        outputs := outputs + [Sum(wb - 2, currentIndex)];
        currentIndex := currentIndex + 1;
      }
    }
    var cells := [];
    for i := 0 to wb - 1
      invariant |cells| == i
      invariant forall k | 0 <= k < i :: IsRipple(cells[k], wa + 1, wa + 1, wa + 1) && WellWired(cells[k])
    {
      var cell := InstantiateAddWCarry(wa + 1, wa + 1, wa + 1);
      cells := cells + [cell];
    }
    r := Built(Multiplier(wa, wb, ands, adders, outputs, cells));
  }

  /** Each gate's first pin is copied along its row, its second down its column. */
  method ConnectGates(wa: nat, wb: nat) returns (ands: seq<seq<(nat, nat)>>)
    requires wa > 0
    ensures |ands| == wb && AndsBuilt(ands, wa)
  {
    ands := [];
    for i := 0 to wb
      invariant |ands| == i && AndsBuilt(ands, wa)
    {
      var row: seq<(nat, nat)> := [];
      for j := 0 to wa
        invariant |row| == j && AndRow(row, wa, i)
      {
        var first := if j == 0 then i + wa else row[0].0;
        var second := if i == 0 then j else ands[0][j].1;
        row := row + [(first, second)];
      }
      ands := ands + [row];
    }
  }

  method ConnectAdders(wa: nat, wb: nat) returns (adders: seq<seq<Source>>)
    requires wa > 0 && wb > 0
    ensures |adders| == wb - 1 && AddersBuilt(adders, wa)
  {
    adders := [];
    for i := 0 to wb - 1
      invariant |adders| == i && AddersBuilt(adders, wa)
    {
      var pins := new Source[2 * (wa + 1)](_ => Unconnected);
      for j := 0 to wa + 1
        invariant forall k | 0 <= k < j :: pins[k] == AdderInput(wa, i, k)
        invariant forall k | wa + 1 <= k < wa + 1 + j :: pins[k] == AdderInput(wa, i, k)
      {
        if i == 0 {
          pins[j] := if j + 1 < wa then Product(i, j + 1) else Zero;
        } else if j < wa {
          pins[j] := Sum(i - 1, j + 1);
        } else {
          pins[j] := Zero;
        }
        pins[j + wa + 1] := if j < wa then Product(i + 1, j) else Zero;
      }
      adders := adders + [pins[..]];
    }
  }

  lemma ArrayIsWired(m: Multiplier)
    requires IsArray(m)
    ensures Wired(m)
  {
    forall i | 0 <= i < m.wb ensures AndRow(m.ands[i], m.wa, i) && |m.ands[i]| == m.wa {
    }
    forall i, j | 0 <= i < m.wb && 0 <= j < m.wa ensures PinsExist(m, m.ands[i][j]) {
      assert AndRow(m.ands[i], m.wa, i);
    }
    forall i | 0 <= i < |m.adders| ensures AdderWired(m, i) {
      assert AdderRow(m.adders[i], m.wa, i);
    }
  }

  // ----- The product -----

  function PartialProduct(m: Multiplier, pins: seq<bool>, i: nat): (p: seq<bool>)
    requires Wired(m) && |pins| == m.wa + m.wb && i < m.wb
    ensures |p| == m.wa
  {
    seq(m.wa, j requires 0 <= j < m.wa => Gate(m, pins, i, j))
  }

  /** The running sum that enters adder i, before it is shifted right. */
  function Running(m: Multiplier, pins: seq<bool>, i: nat): (r: seq<bool>)
    requires Wired(m) && |pins| == m.wa + m.wb && i <= |m.adders| && m.wb > 0
    ensures |r| == m.wa + 1
  {
    if i == 0 then PartialProduct(m, pins, 0) + [false] else AdderOut(m, pins, i - 1)
  }

  /** The output bits below running sum i. */
  function Shifted(m: Multiplier, pins: seq<bool>, i: nat): (r: seq<bool>)
    requires Wired(m) && |pins| == m.wa + m.wb && i <= |m.adders| && m.wb > 0
    ensures |r| == i
  {
    if i == 0 then [] else Shifted(m, pins, i - 1) + [Running(m, pins, i - 1)[0]]
  }

  lemma {:induction false} GatesMultiply(a: seq<bool>, b: bool, row: seq<bool>)
    requires |row| == |a| && forall j | 0 <= j < |a| :: row[j] == (b && a[j])
    ensures Num(row) == Bit(b) * Num(a)
  {
    if a != [] {
      GatesMultiply(a[..|a| - 1], b, row[..|a| - 1]);
    }
  }

  lemma PartialProductIs(m: Multiplier, pins: seq<bool>, i: nat)
    requires IsArray(m) && Wired(m) && |pins| == m.wa + m.wb && i < m.wb
    ensures Num(PartialProduct(m, pins, i)) == Bit(pins[m.wa + i]) * Num(pins[..m.wa])
  {
    var row := PartialProduct(m, pins, i);
    assert AndRow(m.ands[i], m.wa, i);
    assert forall j | 0 <= j < m.wa :: row[j] == (pins[m.wa + i] && pins[..m.wa][j]);
    hide IsArray, Wired, PartialProduct, Num;
    GatesMultiply(pins[..m.wa], pins[m.wa + i], row);
  }

  lemma FirstOperand(m: Multiplier, pins: seq<bool>, i: nat, j: nat)
    requires IsArray(m) && Wired(m) && |pins| == m.wa + m.wb && i < m.wb - 1 && j <= m.wa
    ensures Operand(m, pins, i, false)[j] == if j < m.wa then Running(m, pins, i)[j + 1] else false
  {
    assert AdderRow(m.adders[i], m.wa, i) && AdderWired(m, i);
    assert m.adders[i][0 + j] == AdderInput(m.wa, i, j);
    assert Operand(m, pins, i, false)[j] == Value(m, pins, m.adders[i][0 + j], i);
  }

  lemma SecondOperand(m: Multiplier, pins: seq<bool>, i: nat, j: nat)
    requires IsArray(m) && Wired(m) && |pins| == m.wa + m.wb && i < m.wb - 1 && j <= m.wa
    ensures Operand(m, pins, i, true)[j] == if j < m.wa then PartialProduct(m, pins, i + 1)[j] else false
  {
    assert AdderRow(m.adders[i], m.wa, i) && AdderWired(m, i);
    assert m.adders[i][m.wa + 1 + j] == AdderInput(m.wa, i, m.wa + 1 + j);
    assert Operand(m, pins, i, true)[j] == Value(m, pins, m.adders[i][m.wa + 1 + j], i);
  }

  lemma OperandsAre(m: Multiplier, pins: seq<bool>, i: nat)
    requires IsArray(m) && Wired(m) && |pins| == m.wa + m.wb && i < m.wb - 1
    ensures Operand(m, pins, i, false) == Running(m, pins, i)[1..] + [false]
    ensures Operand(m, pins, i, true) == PartialProduct(m, pins, i + 1) + [false]
  {
    hide Wired, Operand, Running, PartialProduct;
    forall j: nat | j <= m.wa ensures Operand(m, pins, i, false)[j] == if j < m.wa then Running(m, pins, i)[j + 1] else false {
      FirstOperand(m, pins, i, j);
    }
    forall j: nat | j <= m.wa ensures Operand(m, pins, i, true)[j] == if j < m.wa then PartialProduct(m, pins, i + 1)[j] else false {
      SecondOperand(m, pins, i, j);
    }
  }

  lemma Sizes(m: Multiplier)
    requires IsArray(m)
    ensures m.wa > 0 && m.wb >= 2 && |m.adders| == m.wb - 1 && |m.outputs| <= m.wa + m.wb
  {
  }

  lemma NumZero(s: seq<bool>)
    ensures Num(s + [false]) == Num(s)
  {
    NumSnoc(s, false);
  }

  /** No adder of the array overflows: its sum fits in the row's wa + 1 bits. */
  lemma NoOverflow(m: Multiplier, pins: seq<bool>, i: nat)
    requires IsArray(m) && Wired(m) && |pins| == m.wa + m.wb && i < m.wb - 1
    ensures Num(Operand(m, pins, i, false)) + Num(Operand(m, pins, i, true)) < Pow2(m.wa + 1)
    ensures Num(AdderOut(m, pins, i)) == Num(Operand(m, pins, i, false)) + Num(Operand(m, pins, i, true))
  {
    hide IsArray, Wired, Num, Operand, Running, PartialProduct, AdderOut;
    Sizes(m);
    assert Pow2(m.wa + 1) == 2 * Pow2(m.wa);
    hide Pow2;
    AdderAdds(m, pins, i);
    OperandsAre(m, pins, i);
    var tail, p := Running(m, pins, i)[1..], PartialProduct(m, pins, i + 1);
    NumZero(tail);
    NumZero(p);
    NumBound(tail);
    NumBound(p);
    SmallRemainder(Num(tail) + Num(p), Pow2(m.wa + 1));
  }

  lemma AdderAdds(m: Multiplier, pins: seq<bool>, i: nat)
    requires IsArray(m) && Wired(m) && |pins| == m.wa + m.wb && i < m.wb - 1
    ensures Num(AdderOut(m, pins, i)) == (Num(Operand(m, pins, i, false)) + Num(Operand(m, pins, i, true))) % Pow2(m.wa + 1)
  {
    hide Num, Pow2, Operand;
    assert AdderWired(m, i) && IsRipple(m.cells[i], m.wa + 1, m.wa + 1, m.wa + 1);
    RippleAdds(m.cells[i], Operand(m, pins, i, false), Operand(m, pins, i, true), m.wa + 1);
  }

  /** Low bits below weight p and high bits from weight p on make up a product. */
  predicate MakesProduct(low: nat, p: nat, high: nat, a: nat, b: nat) {
    low + p * high == a * b
  }

  /** The bits shifted out and the running sum hold the product of a and b's bits 0 .. i. */
  lemma {:induction false} RunningProduct(m: Multiplier, pins: seq<bool>, i: nat)
    requires IsArray(m) && Wired(m) && |pins| == m.wa + m.wb && i < m.wb
    ensures |m.adders| == m.wb - 1
    ensures MakesProduct(Num(Shifted(m, pins, i)), Pow2(i), Num(Running(m, pins, i)), Num(pins[..m.wa]), Num(pins[m.wa..m.wa + i + 1]))
  {
    hide *;
    Sizes(m);
    if i == 0 {
      RunningStart(m, pins);
    } else {
      NumberGrows(m.wa, pins, i);
      PartialProductIs(m, pins, i);
      RunningProduct(m, pins, i - 1);
      RunningStep(m, pins, i - 1);
      ProductGrows(Num(Shifted(m, pins, i - 1)), Pow2(i - 1), Num(Running(m, pins, i - 1)), Num(pins[..m.wa]), Num(pins[m.wa..m.wa + i]),
                   Bit(pins[m.wa + i]), Bit(Running(m, pins, i - 1)[0]), Num(Running(m, pins, i)), Num(PartialProduct(m, pins, i)));
    }
  }

  lemma RunningStart(m: Multiplier, pins: seq<bool>)
    requires IsArray(m) && Wired(m) && |pins| == m.wa + m.wb
    ensures m.wb > 0
    ensures MakesProduct(Num(Shifted(m, pins, 0)), Pow2(0), Num(Running(m, pins, 0)), Num(pins[..m.wa]), Num(pins[m.wa..m.wa + 1]))
  {
    hide IsArray, Wired, PartialProduct;
    Sizes(m);
    NumZero(PartialProduct(m, pins, 0));
    PartialProductIs(m, pins, 0);
    NumberGrows(m.wa, pins, 0);
    assert pins[m.wa..m.wa] == [];
  }

  /** One more bit of b: the running sum loses its lowest bit and gains a partial product. */
  lemma ProductGrows(low: nat, p: nat, high: nat, a: nat, b: nat, bit: nat, out: nat, next: nat, partial: nat)
    requires MakesProduct(low, p, high, a, b)
    requires partial == bit * a && high + 2 * partial == out + 2 * next
    ensures MakesProduct(low + out * p, 2 * p, next, a, b + bit * (2 * p))
  {
    assert p * (high + 2 * partial) == p * (out + 2 * next);
    assert a * (bit * (2 * p)) == 2 * (p * (bit * a));
  }

  lemma NumberGrows(wa: nat, pins: seq<bool>, i: nat)
    requires wa + i < |pins|
    ensures Num(pins[wa..wa + i + 1]) == Num(pins[wa..wa + i]) + Bit(pins[wa + i]) * Pow2(i)
  {
    assert pins[wa..wa + i + 1] == pins[wa..wa + i] + [pins[wa + i]];
    NumSnoc(pins[wa..wa + i], pins[wa + i]);
  }

  lemma RunningStep(m: Multiplier, pins: seq<bool>, i: nat)
    requires IsArray(m) && Wired(m) && |pins| == m.wa + m.wb && i < m.wb - 1
    ensures Num(Shifted(m, pins, i + 1)) == Num(Shifted(m, pins, i)) + Bit(Running(m, pins, i)[0]) * Pow2(i)
    ensures Num(Running(m, pins, i)) + 2 * Num(PartialProduct(m, pins, i + 1)) == Bit(Running(m, pins, i)[0]) + 2 * Num(Running(m, pins, i + 1))
    ensures Pow2(i + 1) == 2 * Pow2(i)
  {
    hide IsArray, Wired, Num, Operand, PartialProduct, AdderOut;
    Sizes(m);
    assert Running(m, pins, i + 1) == AdderOut(m, pins, i);
    hide Running;
    NumSnoc(Shifted(m, pins, i), Running(m, pins, i)[0]);
    NoOverflow(m, pins, i);
    OperandsAre(m, pins, i);
    var r := Running(m, pins, i);
    NumZero(r[1..]);
    NumZero(PartialProduct(m, pins, i + 1));
    NumCons(r[0], r[1..]);
    assert r == [r[0]] + r[1..];
  }

  lemma {:induction false} ShiftedAt(m: Multiplier, pins: seq<bool>, i: nat, k: nat)
    requires Wired(m) && |pins| == m.wa + m.wb && k < i <= |m.adders| && m.wb > 0
    ensures Shifted(m, pins, i)[k] == Running(m, pins, k)[0]
  {
    hide Wired, Running;
    if k < i - 1 {
      ShiftedAt(m, pins, i - 1, k);
    }
  }

  lemma OutputAt(m: Multiplier, pins: seq<bool>, i: nat)
    requires IsArray(m) && Wired(m) && |pins| == m.wa + m.wb && i < |m.outputs|
    ensures Outputs(m, pins)[i] == if i < m.wb - 1 then Running(m, pins, i)[0] else Running(m, pins, m.wb - 1)[i - (m.wb - 1)]
  {
    assert m.outputs[i] == Output(m.wb, i) && Exists(m, m.outputs[i], |m.adders|);
  }

  lemma OutputsAre(m: Multiplier, pins: seq<bool>)
    requires IsArray(m) && Wired(m) && |pins| == m.wa + m.wb
    ensures Outputs(m, pins) == (Shifted(m, pins, m.wb - 1) + Running(m, pins, m.wb - 1))[..|m.outputs|]
  {
    hide IsArray, Wired, Running, Shifted;
    Sizes(m);
    var all := Shifted(m, pins, m.wb - 1) + Running(m, pins, m.wb - 1);
    var outs := Outputs(m, pins);
    assert |outs| == |m.outputs|;
    hide Outputs;
    forall i | 0 <= i < |m.outputs| ensures outs[i] == all[i] {
      OutputAt(m, pins, i);
      if i < m.wb - 1 {
        ShiftedAt(m, pins, m.wb - 1, i);
      }
    }
  }

  /** The remainder of a product. */
  function ProductModulo(a: nat, b: nat, m: nat): nat
    requires m > 0
  {
    (a * b) % m
  }

  /**
   * The array of gates and adders multiplies: its outputs are the product of the unsigned operands modulo 2^width, and
   * so the product itself when they are as wide as both operands together.
   */
  lemma ArrayMultiplies(m: Multiplier, a: seq<bool>, b: seq<bool>)
    requires IsArray(m) && |a| == m.wa && |b| == m.wb
    ensures Wired(m)
    ensures Num(Outputs(m, a + b)) == ProductModulo(Num(a), Num(b), Pow2(|m.outputs|))
    ensures |m.outputs| == |a| + |b| ==> Num(Outputs(m, a + b)) == Num(a) * Num(b)
  {
    hide *;
    Sizes(m);
    ArrayIsWired(m);
    var pins, k := a + b, |b| - 1;
    assert pins[|a|..|a| + k + 1] == b && pins[..|a|] == a;
    RunningProduct(m, pins, k);
    OutputsNum(m, pins, Num(a), Num(b));
  }

  lemma OutputsNum(m: Multiplier, pins: seq<bool>, a: nat, b: nat)
    requires IsArray(m) && Wired(m) && |pins| == m.wa + m.wb && |m.adders| == m.wb - 1
    requires MakesProduct(Num(Shifted(m, pins, m.wb - 1)), Pow2(m.wb - 1), Num(Running(m, pins, m.wb - 1)), a, b)
    ensures Num(Outputs(m, pins)) == ProductModulo(a, b, Pow2(|m.outputs|))
    ensures |m.outputs| == m.wa + m.wb ==> Num(Outputs(m, pins)) == a * b
  {
    hide IsArray, Wired, Running, Shifted, Num, Pow2, Outputs;
    Sizes(m);
    OutputsAre(m, pins);
    var low, high := Shifted(m, pins, m.wb - 1), Running(m, pins, m.wb - 1);
    NumAppend(low, high);
    NumPrefix(low + high, |m.outputs|);
    assert |m.outputs| == |low + high| ==> (low + high)[..|m.outputs|] == low + high;
  }
}
