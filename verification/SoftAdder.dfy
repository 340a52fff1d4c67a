/** Expanding an adder node into one sum cell and one carry cell per output bit. */
module SoftAdder {
  import opened Binary

  /** What an input of a cell is connected to. */
  datatype Wire = Open | Ground | A(bit: nat) | B(bit: nat) | Carry(cell: nat)

  datatype Cell = Cell(cin: Wire, a: Wire, b: Wire)

  /** The cells of an adder with operand widths wa and wb. */
  datatype Adder = Adder(wa: nat, wb: nat, adds: seq<Cell>, carries: seq<Cell>)

  // ----- Meaning -----

  /** Cell i's inputs are operand bits, ground, or the carry of an earlier cell. */
  predicate Connected(n: Adder, w: Wire, i: nat) {
    match w
    case Open => false
    case Ground => true
    case A(k) => k < n.wa
    case B(k) => k < n.wb
    case Carry(k) => k < i
  }

  predicate CellConnected(n: Adder, c: Cell, i: nat) {
    Connected(n, c.cin, i) && Connected(n, c.a, i) && Connected(n, c.b, i)
  }

  /** Every cell is connected, except that the last carry cell need not be. */
  predicate WellWired(n: Adder) {
    && |n.adds| == |n.carries|
    && (forall i | 0 <= i < |n.adds| :: CellConnected(n, n.adds[i], i))
    && (forall i | 0 <= i < |n.carries| - 1 :: CellConnected(n, n.carries[i], i))
  }

  function WireBit(n: Adder, x: seq<bool>, y: seq<bool>, w: Wire, i: nat): bool
    requires WellWired(n) && |x| == n.wa && |y| == n.wb && i < |n.adds| && Connected(n, w, i)
    decreases i, 0
  {
    match w
    case Open => false
    case Ground => false
    case A(k) => x[k]
    case B(k) => y[k]
    case Carry(k) => CarryBit(n, x, y, k)
  }

  /** A carry cell is 1 when two of its inputs are. */
  function CarryBit(n: Adder, x: seq<bool>, y: seq<bool>, i: nat): bool
    requires WellWired(n) && |x| == n.wa && |y| == n.wb && i < |n.adds| - 1
    decreases i, 1
  {
    var c := WireBit(n, x, y, n.carries[i].cin, i);
    var a := WireBit(n, x, y, n.carries[i].a, i);
    var b := WireBit(n, x, y, n.carries[i].b, i);
    (c && (a || b)) || (a && b)
  }

  /** A sum cell is 1 when an odd number of its inputs are. */
  function SumBit(n: Adder, x: seq<bool>, y: seq<bool>, i: nat): bool
    requires WellWired(n) && |x| == n.wa && |y| == n.wb && i < |n.adds|
  {
    var c := WireBit(n, x, y, n.adds[i].cin, i);
    var a := WireBit(n, x, y, n.adds[i].a, i);
    var b := WireBit(n, x, y, n.adds[i].b, i);
    (c != a) != b
  }

  function SumBits(n: Adder, x: seq<bool>, y: seq<bool>): seq<bool>
    requires WellWired(n) && |x| == n.wa && |y| == n.wb
  {
    seq(|n.adds|, i requires 0 <= i < |n.adds| => SumBit(n, x, y, i))
  }

  // ----- The construction -----

  function Full(i: nat, wa: nat, wb: nat): Cell {
    Cell(if i == 0 then Ground else Carry(i - 1), if i < wa then A(i) else Ground, if i < wb then B(i) else Ground)
  }

  /** A ripple-carry adder. */
  predicate IsRipple(n: Adder, wa: nat, wb: nat, width: nat) {
    && n.wa == wa && n.wb == wb && |n.adds| == |n.carries| == width
    && (forall i | 0 <= i < width :: n.adds[i] == Full(i, wa, wb))
    && (forall i | 0 <= i < width - 1 :: n.carries[i] == Full(i, wa, wb))
  }

  /** Of n cells, the first i have their operands; the first one's carry in is grounded, the others' are open. */
  ghost predicate Operands(cells: seq<Cell>, i: nat, n: nat, wa: nat, wb: nat) {
    && i <= n <= |cells|
    && (forall k | 0 <= k < n :: cells[k].cin == (if k == 0 then Ground else Open))
    && (forall k | 0 <= k < i :: cells[k] == Full(k, wa, wb).(cin := cells[k].cin))
  }

  /** Bit i of both operands, or ground above their widths. */
  method ConnectOperands(cells: array<Cell>, i: nat, ghost n: nat, wa: nat, wb: nat)
    requires i < n && Operands(cells[..], i, n, wa, wb)
    modifies cells
    ensures Operands(cells[..], i + 1, n, wa, wb)
  {
    cells[i] := cells[i].(a := if i < wa then A(i) else Ground);
    cells[i] := cells[i].(b := if i < wb then B(i) else Ground);
  }

  method InstantiateAddWCarry(wa: nat, wb: nat, width: nat) returns (n: Adder)
    requires width > 0
    ensures IsRipple(n, wa, wb, width) && WellWired(n)
  {
    var adds := new Cell[width](_ => Cell(Open, Open, Open));
    var carries := new Cell[width](_ => Cell(Open, Open, Open));
    adds[0] := adds[0].(cin := Ground);
    if width > 1 {
      carries[0] := carries[0].(cin := Ground);
    }
    assert Operands(adds[..], 0, width, wa, wb) && Operands(carries[..], 0, width - 1, wa, wb);
    for i := 0 to width
      invariant Operands(adds[..], i, width, wa, wb)
      invariant Operands(carries[..], if i < width - 1 then i else width - 1, width - 1, wa, wb)
    {
      ConnectOperands(adds, i, width, wa, wb);
      if i < width - 1 {
        ConnectOperands(carries, i, width - 1, wa, wb);
      }
    }
    ConnectCarries(adds, carries, wa, wb);
    n := Adder(wa, wb, adds[..], carries[..]);
  }

  /** Carry outs to the carry ins of the next bit. */
  method ConnectCarries(adds: array<Cell>, carries: array<Cell>, wa: nat, wb: nat)
    requires adds != carries && adds.Length == carries.Length > 0
    requires Operands(adds[..], adds.Length, adds.Length, wa, wb)
    requires Operands(carries[..], adds.Length - 1, adds.Length - 1, wa, wb)
    modifies adds, carries
    ensures forall k | 0 <= k < adds.Length :: adds[k] == Full(k, wa, wb)
    ensures forall k | 0 <= k < adds.Length - 1 :: carries[k] == Full(k, wa, wb)
  {
    var width := adds.Length;
    for i := 1 to width
      invariant forall k | 0 <= k < i :: adds[k] == Full(k, wa, wb)
      invariant forall k | 0 <= k < i && k < width - 1 :: carries[k] == Full(k, wa, wb)
      invariant forall k | i <= k < width :: adds[k] == Full(k, wa, wb).(cin := adds[k].cin)
      invariant forall k | i <= k < width - 1 :: carries[k] == Full(k, wa, wb).(cin := carries[k].cin)
    {
      adds[i] := adds[i].(cin := Carry(i - 1));
      if i < width - 1 {
        carries[i] := carries[i].(cin := Carry(i - 1));
      }
    }
  }

  // ----- The sum -----

  /** Bit i of an operand, grounded above its width. */
  function Padded(x: seq<bool>, i: nat): bool {
    if i < |x| then x[i] else false
  }

  function Low(x: seq<bool>, k: nat): (r: seq<bool>)
    ensures |r| == k
  {
    seq(k, i requires 0 <= i => Padded(x, i))
  }

  function CarryIn(n: Adder, x: seq<bool>, y: seq<bool>, i: nat): bool
    requires WellWired(n) && |x| == n.wa && |y| == n.wb && i < |n.adds|
  {
    i > 0 && CarryBit(n, x, y, i - 1)
  }

  lemma FullBits(n: Adder, x: seq<bool>, y: seq<bool>, i: nat, width: nat)
    requires IsRipple(n, |x|, |y|, width) && WellWired(n) && i < width
    ensures var c := CarryIn(n, x, y, i); var a := Padded(x, i); var b := Padded(y, i);
            && SumBit(n, x, y, i) == ((c != a) != b)
            && (i + 1 < width ==> CarryIn(n, x, y, i + 1) == ((c && (a || b)) || (a && b)))
  {
  }

  lemma LowSnoc(x: seq<bool>, k: nat)
    ensures Num(Low(x, k + 1)) == Num(Low(x, k)) + Bit(Padded(x, k)) * Pow2(k)
  {
    assert Low(x, k + 1)[..k] == Low(x, k);
  }

  lemma {:induction false} LowNum(x: seq<bool>, k: nat)
    ensures Num(Low(x, k)) == Num(x) % Pow2(k)
  {
    if k <= |x| {
      assert Low(x, k) == x[..k];
      NumPrefix(x, k);
    } else {
      LowNum(x, k - 1);
      LowSnoc(x, k - 1);
      NumBound(x);
      LowFits(x, k - 1);
      SmallRemainder(Num(x), Pow2(k));
    }
  }

  lemma {:induction false} LowFits(x: seq<bool>, k: nat)
    requires k >= |x|
    ensures Num(Low(x, k)) == Num(x) && Num(x) < Pow2(k) <= Pow2(k + 1)
  {
    NumBound(x);
    if k == |x| {
      assert Low(x, k) == x;
    } else {
      LowFits(x, k - 1);
      LowSnoc(x, k - 1);
    }
  }

  lemma SmallRemainder(x: nat, m: nat)
    requires x < m
    ensures x % m == x
  {
  }

  /** Sum cells so far and the pending carry hold the sum of the operands' low bits. */
  lemma {:induction false} RippleInvariant(n: Adder, x: seq<bool>, y: seq<bool>, width: nat, k: nat)
    requires IsRipple(n, |x|, |y|, width) && WellWired(n) && k < width
    ensures Num(SumBits(n, x, y)[..k]) + Bit(CarryIn(n, x, y, k)) * Pow2(k) == Num(Low(x, k)) + Num(Low(y, k))
  {
    if k > 0 {
      hide Num, SumBits, Low, CarryIn, WellWired, IsRipple, Padded, SumBit, Pow2;
      RippleInvariant(n, x, y, width, k - 1);
      RippleStep(n, x, y, width, k - 1);
      FullBits(n, x, y, k - 1, width);
      var c, a, b := CarryIn(n, x, y, k - 1), Padded(x, k - 1), Padded(y, k - 1);
      TopBit(Bit(c), Bit(a), Bit(b), Bit((c != a) != b), Bit((c && (a || b)) || (a && b)), Pow2(k - 1));
    }
  }

  /** A full adder at weight 2^k. */
  lemma RippleStep(n: Adder, x: seq<bool>, y: seq<bool>, width: nat, k: nat)
    requires IsRipple(n, |x|, |y|, width) && WellWired(n) && k < width
    ensures Num(SumBits(n, x, y)[..k + 1]) == Num(SumBits(n, x, y)[..k]) + Bit(SumBit(n, x, y, k)) * Pow2(k)
    ensures Num(Low(x, k + 1)) == Num(Low(x, k)) + Bit(Padded(x, k)) * Pow2(k)
    ensures Num(Low(y, k + 1)) == Num(Low(y, k)) + Bit(Padded(y, k)) * Pow2(k)
    ensures Pow2(k + 1) == 2 * Pow2(k)
  {
    LowSnoc(x, k);
    LowSnoc(y, k);
    var s := SumBits(n, x, y);
    assert s[..k + 1] == s[..k] + [s[k]];
    NumSnoc(s[..k], s[k]);
  }

  /** Only a carry out of the top bit is lost. */
  lemma RippleTotal(n: Adder, x: seq<bool>, y: seq<bool>, width: nat) returns (over: nat)
    requires IsRipple(n, |x|, |y|, width) && WellWired(n) && width > 0
    ensures Num(Low(x, width)) + Num(Low(y, width)) == Num(SumBits(n, x, y)) + over * Pow2(width)
  {
    var k := width - 1;
    RippleInvariant(n, x, y, width, k);
    RippleStep(n, x, y, width, k);
    FullBits(n, x, y, k, width);
    assert SumBits(n, x, y)[..width] == SumBits(n, x, y);
    var c, a, b := CarryIn(n, x, y, k), Padded(x, k), Padded(y, k);
    hide Num, SumBits, Low, CarryIn, WellWired, IsRipple, Padded, SumBit, Pow2;
    over := Bit((c && (a || b)) || (a && b));
    TopBit(Bit(c), Bit(a), Bit(b), Bit((c != a) != b), over, Pow2(k));
  }

  /** The expanded adder adds, modulo 2^width, operands of any widths. */
  lemma RippleAdds(n: Adder, x: seq<bool>, y: seq<bool>, width: nat)
    requires IsRipple(n, |x|, |y|, width) && WellWired(n) && width > 0
    ensures |SumBits(n, x, y)| == width
    ensures Num(SumBits(n, x, y)) == (Num(x) + Num(y)) % Pow2(width)
  {
    hide Num, Low, WellWired, Pow2;
    var over := RippleTotal(n, x, y, width);
    LowNum(x, width);
    LowNum(y, width);
    NumBound(SumBits(n, x, y));
    SumModulo(Num(x), Num(y), Num(SumBits(n, x, y)), over, Pow2(width));
  }

  lemma TopBit(c: nat, a: nat, b: nat, s: nat, over: nat, p: nat)
    requires c + a + b == s + 2 * over
    ensures c * p + a * p + b * p == s * p + over * (2 * p)
  {
    assert (c + a + b) * p == (s + 2 * over) * p;
  }

  lemma SumModulo(x: nat, y: nat, s: nat, over: nat, m: nat)
    requires m > 0 && s < m && x % m + y % m == s + over * m
    ensures s == (x + y) % m
  {
    var q := x / m + y / m + over;
    assert x == m * (x / m) + x % m && y == m * (y / m) + y % m;
    assert x + y == m * q + s by { assert m * q == m * (x / m) + m * (y / m) + m * over; }
    Remainder(x + y, q, s, m);
  }
}
