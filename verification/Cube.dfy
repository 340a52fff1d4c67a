/** Cubes: one two-bit literal per input, sixteen to a 32-bit word, after a leading word that holds no literal. */
module Cube {
  // ----- Sets packed in words -----

  function WhichWord(e: nat): nat {
    e / 32 + 1
  }

  function WhichBit(e: nat): bv5 {
    (e % 32) as bv5
  }

  /** Words allocated for a set of so many elements. */
  function SetSize(n: nat): nat {
    if n <= 32 then 2 else WhichWord(n - 1) + 1
  }

  lemma SizeFits(n: nat, e: nat)
    requires e < n
    ensures WhichWord(e) < SetSize(n)
  {
  }

  predicate TestBit(w: bv32, b: bv5) {
    (w >> b) & 1 == 1
  }

  function WithBit(w: bv32, b: bv5): bv32 {
    w | (1 << b)
  }

  function WithoutBit(w: bv32, b: bv5): bv32 {
    w & !(1 << b)
  }

  predicate Member(words: seq<bv32>, e: nat)
    requires WhichWord(e) < |words|
  {
    TestBit(words[WhichWord(e)], WhichBit(e))
  }

  function Inserted(words: seq<bv32>, e: nat): seq<bv32>
    requires WhichWord(e) < |words|
  {
    words[WhichWord(e) := WithBit(words[WhichWord(e)], WhichBit(e))]
  }

  function Removed(words: seq<bv32>, e: nat): seq<bv32>
    requires WhichWord(e) < |words|
  {
    words[WhichWord(e) := WithoutBit(words[WhichWord(e)], WhichBit(e))]
  }

  lemma OrBit(w: bv32, b: bv5, c: bv5)
    ensures TestBit(WithBit(w, b), c) == (b == c || TestBit(w, c))
  {
  }

  lemma AndNotBit(w: bv32, b: bv5, c: bv5)
    ensures TestBit(WithoutBit(w, b), c) == (b != c && TestBit(w, c))
  {
  }

  lemma BitRoundTrip(b: nat)
    requires b < 32
    ensures (b as bv5) as nat == b
  {
  }

  /** Distinct elements of one word are distinct bits. */
  lemma DistinctBits(e: nat, f: nat)
    requires e != f && WhichWord(e) == WhichWord(f)
    ensures WhichBit(e) != WhichBit(f)
  {
    BitRoundTrip(e % 32);
    BitRoundTrip(f % 32);
  }

  lemma InsertedMembers(words: seq<bv32>, e: nat, f: nat)
    requires WhichWord(e) < |words| && WhichWord(f) < |words|
    ensures Member(Inserted(words, e), f) == (e == f || Member(words, f))
  {
    hide WhichWord, WhichBit, TestBit, WithBit, WithoutBit;
    OrBit(words[WhichWord(e)], WhichBit(e), WhichBit(f));
    if e != f && WhichWord(e) == WhichWord(f) {
      DistinctBits(e, f);
    }
  }

  lemma RemovedMembers(words: seq<bv32>, e: nat, f: nat)
    requires WhichWord(e) < |words| && WhichWord(f) < |words|
    ensures Member(Removed(words, e), f) == (e != f && Member(words, f))
  {
    hide WhichWord, WhichBit, TestBit, WithBit, WithoutBit;
    AndNotBit(words[WhichWord(e)], WhichBit(e), WhichBit(f));
    if e != f && WhichWord(e) == WhichWord(f) {
      DistinctBits(e, f);
    }
  }

  // ----- Literals -----

  datatype Literal = Bad | Zero | One | Two

  function Decode(v: bv32): Literal {
    if v == 1 then Zero else if v == 2 then One else if v == 3 then Two else Bad
  }

  /** node_get_literal: two adjacent bits read at once. */
  function GetLiteral(words: seq<bv32>, i: nat): Literal
    requires WhichWord(2 * i) < |words|
  {
    Decode((words[WhichWord(2 * i)] >> WhichBit(2 * i)) & 3)
  }

  /** The literal that two members make. */
  function Pair(low: bool, high: bool): Literal {
    if low then (if high then Two else Zero) else if high then One else Bad
  }

  lemma TwoBits(w: bv32, b: bv5)
    requires b < 31
    ensures Decode((w >> b) & 3) == Pair(TestBit(w, b), TestBit(w, b + 1))
  {
  }

  lemma SuccessorBit(k: nat)
    requires k < 16
    ensures (2 * k) as bv5 < 31 && (2 * k + 1) as bv5 == (2 * k) as bv5 + 1
  {
    var b := (2 * k) as bv5;
    BitRoundTrip(2 * k);
    BitRoundTrip(2 * k + 1);
    assert b < 31;
    assert (b + 1) as nat == 2 * k + 1;
  }

  lemma Adjacent(i: nat)
    ensures WhichWord(2 * i + 1) == WhichWord(2 * i)
    ensures WhichBit(2 * i) < 31 && WhichBit(2 * i + 1) == WhichBit(2 * i) + 1
  {
    Halves(i);
    SuccessorBit(i % 16);
  }

  lemma Halves(i: nat)
    ensures (2 * i) % 32 == 2 * (i % 16) && (2 * i + 1) % 32 == 2 * (i % 16) + 1
    ensures (2 * i + 1) / 32 == (2 * i) / 32
  {
  }

  /** A literal never straddles two words: it is the pair of its two members. */
  lemma LiteralIsPair(words: seq<bv32>, i: nat)
    requires WhichWord(2 * i) < |words|
    ensures WhichWord(2 * i + 1) == WhichWord(2 * i)
    ensures GetLiteral(words, i) == Pair(Member(words, 2 * i), Member(words, 2 * i + 1))
  {
    hide WhichWord, WhichBit, TestBit, Decode;
    Adjacent(i);
    TwoBits(words[WhichWord(2 * i)], WhichBit(2 * i));
  }

  predicate Fits(words: seq<bv32>, n: nat) {
    |words| >= SetSize(2 * n)
  }

  lemma FitsLiteral(words: seq<bv32>, n: nat, i: nat)
    requires Fits(words, n) && i < n
    ensures WhichWord(2 * i) < |words| && WhichWord(2 * i + 1) < |words|
  {
    SizeFits(2 * n, 2 * i);
    SizeFits(2 * n, 2 * i + 1);
  }

  /** Both members of a literal set at once. */
  function SetLiteral(words: seq<bv32>, i: nat, low: bool, high: bool): (r: seq<bv32>)
    requires WhichWord(2 * i) < |words| && WhichWord(2 * i + 1) < |words|
    ensures |r| == |words|
  {
    var s := if low then Inserted(words, 2 * i) else Removed(words, 2 * i);
    if high then Inserted(s, 2 * i + 1) else Removed(s, 2 * i + 1)
  }

  /** Setting a literal sets it and no other. */
  lemma SetLiteralExact(words: seq<bv32>, n: nat, i: nat, low: bool, high: bool, j: nat)
    requires Fits(words, n) && i < n && j < n && WhichWord(2 * i) < |words| && WhichWord(2 * i + 1) < |words| && WhichWord(2 * j) < |words|
    ensures GetLiteral(SetLiteral(words, i, low, high), j) == if i == j then Pair(low, high) else GetLiteral(words, j)
  {
    hide GetLiteral, Member, Inserted, Removed, WhichWord;
    FitsLiteral(words, n, j);
    var next := SetLiteral(words, i, low, high);
    LiteralIsPair(words, j);
    LiteralIsPair(next, j);
    SetMembers(words, i, low, high, 2 * j);
    SetMembers(words, i, low, high, 2 * j + 1);
  }

  lemma SetMembers(words: seq<bv32>, i: nat, low: bool, high: bool, f: nat)
    requires WhichWord(2 * i) < |words| && WhichWord(2 * i + 1) < |words| && WhichWord(f) < |words|
    ensures Member(SetLiteral(words, i, low, high), f)
         == if f == 2 * i then low else if f == 2 * i + 1 then high else Member(words, f)
  {
    hide Member, WhichWord, WhichBit, WithBit, WithoutBit, TestBit;
    var s := if low then Inserted(words, 2 * i) else Removed(words, 2 * i);
    InsertedMembers(words, 2 * i, f);
    RemovedMembers(words, 2 * i, f);
    InsertedMembers(s, 2 * i + 1, f);
    RemovedMembers(s, 2 * i + 1, f);
  }

  /** The literals of the first n inputs. */
  function Literals(words: seq<bv32>, n: nat): (ls: seq<Literal>)
    requires Fits(words, n)
    ensures |ls| == n
  {
    seq(n, i requires 0 <= i < n => FitsLiteral(words, n, i); GetLiteral(words, i))
  }

  lemma SetLiterals(words: seq<bv32>, n: nat, i: nat, low: bool, high: bool)
    requires Fits(words, n) && i < n && WhichWord(2 * i) < |words| && WhichWord(2 * i + 1) < |words|
    ensures Literals(SetLiteral(words, i, low, high), n) == Literals(words, n)[i := Pair(low, high)]
  {
    hide GetLiteral, SetLiteral, WhichWord;
    var next := SetLiteral(words, i, low, high);
    forall j: nat | j < n ensures Literals(next, n)[j] == Literals(words, n)[i := Pair(low, high)][j] {
      FitsLiteral(words, n, j);
      SetLiteralExact(words, n, i, low, high, j);
    }
  }

  // ----- The object -----

  predicate Proper(ls: seq<Literal>) {
    forall i | 0 <= i < |ls| :: ls[i] != Bad
  }

  class PackedCube {
    const numLiterals: nat
    const words: array<bv32>

    predicate Valid()
      reads words
    {
      Fits(words[..], numLiterals)
    }

    /** The cube's literals. */
    ghost function Lits(): (ls: seq<Literal>)
      requires Valid()
      reads words
      ensures |ls| == numLiterals
    {
      Literals(words[..], numLiterals)
    }

    /** Zeroed words for so many literals. */
    constructor Clear(n: nat)
      ensures Valid() && numLiterals == n && fresh(words)
    {
      numLiterals := n;
      words := new bv32[SetSize(2 * n)](_ => 0);
    }

    method Insert(e: nat)
      requires WhichWord(e) < words.Length
      modifies words
      ensures words[..] == Inserted(old(words[..]), e)
    {
      hide WithBit;
      words[WhichWord(e)] := WithBit(words[WhichWord(e)], WhichBit(e));
    }

    method Remove(e: nat)
      requires WhichWord(e) < words.Length
      modifies words
      ensures words[..] == Removed(old(words[..]), e)
    {
      hide WithoutBit;
      words[WhichWord(e)] := WithoutBit(words[WhichWord(e)], WhichBit(e));
    }

    method Set(i: nat, low: bool, high: bool)
      requires Valid() && i < numLiterals
      modifies words
      ensures Valid() && Lits() == old(Lits())[i := Pair(low, high)]
    {
      hide Inserted, Removed, WhichWord, WhichBit;
      FitsLiteral(words[..], numLiterals, i);
      SetLiterals(words[..], numLiterals, i, low, high);
      if low {
        Insert(2 * i);
      } else {
        Remove(2 * i);
      }
      if high {
        Insert(2 * i + 1);
      } else {
        Remove(2 * i + 1);
      }
    }

    method Get(i: nat) returns (l: Literal)
      requires Valid() && i < numLiterals
      ensures l == Lits()[i]
    {
      FitsLiteral(words[..], numLiterals, i);
      l := GetLiteral(words[..], i);
    }

    /** ace_cube_new_dc: every literal don't-care. */
    constructor DontCare(n: nat)
      ensures Valid() && numLiterals == n && fresh(words)
      ensures forall i | 0 <= i < n :: Lits()[i] == Two
    {
      numLiterals := n;
      words := new bv32[SetSize(2 * n)](_ => 0);
      new;
      for i := 0 to n
        invariant Valid()
        invariant forall k | 0 <= k < i :: Lits()[k] == Two
      {
        Set(i, true, true);
      }
    }

    /** ace_cube_dup: a fresh cube with the same literals, or none if some literal is bad. */
    method Dup() returns (c: PackedCube?)
      requires Valid() && numLiterals > 0
      ensures c == null <==> !Proper(Lits())
      ensures c != null ==> fresh(c) && fresh(c.words) && c.Valid() && c.numLiterals == numLiterals && c.Lits() == Lits()
    {
      var copy := new PackedCube.Clear(numLiterals);
      for i := 0 to numLiterals
        invariant fresh(copy.words) && copy.Valid()
        invariant words[..] == old(words[..])
        invariant forall k | 0 <= k < i :: Lits()[k] != Bad && copy.Lits()[k] == Lits()[k]
      {
        var literal := Get(i);
        match literal {
          case Zero => copy.Set(i, true, false);
          case One => copy.Set(i, false, true);
          case Two => copy.Set(i, true, true);
          case Bad => return null;
        }
      }
      return copy;
    }
  }
}
