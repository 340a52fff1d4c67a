/** What decoding makes of every kind of text: line ends, numeric references as strtol reads them, named ones, and the rest. */
module XmlReferences {
  import opened XmlDecode

  // ----- Line ends -----

  predicate EndsSplit(a: string, b: string) {
    a != "" && b != "" && a[|a| - 1] == '\r' && b[0] == '\n'
  }

  /** Normalization works piece by piece, unless a CR LF is cut in two. */
  lemma {:induction false} NormalizeAppend(a: string, b: string)
    requires !EndsSplit(a, b)
    ensures Normalize(a + b) == Normalize(a) + Normalize(b)
  {
    if a == "" {
      assert a + b == b;
    } else if LineEndAt(a, 0) {
      assert (a + b)[2..] == a[2..] + b;
      NormalizeAppend(a[2..], b);
    } else {
      assert (a + b)[1..] == a[1..] + b;
      assert LineEndAt(a + b, 0) ==> |a| == 1 && EndsSplit(a, b);
      NormalizeAppend(a[1..], b);
    }
  }

  /** A CR is a line feed, with or without a line feed after it, and every other character is itself. */
  lemma NormalizePieces(c: char)
    ensures Normalize("\r\n") == "\n" && Normalize("\r") == "\n"
    ensures c != '\r' ==> Normalize([c]) == [c]
  {
    assert "\r\n"[2..] == "" && "\r"[1..] == "" && [c][1..] == "";
  }

  // ----- Numerals -----

  const LOWER: string := "0123456789abcdef"
  const UPPER: string := "0123456789ABCDEF"
  const WHITE: string := " \t\n\U{0B}\U{0C}\r"

  predicate IsBase(base: nat) {
    base == 10 || base == 16
  }

  /** The character stands for digit d, a letter in either case. */
  predicate Writes(c: char, d: nat) {
    d < 16 && (c == LOWER[d] || c == UPPER[d])
  }

  /** The text writes these digits of the base. */
  predicate Numeral(ds: string, digits: seq<nat>, base: nat) {
    |ds| == |digits| && forall k | 0 <= k < |digits| :: digits[k] < base && Writes(ds[k], digits[k])
  }

  /** The number that digits stand for, most significant first. */
  function ValueOf(digits: seq<nat>, base: nat): nat {
    if digits == [] then 0 else ValueOf(digits[..|digits| - 1], base) * base + digits[|digits| - 1]
  }

  lemma Sixteen(d: nat)
    requires d < 16
    ensures LOWER[d] as int == if d < 10 then '0' as int + d else 'a' as int + d - 10
    ensures UPPER[d] as int == if d < 10 then '0' as int + d else 'A' as int + d - 10
  {
    assert d == 0 || d == 1 || d == 2 || d == 3 || d == 4 || d == 5 || d == 6 || d == 7
        || d == 8 || d == 9 || d == 10 || d == 11 || d == 12 || d == 13 || d == 14 || d == 15;
  }

  lemma DigitIs(c: char, d: nat, base: nat)
    requires Writes(c, d) && IsBase(base)
    ensures Digit(c, base) == if d < base then d else -1
    ensures !IsSpace(c) && c !in "+-;xX&"
  {
    Sixteen(d);
  }

  lemma DigitOf(c: char, base: nat) returns (d: nat)
    requires IsBase(base) && Digit(c, base) >= 0
    ensures d < base && Writes(c, d)
  {
    d := Digit(c, base);
    Sixteen(d);
  }

  /** Nothing that could go on with the numeral. */
  predicate Stops(tail: string, base: nat) {
    tail == "" || (Digit(tail[0], base) < 0 && tail[0] != 'x' && tail[0] != 'X')
  }

  /** A semicolon ends a numeral, and so does everything that is no digit of the base and no x. */
  lemma StopsExact(tail: string, base: nat)
    requires IsBase(base)
    ensures Stops(tail, base) <==> tail == "" || (tail[0] !in "xX" && forall d: nat | d < base :: !Writes(tail[0], d))
  {
    if tail != "" {
      if d: nat :| d < base && Writes(tail[0], d) {
        DigitIs(tail[0], d, base);
      }
      if Digit(tail[0], base) >= 0 {
        var d := DigitOf(tail[0], base);
      }
    }
  }

  /** From digit k on, with the number so far. */
  lemma {:induction false} DigitsFrom(ds: string, digits: seq<nat>, tail: string, base: nat, k: nat)
    requires IsBase(base) && Numeral(ds, digits, base) && Stops(tail, base) && k <= |ds|
    ensures Digits(ds[k..] + tail, base, ValueOf(digits[..k], base)) == Parsed(ValueOf(digits, base), |ds| - k)
    decreases |ds| - k
  {
    hide Digit, Writes;
    var s := ds[k..] + tail;
    if k == |ds| {
      assert s == tail && digits[..k] == digits;
    } else {
      DigitIs(ds[k], digits[k], base);
      assert s[0] == ds[k] && s[1..] == ds[k + 1..] + tail;
      assert digits[..k + 1][..k] == digits[..k];
      DigitsFrom(ds, digits, tail, base, k + 1);
    }
  }

  lemma {:induction false} SpacesIs(ws: string, tail: string)
    requires (forall i | 0 <= i < |ws| :: ws[i] in WHITE) && (tail == "" || !IsSpace(tail[0]))
    ensures Spaces(ws + tail) == |ws|
  {
    if ws == "" {
      assert ws + tail == tail;
    } else {
      assert (ws + tail)[1..] == ws[1..] + tail;
      assert ws[0] in WHITE && IsSpace(ws[0]);
      SpacesIs(ws[1..], tail);
    }
  }

  /** What the C library reads as one number: white space, a sign, in base 16 perhaps 0x, and digits. */
  predicate Number(ws: string, sign: string, prefix: string, ds: string, digits: seq<nat>, base: nat) {
    && IsBase(base) && (forall i | 0 <= i < |ws| :: ws[i] in WHITE) && (sign == "" || sign == "+" || sign == "-")
    && (prefix == "" || (base == 16 && (prefix == "0x" || prefix == "0X"))) && ds != "" && Numeral(ds, digits, base)
  }

  function Negated(negative: bool, v: int): int {
    if negative then -v else v
  }

  /** The number's value: clamped to 64 bits. */
  function LongOf(sign: string, digits: seq<nat>, base: nat): int {
    var v := Negated(sign == "-", ValueOf(digits, base));
    if v > 0x7FFF_FFFF_FFFF_FFFF then 0x7FFF_FFFF_FFFF_FFFF else if v < -0x8000_0000_0000_0000 then -0x8000_0000_0000_0000 else v
  }

  /** The digits are read whole, whatever they begin with. */
  lemma NumeralRead(ds: string, digits: seq<nat>, tail: string, base: nat)
    requires IsBase(base) && ds != "" && Numeral(ds, digits, base) && Stops(tail, base)
    ensures Digits(ds + tail, base, 0) == Parsed(ValueOf(digits, base), |ds|)
  {
    DigitsFrom(ds, digits, tail, base, 0);
    assert ds[0..] == ds && digits[..0] == [];
  }

  /** The first two characters of a numeral without a prefix are not 0x. */
  lemma NoPrefix(ds: string, digits: seq<nat>, tail: string, base: nat)
    requires IsBase(base) && ds != "" && Numeral(ds, digits, base) && Stops(tail, base)
    ensures |ds + tail| > 1 ==> (ds + tail)[1] != 'x' && (ds + tail)[1] != 'X'
    ensures !IsSpace((ds + tail)[0]) && (ds + tail)[0] != '+' && (ds + tail)[0] != '-' && (ds + tail)[0] != 'x' && Digit((ds + tail)[0], base) >= 0
  {
    hide Digit, IsSpace, Writes;
    DigitIs(ds[0], digits[0], base);
    if |ds| > 1 {
      DigitIs(ds[1], digits[1], base);
    }
  }

  /** A numeral after its prefix. */
  lemma UnsignedReads(prefix: string, ds: string, digits: seq<nat>, tail: string, base: nat)
    requires Number("", "", prefix, ds, digits, base) && Stops(tail, base)
    ensures var s := prefix + (ds + tail);
            && s != "" && !IsSpace(s[0]) && s[0] != '-' && s[0] != '+' && s[0] != 'x'
            && Unsigned(s, base) == Parsed(ValueOf(digits, base), |prefix| + |ds|)
  {
    hide Digit, Numeral, Stops, Digits, ValueOf;
    NoPrefix(ds, digits, tail, base);
    NumeralRead(ds, digits, tail, base);
    var s := prefix + (ds + tail);
    assert s[|prefix|..] == ds + tail;
    if prefix == "" {
      assert s == ds + tail;
    } else {
      assert s[2] == (ds + tail)[0];
    }
  }

  lemma SignedReads(sign: string, prefix: string, ds: string, digits: seq<nat>, tail: string, base: nat)
    requires Number("", sign, prefix, ds, digits, base) && Stops(tail, base)
    ensures var s := sign + (prefix + (ds + tail));
            && s != "" && !IsSpace(s[0]) && s[0] != 'x'
            && Signed(s, base) == Parsed(Negated(sign == "-", ValueOf(digits, base)), |sign| + |prefix| + |ds|)
  {
    hide Numeral, Stops, ValueOf, Unsigned;
    UnsignedReads(prefix, ds, digits, tail, base);
    var u := prefix + (ds + tail);
    var s := sign + u;
    assert s[|sign|..] == u;
    assert sign == "" ==> s == u;
  }

  /** strtol reads a number off the front of a text, up to the first character that is none of its digits. */
  lemma StrToLReads(ws: string, sign: string, prefix: string, ds: string, digits: seq<nat>, tail: string, base: nat)
    requires Number(ws, sign, prefix, ds, digits, base) && Stops(tail, base)
    ensures StrToL(ws + (sign + (prefix + (ds + tail))), base) == Parsed(LongOf(sign, digits, base), |ws| + |sign| + |prefix| + |ds|)
    ensures (sign + (prefix + (ds + tail))) != "" && (sign + (prefix + (ds + tail)))[0] != 'x'
  {
    hide Numeral, IsSpace, Stops, ValueOf, Signed;
    SignedReads(sign, prefix, ds, digits, tail, base);
    var u := sign + (prefix + (ds + tail));
    SpacesIs(ws, u);
    assert (ws + u)[|ws|..] == u;
  }

  // ----- Numeric references -----

  /** A reference to the number, as far as its last digit. */
  function Opening(hex: bool): string {
    if hex then "&#x" else "&#"
  }

  lemma ReferenceReads(hex: bool, ws: string, sign: string, prefix: string, ds: string, digits: seq<nat>, tail: string)
    requires Number(ws, sign, prefix, ds, digits, if hex then 16 else 10) && Stops(tail, if hex then 16 else 10)
    ensures var body := ws + (sign + (prefix + (ds + tail)));
            var s := Opening(hex) + body;
            && |s| >= 2 && s[0] == '&' && s[1] == '#'
            && Reference(s) == Parsed(LongOf(sign, digits, if hex then 16 else 10), |s| - |tail|)
            && s[|s| - |tail|..] == tail
  {
    hide StrToL, LongOf, Numeral, Stops, Digit;
    var base: nat := if hex then 16 else 10;
    var u := sign + (prefix + (ds + tail));
    var body := ws + u;
    StrToLReads(ws, sign, prefix, ds, digits, tail, base);
    var s, at := Opening(hex) + body, if hex then 3 else 2;
    assert s[at..] == body;
    assert ws != "" ==> ws[0] in WHITE && body[0] == ws[0];
    assert ws == "" ==> body == u;
    assert !hex ==> s[2] == body[0];
    assert s[|s| - |tail|..] == tail;
  }

  lemma OutOfStep(s: string, t: Mode, ents: seq<Entity>, wide: Encoder)
    requires IsReference(s) && t != Cdata
    ensures Step(s, t, ents, wide) == Round(Written(Reference(s).value, wide), s[Reference(s).used + 1..])
  {
    hide IsReference, Reference, Written, FindEntity, IndexOf, IsSpace;
  }

  /** A number between 1 and 127 and a semicolon: the character of that number. */
  lemma NumericReference(hex: bool, ws: string, sign: string, prefix: string, ds: string, digits: seq<nat>, rest: string,
                         t: Mode, ents: seq<Entity>, wide: Encoder)
    requires Number(ws, sign, prefix, ds, digits, if hex then 16 else 10) && sign != "-"
    requires 0 < ValueOf(digits, if hex then 16 else 10) < 0x80 && t != Cdata && TableOk(ents)
    ensures Decoded(Opening(hex) + (ws + (sign + (prefix + (ds + (";" + rest))))), t, ents, wide)
         == [ValueOf(digits, if hex then 16 else 10) as char] + Decoded(rest, t, ents, wide)
  {
    hide Number, Opening, Reference, Decoded, TableOk, ValueOf, Step;
    var base, tail := if hex then 16 else 10, ";" + rest;
    assert Stops(tail, base);
    ReferenceReads(hex, ws, sign, prefix, ds, digits, tail);
    var s := Opening(hex) + (ws + (sign + (prefix + (ds + tail))));
    assert s[|s| - |tail|] == s[|s| - |tail|..][0] == ';';
    assert s[|s| - |tail| + 1..] == s[|s| - |tail|..][1..] == rest;
    OutOfStep(s, t, ents, wide);
    DecodedStep(s, t, ents, wide);
  }

  /** The digits of a number, decimal or hexadecimal, in either case of letters and with any leading zeros. */
  lemma PlainReference(hex: bool, ds: string, digits: seq<nat>, rest: string, t: Mode, ents: seq<Entity>, wide: Encoder)
    requires ds != "" && Numeral(ds, digits, if hex then 16 else 10)
    requires 0 < ValueOf(digits, if hex then 16 else 10) < 0x80 && t != Cdata && TableOk(ents)
    ensures Decoded((if hex then "&#x" else "&#") + ds + ";" + rest, t, ents, wide)
         == [ValueOf(digits, if hex then 16 else 10) as char] + Decoded(rest, t, ents, wide)
  {
    hide Numeral, Decoded, TableOk, ValueOf;
    NumericReference(hex, "", "", "", ds, digits, rest, t, ents, wide);
    assert Opening(hex) + ("" + ("" + ("" + (ds + (";" + rest))))) == (if hex then "&#x" else "&#") + ds + ";" + rest;
  }

  /** Zero, or anything but a semicolon after the last digit: only the ampersand is passed over. */
  lemma NoReference(hex: bool, ws: string, sign: string, prefix: string, ds: string, digits: seq<nat>, tail: string,
                    t: Mode, ents: seq<Entity>, wide: Encoder)
    requires Number(ws, sign, prefix, ds, digits, if hex then 16 else 10) && Stops(tail, if hex then 16 else 10) && TableOk(ents)
    requires ValueOf(digits, if hex then 16 else 10) == 0 || tail == "" || tail[0] != ';'
    ensures var body := ws + (sign + (prefix + (ds + tail)));
            Decoded(Opening(hex) + body, t, ents, wide) == "&" + Decoded((Opening(hex) + body)[1..], t, ents, wide)
  {
    hide Number, Opening, Reference, Decoded, TableOk, ValueOf, Stops, FindEntity, IndexOf;
    ReferenceReads(hex, ws, sign, prefix, ds, digits, tail);
    var s := Opening(hex) + (ws + (sign + (prefix + (ds + tail))));
    if tail != "" {
      assert s[|s| - |tail|] == s[|s| - |tail|..][0] == tail[0];
    }
    DecodedStep(s, t, ents, wide);
  }

  // ----- Named references -----

  /** The entity whose name comes first in the table takes effect; its replacement text is decoded in its turn. */
  lemma NamedReference(ents: seq<Entity>, k: nat, rest: string, t: Mode, wide: Encoder)
    requires TableOk(ents) && k < |ents| && t != Cdata
    requires var name := ents[k].name;
             && name != "" && name[0] != '#' && name[|name| - 1] == ';' && (forall i | 0 <= i < |name| - 1 :: name[i] != ';')
             && forall j | 0 <= j < k :: !StartsWith(name + rest, ents[j].name)
    ensures Decoded("&" + (ents[k].name + rest), t, ents, wide) == Decoded(ents[k].value + rest, t, ents, wide)
  {
    hide Decoded, TableOk, FindEntity, IndexOf, Reference, StartsWith;
    var name := ents[k].name;
    var s := "&" + (name + rest);
    assert s[1..] == name + rest && s[1] == name[0];
    Prefixed(name, rest);
    FindAt(ents, s[1..], k);
    var n := |name|;
    assert s[n] == name[n - 1];
    assert forall i | 0 < i < n :: s[i] == name[i - 1];
    FirstAt(s, ';', n);
    assert s[n + 1..] == rest;
    DecodedStep(s, t, ents, wide);
    assert Step(s, t, ents, wide) == Round("", ents[k].value + rest);
    assert "" + Decoded(ents[k].value + rest, t, ents, wide) == Decoded(ents[k].value + rest, t, ents, wide);
  }

  lemma Prefixed(name: string, rest: string)
    ensures StartsWith(name + rest, name)
  {
    assert (name + rest)[..|name|] == name;
  }

  lemma NoneFound(ents: seq<Entity>, s: string)
    requires forall k | 0 <= k < |ents| :: !StartsWith(s, ents[k].name)
    ensures FindEntity(ents, s) == |ents|
  {
    hide StartsWith, FindEntity;
  }

  /** No entity of that name: only the ampersand is passed over. */
  lemma UnknownEntity(ents: seq<Entity>, s: string, t: Mode, wide: Encoder)
    requires TableOk(ents) && s != "" && s[0] == '&' && (|s| > 1 ==> s[1] != '#')
    requires forall k | 0 <= k < |ents| :: !StartsWith(s[1..], ents[k].name)
    ensures Decoded(s, t, ents, wide) == "&" + Decoded(s[1..], t, ents, wide)
  {
    hide Decoded, TableOk, IndexOf, Reference, StartsWith, FindEntity;
    NoneFound(ents, s[1..]);
    DecodedStep(s, t, ents, wide);
  }

  /** The numeric reference that a built-in entity stands for. */
  lemma TwoDigits(d: nat, e: nat, ds: string, rest: string, t: Mode, wide: Encoder)
    requires d < 10 && e < 10 && |ds| == 2 && Writes(ds[0], d) && Writes(ds[1], e) && 0 < 10 * d + e < 0x80 && t != Cdata && TableOk(BuiltIn)
    ensures Decoded("&#" + ds + ";" + rest, t, BuiltIn, wide) == [(10 * d + e) as char] + Decoded(rest, t, BuiltIn, wide)
  {
    hide Decoded, TableOk;
    var digits := [d, e];
    assert digits[..1] == [d] && [d][..0] == [];
    assert ValueOf([d], 10) == d;
    PlainReference(false, ds, digits, rest, t, BuiltIn, wide);
  }

  lemma Mismatch(s: string, prefix: string, i: nat)
    requires i < |prefix| && i < |s| && s[i] != prefix[i]
    ensures !StartsWith(s, prefix)
  {
    if |prefix| <= |s| {
      assert s[..|prefix|][i] == s[i];
    }
  }

  /** Two built-in names differ in the first two characters. */
  lemma NamesDiffer(j: nat, k: nat) returns (i: nat)
    requires j < k < 5
    ensures i < |BuiltIn[j].name| && i < |BuiltIn[k].name| && BuiltIn[k].name[i] != BuiltIn[j].name[i]
  {
    i := if k == 4 && j == 3 then 1 else 0;
  }

  /** A built-in name ends in its only semicolon. */
  lemma NameShape(k: nat)
    requires k < 5
    ensures var name := BuiltIn[k].name;
            |name| > 1 && name[0] != '#' && name[|name| - 1] == ';' && forall i | 0 <= i < |name| - 1 :: name[i] != ';'
  {
  }

  lemma FiveNames()
    ensures |BuiltIn| == 5
  {
  }

  lemma BuiltInReference(k: nat, d: nat, e: nat, ds: string, rest: string, t: Mode, wide: Encoder)
    requires k < 5 && BuiltIn[k].value == "&#" + ds + ";" && t != Cdata && TableOk(BuiltIn)
    requires d < 10 && e < 10 && |ds| == 2 && Writes(ds[0], d) && Writes(ds[1], e) && 0 < 10 * d + e < 0x80
    ensures Decoded("&" + (BuiltIn[k].name + rest), t, BuiltIn, wide) == [(10 * d + e) as char] + Decoded(rest, t, BuiltIn, wide)
  {
    hide Decoded, TableOk, StartsWith, Writes, BuiltIn;
    FiveNames();
    NameShape(k);
    forall j | 0 <= j < k ensures !StartsWith(BuiltIn[k].name + rest, BuiltIn[j].name) {
      var i := NamesDiffer(j, k);
      Mismatch(BuiltIn[k].name + rest, BuiltIn[j].name, i);
    }
    NamedReference(BuiltIn, k, rest, t, wide);
    TwoDigits(d, e, ds, rest, t, wide);
  }

  lemma LessEntity(rest: string, t: Mode, wide: Encoder)
    requires t != Cdata && TableOk(BuiltIn)
    ensures Decoded("&lt;" + rest, t, BuiltIn, wide) == "<" + Decoded(rest, t, BuiltIn, wide)
  {
    hide Decoded, TableOk;
    BuiltInReference(0, 6, 0, "60", rest, t, wide);
    assert "&lt;" + rest == "&" + ("lt;" + rest);
  }

  lemma GreaterEntity(rest: string, t: Mode, wide: Encoder)
    requires t != Cdata && TableOk(BuiltIn)
    ensures Decoded("&gt;" + rest, t, BuiltIn, wide) == ">" + Decoded(rest, t, BuiltIn, wide)
  {
    hide Decoded, TableOk;
    BuiltInReference(1, 6, 2, "62", rest, t, wide);
    assert "&gt;" + rest == "&" + ("gt;" + rest);
  }

  lemma QuoteEntity(rest: string, t: Mode, wide: Encoder)
    requires t != Cdata && TableOk(BuiltIn)
    ensures Decoded("&quot;" + rest, t, BuiltIn, wide) == "\"" + Decoded(rest, t, BuiltIn, wide)
  {
    hide Decoded, TableOk;
    BuiltInReference(2, 3, 4, "34", rest, t, wide);
    assert "&quot;" + rest == "&" + ("quot;" + rest);
  }

  lemma ApostropheEntity(rest: string, t: Mode, wide: Encoder)
    requires t != Cdata && TableOk(BuiltIn)
    ensures Decoded("&apos;" + rest, t, BuiltIn, wide) == "'" + Decoded(rest, t, BuiltIn, wide)
  {
    hide Decoded, TableOk;
    BuiltInReference(3, 3, 9, "39", rest, t, wide);
    assert "&apos;" + rest == "&" + ("apos;" + rest);
  }

  lemma AmpersandEntity(rest: string, t: Mode, wide: Encoder)
    requires t != Cdata && TableOk(BuiltIn)
    ensures Decoded("&amp;" + rest, t, BuiltIn, wide) == "&" + Decoded(rest, t, BuiltIn, wide)
  {
    hide Decoded, TableOk;
    BuiltInReference(4, 3, 8, "38", rest, t, wide);
    assert "&amp;" + rest == "&" + ("amp;" + rest);
  }

  /** The five names that every document has. */
  lemma FiveEntities(rest: string, t: Mode, wide: Encoder)
    requires t != Cdata
    ensures TableOk(BuiltIn)
    ensures Decoded("&lt;" + rest, t, BuiltIn, wide) == "<" + Decoded(rest, t, BuiltIn, wide)
    ensures Decoded("&gt;" + rest, t, BuiltIn, wide) == ">" + Decoded(rest, t, BuiltIn, wide)
    ensures Decoded("&quot;" + rest, t, BuiltIn, wide) == "\"" + Decoded(rest, t, BuiltIn, wide)
    ensures Decoded("&apos;" + rest, t, BuiltIn, wide) == "'" + Decoded(rest, t, BuiltIn, wide)
    ensures Decoded("&amp;" + rest, t, BuiltIn, wide) == "&" + Decoded(rest, t, BuiltIn, wide)
  {
    hide *;
    BuiltInOk();
    LessEntity(rest, t, wide);
    GreaterEntity(rest, t, wide);
    QuoteEntity(rest, t, wide);
    ApostropheEntity(rest, t, wide);
    AmpersandEntity(rest, t, wide);
  }

  // ----- Everything else -----

  /** A character that begins no reference is itself, but white space in an attribute is a space. */
  lemma OtherCharacter(c: char, rest: string, t: Mode, ents: seq<Entity>, wide: Encoder)
    requires TableOk(ents) && (c != '&' || t == Cdata)
    ensures Decoded([c] + rest, t, ents, wide) == [if t == Attribute && c in WHITE then ' ' else c] + Decoded(rest, t, ents, wide)
  {
    hide Decoded, TableOk, Reference, FindEntity, IndexOf;
    assert ([c] + rest)[1..] == rest;
    DecodedStep([c] + rest, t, ents, wide);
  }

  /** Nothing in a CDATA section is decoded. */
  lemma {:induction false} CdataUntouched(s: string, ents: seq<Entity>, wide: Encoder)
    requires TableOk(ents)
    ensures Decoded(s, Cdata, ents, wide) == s
  {
    hide Decoded, TableOk, WHITE;
    if s == "" {
      NothingDecoded(Cdata, ents, wide);
    } else {
      CdataUntouched(s[1..], ents, wide);
      OtherCharacter(s[0], s[1..], Cdata, ents, wide);
      assert [s[0]] + s[1..] == s;
    }
  }
}
