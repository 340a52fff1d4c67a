/** Decoding references and white space in XML text. */
module XmlDecode {
  /** Character content, an attribute's value, or a CDATA section. */
  datatype Mode = Content | Attribute | Cdata

  /** An entity's name with its semicolon, and its replacement text. */
  datatype Entity = Entity(name: string, value: string)

  /** What is written for a character reference beyond US-ASCII. */
  type Encoder = int -> string

  predicate IsSpace(c: char) {
    c == ' ' || c == '\t' || c == '\n' || c == '\U{0B}' || c == '\U{0C}' || c == '\r'
  }

  // ----- Line endings -----

  /** CR LF and CR become LF. */
  function Normalize(s: string): string {
    if s == "" then ""
    else if s[0] != '\r' then [s[0]] + Normalize(s[1..])
    else if |s| > 1 && s[1] == '\n' then ['\n'] + Normalize(s[2..])
    else ['\n'] + Normalize(s[1..])
  }

  lemma {:induction false} NormalizeIdentity(s: string)
    requires '\r' !in s
    ensures Normalize(s) == s
  {
    if s != "" {
      NormalizeIdentity(s[1..]);
    }
  }

  // ----- Numbers -----

  datatype Parsed = Parsed(value: int, used: nat)

  function Digit(c: char, base: nat): int {
    var d := if '0' <= c <= '9' then c as int - '0' as int
             else if 'a' <= c <= 'z' then c as int - 'a' as int + 10
             else if 'A' <= c <= 'Z' then c as int - 'A' as int + 10
             else -1;
    if d < base then d else -1
  }

  /** The digits at the start of s, after the number acc. */
  function Digits(s: string, base: nat, acc: nat): (p: Parsed)
    ensures p.value >= 0 && p.used <= |s|
    ensures forall i | 0 <= i < p.used :: Digit(s[i], base) >= 0
  {
    if s == "" || Digit(s[0], base) < 0 then Parsed(acc, 0)
    else
      var p := Digits(s[1..], base, acc * base + Digit(s[0], base));
      Parsed(p.value, p.used + 1)
  }

  function Spaces(s: string): (n: nat)
    ensures n <= |s| && forall i | 0 <= i < n :: IsSpace(s[i])
  {
    if s == "" || !IsSpace(s[0]) then 0 else 1 + Spaces(s[1..])
  }

  const LongMax: int := 0x7FFF_FFFF_FFFF_FFFF

  function Clamp(v: int): int {
    if v > LongMax then LongMax else if v < -LongMax - 1 then -LongMax - 1 else v
  }

  /** 0x in base 16, and digits. */
  function Unsigned(s: string, base: nat): (p: Parsed)
    ensures p.used <= |s| && forall i | 0 <= i < p.used :: s[i] != ';'
  {
    var k := if base == 16 && 2 < |s| && s[0] == '0' && (s[1] == 'x' || s[1] == 'X') && Digit(s[2], 16) >= 0 then 2 else 0;
    var p := Digits(s[k..], base, 0);
    if p.used == 0 then Parsed(0, 0) else Parsed(p.value, k + p.used)
  }

  /** A sign and an unsigned number. */
  function Signed(s: string, base: nat): (p: Parsed)
    ensures p.used <= |s| && forall i | 0 <= i < p.used :: s[i] != ';'
  {
    var j := if s != "" && (s[0] == '-' || s[0] == '+') then 1 else 0;
    var p := Unsigned(s[j..], base);
    if p.used == 0 then Parsed(0, 0) else Parsed(if s[0] == '-' then -p.value else p.value, j + p.used)
  }

  /** strtol: white space and a signed number; out of range values are clamped. */
  function StrToL(s: string, base: nat): (p: Parsed)
    ensures p.used <= |s| && forall i | 0 <= i < p.used :: s[i] != ';'
  {
    var i := Spaces(s);
    var p := Signed(s[i..], base);
    if p.used == 0 then Parsed(0, 0) else Parsed(Clamp(p.value), i + p.used)
  }

  /** The number of a character reference "&#...", and how many characters it takes up to where its semicolon should be. */
  function Reference(s: string): (p: Parsed)
    requires |s| >= 2 && s[0] == '&' && s[1] == '#'
    ensures 2 <= p.used <= |s| && forall i | 0 <= i < p.used :: s[i] != ';'
  {
    var hex := |s| > 2 && s[2] == 'x';
    var at := if hex then 3 else 2;
    var p := StrToL(s[at..], if hex then 16 else 10);
    Parsed(p.value, at + p.used)
  }

  predicate IsReference(s: string) {
    |s| >= 2 && s[0] == '&' && s[1] == '#' &&
    var p := Reference(s);
    p.value != 0 && p.used < |s| && s[p.used] == ';'
  }

  /** What replaces a character reference of value c. */
  function Written(c: int, wide: Encoder): string {
    if c < 0x80 then [(c % 256) as char] else wide(c)
  }

  // ----- Entities -----

  predicate StartsWith(s: string, prefix: string) {
    |prefix| <= |s| && s[..|prefix|] == prefix
  }

  /** The first entity whose name follows; |ents| when there is none. */
  function FindEntity(ents: seq<Entity>, s: string): (k: nat)
    ensures k <= |ents|
    ensures k < |ents| ==> StartsWith(s, ents[k].name)
  {
    if ents == [] || StartsWith(s, ents[0].name) then 0 else 1 + FindEntity(ents[1..], s)
  }

  function IndexOf(s: string, c: char): (i: nat)
    ensures i <= |s| && (i < |s| ==> s[i] == c) && (c in s ==> i < |s|)
    ensures forall k | 0 <= k < i :: s[k] != c
  {
    if s == "" || s[0] == c then 0 else 1 + IndexOf(s[1..], c)
  }

  /** An ampersand at i that may begin an entity reference. */
  predicate EntityStart(s: string, i: nat) {
    i < |s| && s[i] == '&' && !(i + 1 < |s| && s[i + 1] == '#')
  }

  function EntityStarts(s: string): nat {
    if s == "" then 0 else (if EntityStart(s, 0) then 1 else 0) + EntityStarts(s[1..])
  }

  /** Names have a semicolon, and replacement texts refer to characters but to no entity. */
  predicate TableOk(ents: seq<Entity>) {
    forall k | 0 <= k < |ents| ::
      ';' in ents[k].name && EntityStarts(ents[k].value) == 0
  }

  /** The five entities every document has. */
  const BuiltIn: seq<Entity> := [
    Entity("lt;", "&#60;"), Entity("gt;", "&#62;"), Entity("quot;", "&#34;"), Entity("apos;", "&#39;"), Entity("amp;", "&#38;")]

  lemma NoStart(s: string)
    requires |s| == 5 && s[0] == '&' && s[1] == '#' && s[2] != '&' && s[3] != '&' && s[4] != '&'
    ensures EntityStarts(s) == 0
  {
    assert EntityStarts(s[5..]) == 0;
    assert s[4..][1..] == s[5..] && s[3..][1..] == s[4..] && s[2..][1..] == s[3..] && s[1..][1..] == s[2..];
    assert EntityStarts(s[4..]) == 0;
    assert EntityStarts(s[3..]) == 0;
    assert EntityStarts(s[2..]) == 0;
    assert EntityStarts(s[1..]) == 0;
  }

  lemma BuiltInOk()
    ensures TableOk(BuiltIn)
  {
    NoStart("&#60;");
    NoStart("&#62;");
    NoStart("&#34;");
    NoStart("&#39;");
    NoStart("&#38;");
    assert "lt;"[2] == ';' && "gt;"[2] == ';' && "quot;"[4] == ';' && "apos;"[4] == ';' && "amp;"[3] == ';';
  }

  // ----- Decoding -----

  /** One round at the start of s: what is decoded for good, and what is left to decode. */
  datatype Round = Round(out: string, rest: string)

  function Step(s: string, t: Mode, ents: seq<Entity>, wide: Encoder): Round
    requires s != ""
  {
    if t != Cdata && IsReference(s) then
      var p := Reference(s);
      Round(Written(p.value, wide), s[p.used + 1..])
    else if t != Cdata && s[0] == '&' && !(|s| > 1 && s[1] == '#') && FindEntity(ents, s[1..]) < |ents| && ';' in s then
      Round("", ents[FindEntity(ents, s[1..])].value + s[IndexOf(s, ';') + 1..])
    else if t == Attribute && IsSpace(s[0]) then Round(" ", s[1..])
    else Round([s[0]], s[1..])
  }

  lemma {:induction false} FirstAt(s: string, c: char, i: nat)
    requires i < |s| && s[i] == c && forall k | 0 <= k < i :: s[k] != c
    ensures IndexOf(s, c) == i
  {
    if i > 0 {
      FirstAt(s[1..], c, i - 1);
    }
  }

  lemma {:induction false} FindAt(ents: seq<Entity>, s: string, k: nat)
    requires k < |ents| && StartsWith(s, ents[k].name) && forall j | 0 <= j < k :: !StartsWith(s, ents[j].name)
    ensures FindEntity(ents, s) == k
  {
    hide StartsWith;
    if k > 0 {
      assert !StartsWith(s, ents[0].name);
      FindAt(ents[1..], s, k - 1);
    }
  }

  lemma {:induction false} SuffixStarts(s: string, i: nat)
    requires i <= |s|
    ensures EntityStarts(s[i..]) <= EntityStarts(s)
  {
    if i > 0 {
      SuffixStarts(s[1..], i - 1);
      assert s[1..][i - 1..] == s[i..];
    }
  }

  lemma {:induction false} JoinStarts(v: string, s: string)
    requires v == "" || v[|v| - 1] != '&'
    ensures EntityStarts(v + s) == EntityStarts(v) + EntityStarts(s)
  {
    if v == "" {
      assert v + s == s;
    } else {
      assert (v + s)[1..] == v[1..] + s;
      JoinStarts(v[1..], s);
    }
  }

  lemma {:induction false} LastStart(v: string)
    requires v != "" && v[|v| - 1] == '&'
    ensures EntityStarts(v) > 0
  {
    if |v| > 1 {
      LastStart(v[1..]);
    }
  }

  /** Every round leaves fewer entity references, or as many and less text. */
  lemma StepShrinks(s: string, t: Mode, ents: seq<Entity>, wide: Encoder)
    requires s != "" && TableOk(ents)
    ensures var rest := Step(s, t, ents, wide).rest;
            EntityStarts(rest) < EntityStarts(s) || (EntityStarts(rest) == EntityStarts(s) && |rest| < |s|)
  {
    var r := Step(s, t, ents, wide);
    if t != Cdata && !IsReference(s) && s[0] == '&' && !(|s| > 1 && s[1] == '#') && FindEntity(ents, s[1..]) < |ents| && ';' in s {
      var v, tail := ents[FindEntity(ents, s[1..])].value, s[IndexOf(s, ';') + 1..];
      if v != "" && v[|v| - 1] == '&' {
        LastStart(v);
      }
      JoinStarts(v, tail);
      SuffixStarts(s[1..], IndexOf(s, ';'));
      assert s[1..][IndexOf(s, ';')..] == tail;
    } else {
      var i := |s| - |r.rest|;
      assert r.rest == s[i..];
      SuffixStarts(s, i);
    }
  }

  function Decoded(s: string, t: Mode, ents: seq<Entity>, wide: Encoder): string
    requires TableOk(ents)
    decreases EntityStarts(s), |s|
  {
    if s == "" then "" else
      StepShrinks(s, t, ents, wide);
      var r := Step(s, t, ents, wide);
      r.out + Decoded(r.rest, t, ents, wide)
  }

  // ----- The buffer -----

  lemma DecodedStep(s: string, t: Mode, ents: seq<Entity>, wide: Encoder)
    requires TableOk(ents) && s != ""
    ensures Decoded(s, t, ents, wide) == Step(s, t, ents, wide).out + Decoded(Step(s, t, ents, wide).rest, t, ents, wide)
  {
  }

  /** Text that needs no decoding is stepped over. */
  lemma PlainStep(s: string, t: Mode, ents: seq<Entity>, wide: Encoder)
    requires TableOk(ents) && s != "" && s[0] != '&' && !IsSpace(s[0])
    ensures Step(s, t, ents, wide) == Round([s[0]], s[1..])
  {
  }

  /** Nothing of a reference before its semicolon is a semicolon, so the first one found ends it. */
  lemma FirstSemicolon(s: string)
    requires IsReference(s)
    ensures IndexOf(s[1..], ';') == Reference(s).used - 1
  {
    var i, at := IndexOf(s[1..], ';'), Reference(s).used;
    assert forall k | 0 <= k < at :: s[1..][k] == s[k + 1];
  }

  /** A buffer decoded up to i is worth what it has decoded and what the rest decodes to. */
  ghost predicate Sofar(buf: string, i: nat, text: string, t: Mode, ents: seq<Entity>, wide: Encoder) {
    TableOk(ents) && i <= |buf| && buf[..i] + Decoded(buf[i..], t, ents, wide) == Decoded(text, t, ents, wide)
  }

  lemma SofarStep(buf: string, i: nat, text: string, t: Mode, ents: seq<Entity>, wide: Encoder, next: string, j: nat)
    requires Sofar(buf, i, text, t, ents, wide) && i < |buf| && j <= |next|
    requires next[..j] == buf[..i] + Step(buf[i..], t, ents, wide).out && next[j..] == Step(buf[i..], t, ents, wide).rest
    ensures Sofar(next, j, text, t, ents, wide)
    ensures EntityStarts(next[j..]) < EntityStarts(buf[i..]) || (EntityStarts(next[j..]) == EntityStarts(buf[i..]) && |next| - j < |buf| - i)
  {
    hide Step, Decoded, EntityStarts;
    var r := Step(buf[i..], t, ents, wide);
    DecodedStep(buf[i..], t, ents, wide);
    StepShrinks(buf[i..], t, ents, wide);
    assert buf[..i] + (r.out + Decoded(r.rest, t, ents, wide)) == (buf[..i] + r.out) + Decoded(r.rest, t, ents, wide);
  }

  // ----- The first loop -----

  /** A text, or a scan that has stepped over its terminator and reads on behind it. */
  datatype Outcome = Text(value: string) | Overrun

  predicate LineEndAt(s: string, i: nat) {
    i + 1 < |s| && s[i] == '\r' && s[i + 1] == '\n'
  }

  ghost predicate HasLineEnd(s: string) {
    exists i: nat :: LineEndAt(s, i)
  }

  predicate EndsInReturn(s: string) {
    s != "" && s[|s| - 1] == '\r'
  }

  /** The texts that end in a carriage return and hold no CR LF. */
  ghost predicate RunsPast(s: string) {
    EndsInReturn(s) && !HasLineEnd(s)
  }

  lemma RestLineEnd(s: string)
    requires s != "" && !LineEndAt(s, 0)
    ensures HasLineEnd(s) <==> HasLineEnd(s[1..])
  {
    if HasLineEnd(s) {
      var i: nat :| LineEndAt(s, i);
      assert LineEndAt(s[1..], i - 1);
    }
    if HasLineEnd(s[1..]) {
      var i: nat :| LineEndAt(s[1..], i);
      assert LineEndAt(s, i + 1);
    }
  }

  /** Only a CR LF makes a text shorter. */
  lemma {:induction false} NormalizeLength(s: string)
    ensures |Normalize(s)| <= |s|
    ensures |Normalize(s)| < |s| <==> HasLineEnd(s)
  {
    if s != "" {
      if LineEndAt(s, 0) {
        NormalizeLength(s[2..]);
      } else {
        RestLineEnd(s);
        NormalizeLength(s[1..]);
      }
    }
  }

  function Nuls(n: nat): (s: string)
    ensures |s| == n && forall i | 0 <= i < n :: s[i] == '\0'
  {
    if n == 0 then "" else ['\0'] + Nuls(n - 1)
  }

  /** memmove(s, s + 1, strlen(s)): what follows cell i up to the terminator moves down by one; the old terminator stays. */
  function MoveDown(cells: string, i: nat): (r: string)
    requires i <= |cells| && '\0' in cells[i..]
    ensures |r| == |cells|
  {
    var length := IndexOf(cells[i..], '\0');
    cells[..i] + cells[i + 1..i + length + 1] + cells[i + length..]
  }

  /** A text's terminator is the first one after its cells. */
  lemma TerminatorAt(buf: string, k: nat, i: nat)
    requires i <= |buf| && '\0' !in buf
    ensures '\0' in (buf + Nuls(k + 1))[i..] && IndexOf((buf + Nuls(k + 1))[i..], '\0') == |buf| - i
  {
    var rest := (buf + Nuls(k + 1))[i..];
    assert rest[|buf| - i] == '\0';
    FirstAt(rest, '\0', |buf| - i);
  }

  lemma MoveDownText(buf: string, k: nat, i: nat)
    requires i < |buf| && '\0' !in buf
    ensures '\0' in (buf + Nuls(k + 1))[i..]
    ensures MoveDown(buf + Nuls(k + 1), i) == buf[..i] + buf[i + 1..] + Nuls(k + 2)
  {
    hide IndexOf;
    var cells := buf + Nuls(k + 1);
    TerminatorAt(buf, k, i);
    assert Nuls(k + 2) == ['\0'] + Nuls(k + 1);
    hide Nuls;
    assert cells[..i] == buf[..i];
    assert cells[i + 1..|buf| + 1] == buf[i + 1..] + ['\0'];
    assert cells[|buf|..] == Nuls(k + 1);
  }

  /**
   * The cells hold buf and as many terminators as fill the room of text; buf is normalized up to i, and from there on it
   * is the end of text.
   */
  ghost predicate Scanned(cells: string, buf: string, i: nat, text: string) {
    && i <= |buf| <= |text| && '\0' !in buf && cells == buf + Nuls(|text| - |buf| + 1)
    && buf[..i] + Normalize(buf[i..]) == Normalize(text)
    && buf[i..] == text[|text| - (|buf| - i)..]
  }

  lemma ScanStart(text: string)
    requires '\0' !in text
    ensures Scanned(text + ['\0'], text, 0, text)
  {
    assert Nuls(1) == ['\0'] + Nuls(0);
    assert text[0..] == text;
  }

  lemma ScanOther(cells: string, buf: string, i: nat, text: string)
    requires Scanned(cells, buf, i, text) && i < |buf| && buf[i] != '\r'
    ensures Scanned(cells, buf, i + 1, text)
  {
    hide Normalize;
    var rest := buf[i..];
    NormalizeOther(rest);
    assert rest[1..] == buf[i + 1..] && buf[..i + 1] == buf[..i] + [buf[i]];
    assert buf[..i] + ([buf[i]] + Normalize(buf[i + 1..])) == (buf[..i] + [buf[i]]) + Normalize(buf[i + 1..]);
  }

  lemma NormalizeOther(s: string)
    requires s != "" && s[0] != '\r'
    ensures Normalize(s) == [s[0]] + Normalize(s[1..])
  {
  }

  lemma NormalizeReturn(s: string)
    requires s != "" && s[0] == '\r'
    ensures Normalize(s) == ['\n'] + Normalize(if LineEndAt(s, 0) then s[2..] else s[1..])
  {
  }

  /** The text after a carriage return at i has become a line feed, and a line feed after it has gone. */
  function ReturnGone(buf: string, i: nat): string
    requires i < |buf|
  {
    buf[..i] + ['\n'] + (if i + 1 < |buf| && buf[i + 1] == '\n' then buf[i + 2..] else buf[i + 1..])
  }

  lemma ScanReturn(cells: string, buf: string, i: nat, text: string)
    requires Scanned(cells, buf, i, text) && i < |buf| && buf[i] == '\r'
    ensures i + 1 < |cells| && cells[i] == '\r' && (cells[i + 1] == '\n' <==> i + 1 < |buf| && buf[i + 1] == '\n')
    ensures cells[i + 1] == '\n' ==> '\0' in cells[i := '\n'][i + 1..]
    ensures Scanned(if cells[i + 1] == '\n' then MoveDown(cells[i := '\n'], i + 1) else cells[i := '\n'], ReturnGone(buf, i), i + 1, text)
  {
    hide Normalize, MoveDown, Nuls;
    var k, next := |text| - |buf|, ReturnGone(buf, i);
    assert cells[i + 1] == if i + 1 < |buf| then buf[i + 1] else '\0';
    assert cells[i := '\n'] == buf[i := '\n'] + Nuls(k + 1);
    if i + 1 < |buf| && buf[i + 1] == '\n' {
      MoveDownText(buf[i := '\n'], k, i + 1);
      assert buf[i := '\n'][..i + 1] + buf[i := '\n'][i + 2..] == next;
    } else {
      assert buf[i := '\n'] == next;
    }
    NormalizeReturn(buf[i..]);
    assert buf[i..][1..] == buf[i + 1..];
    assert LineEndAt(buf[i..], 0) ==> buf[i..][2..] == buf[i + 2..];
    assert next[..i + 1] == buf[..i] + ['\n'];
    assert buf[..i] + (['\n'] + Normalize(next[i + 1..])) == (buf[..i] + ['\n']) + Normalize(next[i + 1..]);
    assert next[i + 1..] == text[|text| - (|next| - (i + 1))..];
  }

  /** At the terminator, buf is the normalized text; its room is full exactly when text holds no CR LF. */
  lemma ScanEnd(cells: string, buf: string, text: string)
    requires Scanned(cells, buf, |buf|, text)
    ensures buf == Normalize(text) && (|buf| == |text| <==> !HasLineEnd(text))
  {
    NormalizeLength(text);
    assert buf[..|buf|] == buf && buf[|buf|..] == "";
  }

  /** Where the scan can be between two characters: in the text, or one cell behind a return that ended it. */
  ghost predicate Between(cells: string, buf: string, s: nat, text: string) {
    && Scanned(cells, buf, if s <= |buf| then s else |buf|, text) && s <= |buf| + 1
    && (s == |buf| ==> |buf| < |text| || !EndsInReturn(text))
    && (s == |buf| + 1 ==> |buf| < |text| || EndsInReturn(text))
  }

  /** Inside a run of carriage returns. */
  ghost predicate Inside(cells: string, buf: string, s: nat, text: string) {
    Scanned(cells, buf, s, text) && (s == |buf| ==> |buf| < |text| || EndsInReturn(text))
  }

  lemma CellIs(cells: string, buf: string, s: nat, text: string)
    requires Scanned(cells, buf, s, text)
    ensures |cells| == |text| + 1 && s < |cells|
    ensures cells[s] == if s < |buf| then buf[s] else '\0'
    ensures s < |buf| ==> buf[s] != '\0'
  {
  }

  lemma InsideReturn(cells: string, buf: string, s: nat, text: string)
    requires Inside(cells, buf, s, text) && s < |buf| && buf[s] == '\r'
    ensures s + 1 < |cells|
    ensures cells[s + 1] == '\n' ==> '\0' in cells[s := '\n'][s + 1..]
    ensures Inside(if cells[s + 1] == '\n' then MoveDown(cells[s := '\n'], s + 1) else cells[s := '\n'], ReturnGone(buf, s), s + 1, text)
  {
    hide Normalize, MoveDown, Nuls;
    ScanReturn(cells, buf, s, text);
    if s + 1 == |buf| {
      assert buf[s..][0] == '\r' && text[|text| - 1..][0] == text[|text| - 1];
    }
  }

  lemma AfterReturns(cells: string, buf: string, s: nat, text: string)
    requires Inside(cells, buf, s, text) && s < |cells| && cells[s] != '\r'
    ensures Between(cells, buf, s + 1, text)
  {
    hide Normalize, Nuls;
    CellIs(cells, buf, s, text);
    if s < |buf| {
      ScanOther(cells, buf, s, text);
      if s + 1 == |buf| == |text| {
        assert buf[s..][0] == text[|text| - 1..][0];
      }
    }
  }

  lemma AtTerminator(cells: string, buf: string, s: nat, text: string)
    requires Between(cells, buf, s, text) && '\0' !in buf
    ensures |cells| == |text| + 1 && s <= |cells|
    ensures s == |cells| ==> RunsPast(text)
    ensures s < |cells| && cells[s] == '\0' ==> !RunsPast(text) && '\0' in cells && cells[..IndexOf(cells, '\0')] == Normalize(text)
    ensures s < |cells| && cells[s] != '\0' ==> Inside(cells, buf, s, text)
  {
    hide Normalize, HasLineEnd;
    CellIs(cells, buf, if s <= |buf| then s else |buf|, text);
    if s >= |buf| {
      ScanEnd(cells, buf, text);
      TerminatorAt(buf, |text| - |buf|, 0);
      assert cells[0..] == cells && cells[..|buf|] == buf;
    }
  }

  /**
   * The first loop of ezxml_decode, on the text's cells. It ends in the normalized text, unless it steps over the
   * terminator, which it does exactly when the text ends in a carriage return and no CR LF has left a second terminator.
   */
  method NormalizeLines(text: string) returns (r: Outcome)
    requires '\0' !in text
    ensures r == if RunsPast(text) then Overrun else Text(Normalize(text))
  {
    hide Normalize, Between, Inside, RunsPast, MoveDown, Scanned;
    var cells := text + ['\0'];
    var s: nat := 0;
    ghost var buf := text;
    Beginning(text);
    while true
      invariant Between(cells, buf, s, text) && '\0' !in buf && |cells| == |text| + 1
      decreases |text| + 1 - s
    {
      AtTerminator(cells, buf, s, text);
      if s == |cells| {
        return Overrun;
      }
      if cells[s] == '\0' {
        return Text(cells[..IndexOf(cells, '\0')]);
      }
      ghost var from := s;
      while cells[s] == '\r'
        invariant from <= s < |cells| == |text| + 1 && Inside(cells, buf, s, text)
        decreases |cells| - s
      {
        HereReturn(cells, buf, s, text);
        InsideReturn(cells, buf, s, text);
        buf := ReturnGone(buf, s);
        cells := cells[s := '\n'];
        s := s + 1;
        if cells[s] == '\n' {
          cells := MoveDown(cells, s);
        }
      }
      AfterReturns(cells, buf, s, text);
      s := s + 1;
      NoNul(cells, buf, s, text);
    }
  }

  lemma Beginning(text: string)
    requires '\0' !in text
    ensures Between(text + ['\0'], text, 0, text)
  {
    ScanStart(text);
  }

  lemma HereReturn(cells: string, buf: string, s: nat, text: string)
    requires Inside(cells, buf, s, text) && s < |cells| && cells[s] == '\r'
    ensures s < |buf| && buf[s] == '\r'
  {
    CellIs(cells, buf, s, text);
  }

  lemma NoNul(cells: string, buf: string, s: nat, text: string)
    requires Between(cells, buf, s, text)
    ensures '\0' !in buf
  {
  }

  /** A text of one carriage return is stepped over; with a CR LF before the last return, or as the end, it is not. */
  lemma OverrunCases()
    ensures RunsPast("a\r") && !RunsPast("\r\n") && !RunsPast("a\r\nb\r")
    ensures Normalize("\r\n") == "\n" && Normalize("a\r\nb\r") == "a\nb\n"
  {
    assert LineEndAt("a\r\nb\r", 1);
    assert "a\r\nb\r"[1..] == "\r\nb\r" && "\r\nb\r"[2..] == "b\r" && "b\r"[1..] == "\r" && "\r"[1..] == "";
    assert "\r\n"[2..] == "";
  }

  // ----- The second loop -----

  /** Decodes a buffer in place. */
  method DecodeText(text: string, t: Mode, ents: seq<Entity>, wide: Encoder) returns (r: Outcome)
    requires '\0' !in text && TableOk(ents)
    ensures r == if RunsPast(text) then Overrun else Text(Decoded(Normalize(text), t, ents, wide))
  {
    hide Decoded, Step, EntityStarts, TableOk, RunsPast;
    var lines := NormalizeLines(text);
    if lines.Overrun? {
      return Overrun;
    }
    var buf := lines.value;
    ghost var start := buf;
    var s: nat := 0;
    assert start[..0] + Decoded(start, t, ents, wide) == Decoded(start, t, ents, wide);
    assert start[0..] == start;
    while true
      invariant Sofar(buf, s, start, t, ents, wide)
      decreases EntityStarts(buf[s..]), |buf| - s
    {
      s := SkipPlain(buf, s, start, t, ents, wide);
      if s == |buf| {
        break;
      }
      buf, s := DecodeOne(buf, s, start, t, ents, wide);
    }
    NothingDecoded(t, ents, wide);
    assert buf[s..] == "" && buf[..s] == buf;
    r := Text(buf);
  }

  lemma NothingDecoded(t: Mode, ents: seq<Entity>, wide: Encoder)
    requires TableOk(ents)
    ensures Decoded("", t, ents, wide) == ""
  {
  }

  /** Past everything that is neither an ampersand nor white space. */
  method SkipPlain(buf: string, from: nat, ghost start: string, t: Mode, ents: seq<Entity>, wide: Encoder) returns (s: nat)
    requires Sofar(buf, from, start, t, ents, wide)
    ensures from <= s && Sofar(buf, s, start, t, ents, wide)
    ensures s < |buf| ==> buf[s] == '&' || IsSpace(buf[s])
    ensures EntityStarts(buf[s..]) <= EntityStarts(buf[from..])
  {
    hide Decoded, Step, EntityStarts, TableOk;
    s := from;
    while s < |buf| && buf[s] != '&' && !IsSpace(buf[s])
      invariant from <= s && Sofar(buf, s, start, t, ents, wide)
      invariant EntityStarts(buf[s..]) <= EntityStarts(buf[from..])
      decreases |buf| - s
    {
      PlainStep(buf[s..], t, ents, wide);
      assert buf[s..][1..] == buf[s + 1..] && buf[..s + 1] == buf[..s] + [buf[s]];
      SofarStep(buf, s, start, t, ents, wide, buf, s + 1);
      s := s + 1;
    }
  }

  /** One reference or white-space character: the text at s becomes what it is decoded to and what is left. */
  method DecodeOne(buf: string, s: nat, ghost start: string, t: Mode, ents: seq<Entity>, wide: Encoder) returns (next: string, j: nat)
    requires Sofar(buf, s, start, t, ents, wide) && s < |buf|
    ensures Sofar(next, j, start, t, ents, wide)
    ensures EntityStarts(next[j..]) < EntityStarts(buf[s..]) || (EntityStarts(next[j..]) == EntityStarts(buf[s..]) && |next| - j < |buf| - s)
  {
    hide *;
    var rest := buf[s..];
    SofarTable(buf, s, start, t, ents, wide);
    StepCases(rest, t, ents, wide);
    var out, tail := [rest[0]], rest[1..];
    if t != Cdata && |rest| >= 2 && rest[0] == '&' && rest[1] == '#' {
      var p := Reference(rest);
      if !(p.value == 0 || p.used == |rest| || rest[p.used] != ';') {
        FirstSemicolon(rest);
        out := Written(p.value, wide);
        tail := rest[1..][IndexOf(rest[1..], ';') + 1..];
        assert tail == rest[p.used + 1..];
      }
    } else if t != Cdata && rest[0] == '&' {
      var b := FindEntity(ents, rest[1..]);
      if b < |ents| {
        NamedSemicolon(ents, b, rest);
        out, tail := "", ents[b].value + rest[IndexOf(rest, ';') + 1..];
      }
    } else if t == Attribute && IsSpace(rest[0]) {
      out := " ";
    }
    assert Round(out, tail) == Step(rest, t, ents, wide);
    SofarReplace(buf, s, start, t, ents, wide, out, tail);
    next, j := buf[..s] + out + tail, s + |out|;
  }

  lemma SofarTable(buf: string, i: nat, text: string, t: Mode, ents: seq<Entity>, wide: Encoder)
    requires Sofar(buf, i, text, t, ents, wide)
    ensures TableOk(ents)
  {
  }

  lemma SofarReplace(buf: string, i: nat, text: string, t: Mode, ents: seq<Entity>, wide: Encoder, out: string, tail: string)
    requires Sofar(buf, i, text, t, ents, wide) && i < |buf| && Round(out, tail) == Step(buf[i..], t, ents, wide)
    ensures var next, j := buf[..i] + out + tail, i + |out|;
            && Sofar(next, j, text, t, ents, wide)
            && (EntityStarts(next[j..]) < EntityStarts(buf[i..])
                || (EntityStarts(next[j..]) == EntityStarts(buf[i..]) && |next| - j < |buf| - i))
  {
    hide Decoded, Step, EntityStarts, TableOk;
    Glue(buf[..i], out, tail);
    SofarStep(buf, i, text, t, ents, wide, buf[..i] + out + tail, i + |out|);
  }

  lemma Glue(a: string, b: string, c: string)
    ensures (a + b + c)[..|a| + |b|] == a + b && (a + b + c)[|a| + |b|..] == c
  {
  }

  lemma StepCases(s: string, t: Mode, ents: seq<Entity>, wide: Encoder)
    requires s != "" && TableOk(ents)
    ensures var numeric := t != Cdata && |s| >= 2 && s[0] == '&' && s[1] == '#';
            var named := !numeric && t != Cdata && s[0] == '&';
            && (numeric ==>
                  var p := Reference(s);
                  var ok := p.value != 0 && p.used < |s| && s[p.used] == ';';
                  && ok == IsReference(s)
                  && Step(s, t, ents, wide) == if ok then Round(Written(p.value, wide), s[p.used + 1..]) else Round([s[0]], s[1..]))
            && (named ==>
                  var b := FindEntity(ents, s[1..]);
                  && (b < |ents| ==> ';' in s && StartsWith(s[1..], ents[b].name)
                                     && Step(s, t, ents, wide) == Round("", ents[b].value + s[IndexOf(s, ';') + 1..]))
                  && (b == |ents| ==> Step(s, t, ents, wide) == Round([s[0]], s[1..])))
            && (!numeric && !named ==> Step(s, t, ents, wide) == Round([if t == Attribute && IsSpace(s[0]) then ' ' else s[0]], s[1..]))
  {
    hide Reference, FindEntity, Written;
    if t != Cdata && s[0] == '&' && !(|s| >= 2 && s[1] == '#') && FindEntity(ents, s[1..]) < |ents| {
      NamedSemicolon(ents, FindEntity(ents, s[1..]), s);
    }
  }

  lemma NamedSemicolon(ents: seq<Entity>, b: nat, rest: string)
    requires TableOk(ents) && b < |ents| && rest != "" && StartsWith(rest[1..], ents[b].name)
    ensures ';' in rest
  {
    var k :| 0 <= k < |ents[b].name| && ents[b].name[k] == ';';
    assert rest[1..][..|ents[b].name|][k] == ';';
    assert rest[k + 1] == ';';
  }
}
