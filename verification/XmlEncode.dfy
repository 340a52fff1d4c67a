/** Encoding text for XML, and the round trip through decoding. */
module XmlEncode {
  import opened XmlDecode
  import opened XmlReferences

  const BufSize: nat := 1024

  /** What a character is written as; attribute values also protect quotes, line feeds and tabs. */
  function Piece(c: char, attribute: bool): (p: string)
    ensures 0 < |p| <= 6
  {
    if c == '&' then "&amp;"
    else if c == '<' then "&lt;"
    else if c == '>' then "&gt;"
    else if c == '\"' then (if attribute then "&quot;" else "\"")
    else if c == '\n' then (if attribute then "&#xA;" else "\n")
    else if c == '\t' then (if attribute then "&#x9;" else "\t")
    else if c == '\r' then "&#xD;"
    else [c]
  }

  /** Encoding stops at a NUL. */
  function Encoded(s: string, attribute: bool): string {
    if s == "" || s[0] == '\0' then "" else Piece(s[0], attribute) + Encoded(s[1..], attribute)
  }

  lemma {:induction false} EncodedSnoc(s: string, i: nat, attribute: bool)
    requires i < |s| && '\0' !in s[..i]
    ensures Encoded(s, attribute) == Encoded(s[..i], attribute) + Encoded(s[i..], attribute)
  {
    hide Piece;
    if i == 0 {
      assert s[..0] == "" && s[0..] == s;
    } else {
      assert s[0] == s[..i][0] && s[..i][1..] == s[1..][..i - 1] && s[1..][i - 1..] == s[i..];
      assert '\0' !in s[1..][..i - 1];
      EncodedSnoc(s[1..], i - 1, attribute);
      assert Encoded(s[..i], attribute) == Piece(s[0], attribute) + Encoded(s[1..][..i - 1], attribute);
    }
  }

  /** The growing output: max characters allocated, len of them used. */
  class Output {
    var data: array<char>
    var len: nat
    var max: nat

    ghost predicate Valid()
      reads this, data
    {
      len <= max == data.Length
    }

    ghost function Text(): string
      requires Valid()
      reads this, data
    {
      data[..len]
    }

    constructor ()
      ensures Valid() && fresh(data) && Text() == ""
    {
      data := new char[BufSize](_ => '\0');
      len, max := 0, BufSize;
    }

    /** Makes room for ten more characters, which is enough for any piece and a terminating NUL. */
    method Reserve()
      requires Valid()
      modifies this
      ensures Valid() && len + 10 <= max && Text() == old(Text()) && (data == old(data) || fresh(data))
    {
      while len + 10 > max
        invariant Valid() && len == old(len) && Text() == old(Text()) && (data == old(data) || fresh(data))
        decreases len + 10 - max
      {
        var bigger := new char[max + BufSize](i requires 0 <= i reads this, data => if i < data.Length then data[i] else '\0');
        assert bigger[..len] == data[..len];
        data, max := bigger, max + BufSize;
      }
    }

    /** Writes a piece and its terminating NUL, as sprintf does. */
    method Write(p: string)
      requires Valid() && len + |p| < max
      modifies this`len, data
      ensures Valid() && Text() == old(Text()) + p
    {
      for i := 0 to |p|
        invariant Valid() && len == old(len) && data[..len + i] == old(Text()) + p[..i]
      {
        data[len + i] := p[i];
        assert data[..len + i + 1] == data[..len + i] + [p[i]];
        assert p[..i + 1] == p[..i] + [p[i]];
      }
      data[len + |p|] := '\0';
      len := len + |p|;
      assert p[..|p|] == p;
    }

    /** ezxml_ampencode: appends the encoding, never writing beyond what is allocated. */
    method Ampencode(s: string, attribute: bool)
      requires Valid()
      modifies this, data
      ensures Valid() && Text() == old(Text()) + Encoded(s, attribute)
    {
      hide Encoded, Piece;
      NothingEncoded(attribute);
      for i := 0 to |s|
        invariant Valid() && (data == old(data) || fresh(data))
        invariant '\0' !in s[..i] && Text() == old(Text()) + Encoded(s[..i], attribute)
      {
        Reserve();
        EncodedNext(s, i, attribute);
        if s[i] == '\0' {
          return;
        }
        Write(Piece(s[i], attribute));
      }
      assert s[..|s|] == s;
    }
  }

  lemma NothingEncoded(attribute: bool)
    ensures Encoded("", attribute) == ""
  {
  }

  lemma EncodedNext(s: string, i: nat, attribute: bool)
    requires i < |s| && '\0' !in s[..i]
    ensures s[i] == '\0' ==> Encoded(s, attribute) == Encoded(s[..i], attribute)
    ensures s[i] != '\0' ==>
              Encoded(s[..i + 1], attribute) == Encoded(s[..i], attribute) + Piece(s[i], attribute) && '\0' !in s[..i + 1]
  {
    EncodedSnoc(s, i, attribute);
    if s[i] != '\0' {
      var t := s[..i + 1];
      assert t[..i] == s[..i] && t[i..] == [s[i]];
      EncodedSnoc(t, i, attribute);
      assert [s[i]][1..] == "";
    }
  }

  // ----- Round trip -----

  /** What a character comes back as: attribute values lose the white space that encoding leaves alone. */
  function Back(c: char, attribute: bool, t: Mode): char {
    if t == Attribute && IsSpace(c) && Piece(c, attribute) == [c] then ' ' else c
  }

  function BackAll(s: string, attribute: bool, t: Mode): (r: string)
    ensures |r| == |s|
  {
    seq(|s|, i requires 0 <= i < |s| => Back(s[i], attribute, t))
  }

  /** "&#x", a hexadecimal digit and a semicolon. */
  lemma OneDigit(d: char, n: nat, rest: string, t: Mode, wide: Encoder)
    requires Writes(d, n) && 0 < n < 16 && t != Cdata && TableOk(BuiltIn)
    ensures Decoded(['&', '#', 'x', d, ';'] + rest, t, BuiltIn, wide) == [n as char] + Decoded(rest, t, BuiltIn, wide)
  {
    hide Decoded, TableOk, Writes;
    assert [n][..0] == [] && ValueOf([n], 16) == n;
    PlainReference(true, [d], [n], rest, t, BuiltIn, wide);
    assert "&#x" + [d] + ";" + rest == ['&', '#', 'x', d, ';'] + rest;
  }

  /** Decoding a piece that is followed by anything gives back its character. */
  lemma PieceDecodes(c: char, attribute: bool, rest: string, t: Mode, wide: Encoder)
    requires t != Cdata && TableOk(BuiltIn)
    ensures Decoded(Piece(c, attribute) + rest, t, BuiltIn, wide) == [Back(c, attribute, t)] + Decoded(rest, t, BuiltIn, wide)
  {
    hide Decoded, TableOk;
    FiveEntities(rest, t, wide);
    if c == '\n' && attribute {
      OneDigit('A', 10, rest, t, wide);
    } else if c == '\t' && attribute {
      OneDigit('9', 9, rest, t, wide);
    } else if c == '\r' {
      OneDigit('D', 13, rest, t, wide);
    } else if Piece(c, attribute) == [c] {
      OtherCharacter(c, rest, t, BuiltIn, wide);
    }
  }

  lemma {:induction false} EncodedDecodes(s: string, attribute: bool, t: Mode, wide: Encoder)
    requires '\0' !in s && t != Cdata && TableOk(BuiltIn)
    ensures Decoded(Encoded(s, attribute), t, BuiltIn, wide) == BackAll(s, attribute, t)
  {
    hide Decoded, TableOk, Piece, Back;
    if s == "" {
      NothingDecoded(t, BuiltIn, wide);
    } else {
      assert s[0] in s && forall i | 0 <= i < |s| - 1 :: s[1..][i] == s[i + 1];
      EncodedDecodes(s[1..], attribute, t, wide);
      PieceDecodes(s[0], attribute, Encoded(s[1..], attribute), t, wide);
    }
  }

  /** No character that markup is made of is left, and in attributes no quote, line feed or tab; what is left of '&' begins references. */
  lemma {:induction false} EncodedSafe(s: string, attribute: bool)
    ensures '<' !in Encoded(s, attribute) && '>' !in Encoded(s, attribute) && '\r' !in Encoded(s, attribute)
    ensures attribute ==> '\"' !in Encoded(s, attribute) && '\n' !in Encoded(s, attribute) && '\t' !in Encoded(s, attribute)
  {
    if s != "" && s[0] != '\0' {
      EncodedSafe(s[1..], attribute);
      PieceSafe(s[0], attribute);
    }
  }

  lemma PieceSafe(c: char, attribute: bool)
    ensures '<' !in Piece(c, attribute) && '>' !in Piece(c, attribute) && '\r' !in Piece(c, attribute)
    ensures attribute ==> '\"' !in Piece(c, attribute) && '\n' !in Piece(c, attribute) && '\t' !in Piece(c, attribute)
  {
  }

  predicate Protected(c: char, attribute: bool) {
    c in "&<>\r" || (attribute && c in "\"\n\t")
  }

  lemma {:induction false} EncodedLonger(s: string, attribute: bool)
    requires '\0' !in s
    ensures |Encoded(s, attribute)| >= |s|
    ensures (exists i :: 0 <= i < |s| && Protected(s[i], attribute)) ==> |Encoded(s, attribute)| > |s|
    ensures (forall i | 0 <= i < |s| :: !Protected(s[i], attribute)) ==> Encoded(s, attribute) == s
  {
    hide Protected, Piece;
    if s != "" {
      assert s[0] in s && forall i | 0 <= i < |s| - 1 :: s[1..][i] == s[i + 1];
      EncodedLonger(s[1..], attribute);
      PieceLonger(s[0], attribute);
      assert s == [s[0]] + s[1..];
      if i :| 0 <= i < |s| && Protected(s[i], attribute) {
        assert i > 0 ==> Protected(s[1..][i - 1], attribute);
      }
    }
  }

  lemma PieceLonger(c: char, attribute: bool)
    ensures if Protected(c, attribute) then |Piece(c, attribute)| > 1 else Piece(c, attribute) == [c]
  {
  }

  /** Encoding changes a text exactly when it has a character to protect. */
  lemma EncodedSame(s: string, attribute: bool)
    requires '\0' !in s
    ensures Encoded(s, attribute) == s <==> forall i | 0 <= i < |s| :: !Protected(s[i], attribute)
  {
    EncodedLonger(s, attribute);
  }

  /**
   * What encoding and decoding do to text without NUL: nothing in character content; in attributes a vertical tab or a
   * form feed becomes a space, so the round trip is exact exactly when there is neither. The decoder never leaves an
   * encoded text.
   */
  lemma RoundTrip(s: string, wide: Encoder)
    requires '\0' !in s
    ensures TableOk(BuiltIn) && !RunsPast(Encoded(s, false)) && !RunsPast(Encoded(s, true))
    ensures Decoded(Normalize(Encoded(s, false)), Content, BuiltIn, wide) == s
    ensures Decoded(Normalize(Encoded(s, true)), Attribute, BuiltIn, wide) == s <==> '\U{0B}' !in s && '\U{0C}' !in s
  {
    hide Decoded, TableOk, Encoded;
    BuiltInOk();
    EncodedSafe(s, false);
    EncodedSafe(s, true);
    NormalizeIdentity(Encoded(s, false));
    NormalizeIdentity(Encoded(s, true));
    EncodedDecodes(s, false, Content, wide);
    EncodedDecodes(s, true, Attribute, wide);
    assert BackAll(s, false, Content) == s;
    BackExact(s);
  }

  lemma BackExact(s: string)
    ensures BackAll(s, true, Attribute) == s <==> '\U{0B}' !in s && '\U{0C}' !in s
  {
    var r := BackAll(s, true, Attribute);
    forall i | 0 <= i < |s| ensures r[i] == s[i] <==> s[i] != '\U{0B}' && s[i] != '\U{0C}' {
      BackOne(s[i]);
    }
  }

  lemma BackOne(c: char)
    ensures Back(c, true, Attribute) == c <==> c != '\U{0B}' && c != '\U{0C}'
  {
    assert c == '\n' || c == '\t' || c == '\r' ==> |Piece(c, true)| == 5;
  }
}
