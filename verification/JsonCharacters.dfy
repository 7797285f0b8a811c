/** JsonString in terms of characters: what its decoder knows, and what becomes of every text. */
module JsonCharacters {
  import opened Common
  import opened JsonText
  import opened JsonRoundTrip

  // ----- the decoder undoes the encoder -----

  /** The encoding of `c` stands at place `i`. */
  predicate Stands(s: seq<byte>, i: nat, c: int)
    requires Scalar(c)
  {
    i + |Encode(c)| <= |s| && s[i..i + |Encode(c)|] == Encode(c)
  }

  lemma StandsAt(s: seq<byte>, i: nat, c: int, k: nat)
    requires Scalar(c) && Stands(s, i, c) && k < |Encode(c)|
    ensures s[i + k] == Encode(c)[k]
  {
    assert s[i..i + |Encode(c)|][k] == Encode(c)[k];
  }

  /** The two lowest digits in base 64, and what is above them. */
  lemma Digits(c: int)
    requires c >= 0
    ensures c == c / 64 * 64 + c % 64 && c / 64 == c / 4096 * 64 + c / 64 % 64
    ensures c / 4096 == c / 0x40000 * 64 + c / 4096 % 64
  {}

  lemma TwoBytes(c: int)
    requires 0x80 <= c < 0x800
    ensures var e := Encode(c);
            |e| == 2 && 0xC2 <= e[0] <= 0xDF && Second(e[0], e[1]) && (e[0] - 0xC0) * 64 + Low(e[1]) == c
  {
    Digits(c);
  }

  lemma ThreeBytes(c: int)
    requires 0x800 <= c < 0x10000 && Scalar(c)
    ensures var e := Encode(c);
            && |e| == 3 && 0xE0 <= e[0] <= 0xEF && Second(e[0], e[1]) && Tail(e[2])
            && (e[0] - 0xE0) * 4096 + Low(e[1]) * 64 + Low(e[2]) == c
  {
    Digits(c);
  }

  lemma FourBytes(c: int)
    requires 0x10000 <= c < 0x110000
    ensures var e := Encode(c);
            && |e| == 4 && 0xF0 <= e[0] <= 0xF4 && Second(e[0], e[1]) && Tail(e[2]) && Tail(e[3])
            && (e[0] - 0xF0) * 262144 + Low(e[1]) * 4096 + Low(e[2]) * 64 + Low(e[3]) == c
  {
    Digits(c);
  }

  /** Wherever the encoding of a character stands, that character is decoded. */
  lemma DecodesEncoded(s: seq<byte>, i: nat, c: int)
    requires Scalar(c) && c >= RUNE_SELF && Stands(s, i, c)
    ensures s[i] >= RUNE_SELF && Decode(s, i) == Rune(c, |Encode(c)|)
  {
    if c < 0x800 {
      TwoBytes(c);
    } else if c < 0x10000 {
      ThreeBytes(c);
    } else {
      FourBytes(c);
    }
    hide Encode;
    var e := Encode(c);
    StandsAt(s, i, c, 0);
    StandsAt(s, i, c, 1);
    if |e| > 2 {
      StandsAt(s, i, c, 2);
    }
    if |e| > 3 {
      StandsAt(s, i, c, 3);
    }
  }

  lemma Undigits(x: int, y: int)
    requires x >= 0 && 0 <= y < 64
    ensures (x * 64 + y) / 64 == x && (x * 64 + y) % 64 == y
  {}

  lemma TwoBack(b0: byte, b1: byte)
    requires 0xC2 <= b0 <= 0xDF && Tail(b1)
    ensures var c := (b0 - 0xC0) * 64 + Low(b1); 0x80 <= c < 0x800 && Encode(c) == [b0, b1]
  {
    Undigits(b0 - 0xC0, Low(b1));
  }

  lemma ThreeBack(b0: byte, b1: byte, b2: byte)
    requires 0xE0 <= b0 <= 0xEF && Second(b0, b1) && Tail(b2)
    ensures var c := (b0 - 0xE0) * 4096 + Low(b1) * 64 + Low(b2);
            0x800 <= c < 0x10000 && Scalar(c) && Encode(c) == [b0, b1, b2]
  {
    var c := (b0 - 0xE0) * 4096 + Low(b1) * 64 + Low(b2);
    Undigits((b0 - 0xE0) * 64 + Low(b1), Low(b2));
    Undigits(b0 - 0xE0, Low(b1));
    assert c == ((b0 - 0xE0) * 64 + Low(b1)) * 64 + Low(b2);
    assert c / 4096 == c / 64 / 64;
  }

  lemma FourBack(b0: byte, b1: byte, b2: byte, b3: byte)
    requires 0xF0 <= b0 <= 0xF4 && Second(b0, b1) && Tail(b2) && Tail(b3)
    ensures var c := (b0 - 0xF0) * 262144 + Low(b1) * 4096 + Low(b2) * 64 + Low(b3);
            0x10000 <= c < 0x110000 && Encode(c) == [b0, b1, b2, b3]
  {
    var c := (b0 - 0xF0) * 262144 + Low(b1) * 4096 + Low(b2) * 64 + Low(b3);
    var x := (b0 - 0xF0) * 64 + Low(b1);
    Undigits(x * 64 + Low(b2), Low(b3));
    Undigits(x, Low(b2));
    Undigits(b0 - 0xF0, Low(b1));
    assert c == (x * 64 + Low(b2)) * 64 + Low(b3);
    assert c / 4096 == c / 64 / 64 && c / 0x40000 == c / 4096 / 64;
  }

  /** Whatever is decoded is a character whose encoding stands there. */
  lemma DecodedIsEncoded(s: seq<byte>, i: nat)
    requires i < |s| && s[i] >= RUNE_SELF && Decode(s, i) != BAD_BYTE
    ensures var r := Decode(s, i);
            Scalar(r.code) && r.code >= RUNE_SELF && r.size == |Encode(r.code)| && Stands(s, i, r.code)
  {
    hide Encode;
    var r := Decode(s, i);
    if r.size == 2 {
      TwoBack(s[i], s[i + 1]);
      assert s[i..i + 2] == [s[i], s[i + 1]];
    } else if r.size == 3 {
      ThreeBack(s[i], s[i + 1], s[i + 2]);
      assert s[i..i + 3] == [s[i], s[i + 1], s[i + 2]];
    } else {
      FourBack(s[i], s[i + 1], s[i + 2], s[i + 3]);
      assert s[i..i + 4] == [s[i], s[i + 1], s[i + 2], s[i + 3]];
    }
  }

  // ----- what becomes of a character -----

  const HEX_DIGITS: seq<byte> :=
    [0x30, 0x31, 0x32, 0x33, 0x34, 0x35, 0x36, 0x37, 0x38, 0x39, 0x61, 0x62, 0x63, 0x64, 0x65, 0x66]

  /** A backslash, a `u` and four hexadecimal digits. */
  function LongEscape(c: int): seq<byte>
    requires 0 <= c < 0x10000
  {
    [BACKSLASH, 0x75,
     HEX_DIGITS[c / 4096], HEX_DIGITS[c / 256 % 16], HEX_DIGITS[c / 16 % 16], HEX_DIGITS[c % 16]]
  }

  /** What JsonString makes of character `c`; `after` tells whether a backslash stands right before it. */
  function CharOut(c: int, after: bool, html: bool): seq<byte>
    requires Scalar(c)
  {
    if c == 0x22 then (if after then [QUOTE] else [BACKSLASH, QUOTE])
    else if c == 0x08 then [BACKSLASH, 0x62]
    else if c == 0x09 then [BACKSLASH, 0x74]
    else if c == 0x0A then [BACKSLASH, 0x6E]
    else if c == 0x0C then [BACKSLASH, 0x66]
    else if c == 0x0D then [BACKSLASH, 0x72]
    else if c < 0x20 || c == 0x2028 || c == 0x2029 then LongEscape(c)
    else if html && (c == 0x26 || c == 0x3C || c == 0x3E) then LongEscape(c)
    else Encode(c)
  }

  lemma HexIs(n: int)
    requires 0 <= n < 16
    ensures Hex(n) == HEX_DIGITS[n]
  {}

  lemma AsciiOut(s: seq<byte>, i: nat, html: bool)
    requires i < |s| && s[i] < RUNE_SELF
    ensures Size(s, i) == 1 && Escaped(s, i, html) == CharOut(s[i], AfterBackslash(s, i), html)
  {
    AsciiUnit(s, i, html);
    if !Plain(s[i], html) && s[i] != BACKSLASH && s[i] != QUOTE {
      EscapeIs(s[i], AfterBackslash(s, i), html);
    }
    hide Escaped, Escape, LongEscape;
  }

  lemma EscapeIs(b: byte, after: bool, html: bool)
    requires b < RUNE_SELF && !Plain(b, html) && b != BACKSLASH && b != QUOTE
    ensures Escape(b) == CharOut(b, after, html)
  {
    HexIs(b / 16);
    HexIs(b % 16);
  }

  lemma WideOut(s: seq<byte>, i: nat, c: int, html: bool)
    requires Scalar(c) && c >= RUNE_SELF && Stands(s, i, c)
    ensures Size(s, i) == |Encode(c)| && Escaped(s, i, html) == CharOut(c, AfterBackslash(s, i), html)
  {
    DecodesEncoded(s, i, c);
    WideUnit(s, i, html);
    SeparatorsOut();
    hide Decode, Encode, Escaped, Size, LongEscape, Hex;
  }

  lemma SeparatorsOut()
    ensures LongEscape(0x2028) == [BACKSLASH, 0x75, 0x32, 0x30, 0x32, Hex(0x2028 % 16)]
    ensures LongEscape(0x2029) == [BACKSLASH, 0x75, 0x32, 0x30, 0x32, Hex(0x2029 % 16)]
  {}

  /** A byte that stands for itself. */
  lemma AsciiStands(s: seq<byte>, i: nat, c: int)
    requires Scalar(c) && c < RUNE_SELF && Stands(s, i, c)
    ensures i < |s| && s[i] == c && |Encode(c)| == 1
  {
    StandsAt(s, i, c, 0);
  }

  lemma UnitOut(s: seq<byte>, i: nat, c: int, html: bool)
    requires Scalar(c) && Stands(s, i, c)
    ensures i < |s| && Size(s, i) == |Encode(c)| && Escaped(s, i, html) == CharOut(c, AfterBackslash(s, i), html)
  {
    hide Escaped, Size, CharOut;
    if c < RUNE_SELF {
      AsciiStands(s, i, c);
      AsciiOut(s, i, html);
    } else {
      WideOut(s, i, c, html);
    }
  }

  /** At every place of every source: a character that stands there becomes what it should, and the rest
      follows. */
  lemma CharacterEscapes(s: seq<byte>, i: nat, c: int, html: bool)
    requires Scalar(c) && Stands(s, i, c)
    ensures EscapeFrom(s, i, html)
         == CharOut(c, AfterBackslash(s, i), html) + EscapeFrom(s, i + |Encode(c)|, html)
  {
    hide Escaped, Size, CharOut, Encode;
    UnitOut(s, i, c, html);
  }

  /** And a byte at which no character stands becomes the escape of U+FFFD. */
  lemma BadByteEscapes(s: seq<byte>, i: nat, html: bool)
    requires i < |s| && forall c: int | Scalar(c) :: !Stands(s, i, c)
    ensures EscapeFrom(s, i, html) == LongEscape(RUNE_ERROR) + EscapeFrom(s, i + 1, html)
  {
    NoCharacter(s, i);
    hide Decode, Stands, Escaped, Size;
    BadUnit(s, i, html);
  }

  lemma BadUnit(s: seq<byte>, i: nat, html: bool)
    requires i < |s| && s[i] >= RUNE_SELF && Decode(s, i) == BAD_BYTE
    ensures Size(s, i) == 1 && Escaped(s, i, html) == LongEscape(RUNE_ERROR)
  {
    WideUnit(s, i, html);
    hide Decode, Escaped, Size;
    assert LongEscape(RUNE_ERROR) == [BACKSLASH, 0x75, 0x66, 0x66, 0x66, 0x64];
  }

  lemma NoCharacter(s: seq<byte>, i: nat)
    requires i < |s| && forall c: int | Scalar(c) :: !Stands(s, i, c)
    ensures s[i] >= RUNE_SELF && Decode(s, i) == BAD_BYTE
  {
    hide Decode, Encode;
    if s[i] >= RUNE_SELF ==> Decode(s, i) != BAD_BYTE {
      var c := CharacterAt(s, i);
    }
  }

  // ----- whole texts -----

  predicate Scalars(cs: seq<int>) {
    forall k | 0 <= k < |cs| :: Scalar(cs[k])
  }

  /** The bytes of a text. */
  function Text(cs: seq<int>): seq<byte>
    requires Scalars(cs)
  {
    if cs == [] then [] else Encode(cs[0]) + Text(cs[1..])
  }

  /** What JsonString should make of a text. */
  function TextOut(cs: seq<int>, after: bool, html: bool): seq<byte>
    requires Scalars(cs)
  {
    if cs == [] then [] else CharOut(cs[0], after, html) + TextOut(cs[1..], cs[0] == 0x5C, html)
  }

  lemma TextStands(s: seq<byte>, i: nat, cs: seq<int>)
    requires Scalars(cs) && cs != [] && i <= |s| && s[i..] == Text(cs)
    ensures Stands(s, i, cs[0]) && i + |Encode(cs[0])| <= |s| && s[i + |Encode(cs[0])|..] == Text(cs[1..])
  {
    hide Encode;
    var e, rest := Encode(cs[0]), Text(cs[1..]);
    assert s[i..] == e + rest;
    assert s[i..][..|e|] == e && s[i..][|e|..] == rest;
    assert s[i..i + |e|] == s[i..][..|e|] && s[i + |e|..] == s[i..][|e|..];
  }

  /** The byte before what follows a character is a backslash exactly if the character is. */
  lemma AfterCharacter(s: seq<byte>, i: nat, c: int)
    requires Scalar(c) && Stands(s, i, c)
    ensures AfterBackslash(s, i + |Encode(c)|) <==> c == 0x5C
  {
    StandsAt(s, i, c, |Encode(c)| - 1);
  }

  lemma {:induction false} RestOfText(s: seq<byte>, i: nat, cs: seq<int>, html: bool)
    requires Scalars(cs) && i <= |s| && s[i..] == Text(cs)
    ensures EscapeFrom(s, i, html) == TextOut(cs, AfterBackslash(s, i), html)
    ensures ValidUtf8(s, i)
    decreases |cs|
  {
    hide Encode, CharOut, Escaped, Size, Stands, AfterBackslash;
    if cs == [] {
      assert i == |s|;
    } else {
      TextStands(s, i, cs);
      AfterCharacter(s, i, cs[0]);
      CharacterEscapes(s, i, cs[0], html);
      UnitOut(s, i, cs[0], html);
      NotBad(s, i, cs[0]);
      RestOfText(s, i + |Encode(cs[0])|, cs[1..], html);
    }
  }

  lemma NotBad(s: seq<byte>, i: nat, c: int)
    requires Scalar(c) && Stands(s, i, c)
    ensures i < |s| && (s[i] >= RUNE_SELF ==> Decode(s, i) != BAD_BYTE)
  {
    if c < RUNE_SELF {
      AsciiStands(s, i, c);
    } else {
      DecodesEncoded(s, i, c);
      hide Encode, Decode;
    }
  }

  /** Every text comes out character by character. */
  lemma TextEscapes(cs: seq<int>, html: bool)
    requires Scalars(cs)
    ensures EscapeFrom(Text(cs), 0, html) == TextOut(cs, false, html)
  {
    assert Text(cs)[0..] == Text(cs);
    RestOfText(Text(cs), 0, cs, html);
  }

  lemma {:induction false} NoBackslashByte(cs: seq<int>)
    requires Scalars(cs) && 0x5C !in cs
    ensures BACKSLASH !in Text(cs)
  {
    if cs != [] {
      assert cs[0] in cs && cs == [cs[0]] + cs[1..];
      NoBackslashByte(cs[1..]);
      assert BACKSLASH !in Encode(cs[0]);
    }
  }

  /** Every text without a backslash is read back as it was. */
  lemma TextRoundTrip(cs: seq<int>, html: bool)
    requires Scalars(cs) && 0x5C !in cs
    ensures Unescape(EscapeFrom(Text(cs), 0, html)) == Some(Text(cs))
  {
    assert Text(cs)[0..] == Text(cs);
    RestOfText(Text(cs), 0, cs, html);
    NoBackslashByte(cs);
    RoundTrip(Text(cs), html);
  }

  /** The sources that are valid UTF-8 are the texts. */
  lemma {:induction false} ValidIsText(s: seq<byte>, i: nat) returns (cs: seq<int>)
    requires i <= |s| && ValidUtf8(s, i)
    ensures Scalars(cs) && s[i..] == Text(cs)
    decreases |s| - i
  {
    if i == |s| {
      cs := [];
    } else {
      hide Encode, Size, Decode, Text;
      var n := Size(s, i);
      var rest := ValidIsText(s, i + n);
      var c := CharacterAt(s, i);
      cs := [c] + rest;
      TextStarts(c, rest);
      assert s[i..] == s[i..i + n] + s[i + n..];
    }
  }

  lemma TextStarts(c: int, cs: seq<int>)
    requires Scalar(c) && Scalars(cs)
    ensures Scalars([c] + cs) && Text([c] + cs) == Encode(c) + Text(cs)
  {
    hide Encode, Scalar;
    assert ([c] + cs)[1..] == cs;
  }

  lemma CharacterAt(s: seq<byte>, i: nat) returns (c: int)
    requires i < |s| && (s[i] >= RUNE_SELF ==> Decode(s, i) != BAD_BYTE)
    ensures Scalar(c) && Size(s, i) == |Encode(c)| && s[i..i + Size(s, i)] == Encode(c)
  {
    if s[i] < RUNE_SELF {
      c := s[i];
    } else {
      DecodedIsEncoded(s, i);
      hide Encode, Decode;
      c := Decode(s, i).code;
    }
  }
}
