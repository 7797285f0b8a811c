/** Reading a JSON string back (section 7 of RFC 8259) undoes JsonString. */
module JsonRoundTrip {
  import opened Common
  import opened JsonText

  /** The value of a hexadecimal digit. */
  function Digit(b: byte): (d: Option<int>)
    ensures d.Some? ==> 0 <= d.value < 16
  {
    if 0x30 <= b <= 0x39 then Some(b - 0x30)
    else if 0x61 <= b <= 0x66 then Some(b - 0x61 + 10)
    else if 0x41 <= b <= 0x46 then Some(b - 0x41 + 10)
    else None
  }

  /** The byte that a two-character escape stands for. */
  function Short(b: byte): Option<byte> {
    if b == QUOTE || b == BACKSLASH || b == 0x2F then Some(b)
    else if b == 0x62 then Some(0x08)
    else if b == 0x66 then Some(0x0C)
    else if b == 0x6E then Some(0x0A)
    else if b == 0x72 then Some(0x0D)
    else if b == 0x74 then Some(0x09)
    else None
  }

  function Code(a: byte, b: byte, c: byte, d: byte): (r: Option<int>)
    ensures r.Some? ==> 0 <= r.value < 0x10000
  {
    if Digit(a).Some? && Digit(b).Some? && Digit(c).Some? && Digit(d).Some?
    then Some(Digit(a).value * 4096 + Digit(b).value * 256 + Digit(c).value * 16 + Digit(d).value)
    else None
  }

  function Prepend(a: seq<byte>, r: Option<seq<byte>>): Option<seq<byte>> {
    if r.Some? then Some(a + r.value) else None
  }

  /** A `\u` escape stands at the start of the text. */
  predicate Long(y: seq<byte>) {
    |y| >= 6 && y[0] == BACKSLASH && y[1] == 0x75 && Code(y[2], y[3], y[4], y[5]).Some?
  }

  function LongCode(y: seq<byte>): (code: int)
    requires Long(y)
    ensures 0 <= code < 0x10000
  {
    Code(y[2], y[3], y[4], y[5]).value
  }

  predicate HighHalf(code: int) {
    0xD800 <= code < 0xDC00
  }

  predicate LowHalf(code: int) {
    0xDC00 <= code < 0xE000
  }

  /** Two `\u` escapes that make up one character outside the basic plane. */
  predicate Pair(y: seq<byte>) {
    Long(y) && HighHalf(LongCode(y)) && Long(y[6..]) && LowHalf(LongCode(y[6..]))
  }

  /** The UTF-8 bytes of such a character. */
  function PairUtf8(high: int, low: int): seq<byte>
    requires HighHalf(high) && LowHalf(low)
  {
    Encode(0x10000 + (high - 0xD800) * 0x400 + (low - 0xDC00))
  }

  /** Half a pair alone reads as U+FFFD. */
  function LongUtf8(code: int): seq<byte>
    requires 0 <= code < 0x10000
  {
    Encode(if HighHalf(code) || LowHalf(code) then RUNE_ERROR else code)
  }

  /** The bytes that may not stand unescaped inside a JSON string. */
  predicate Forbidden(b: byte) {
    b < 0x20 || b == QUOTE || b == BACKSLASH
  }

  /** The text that the inside of a JSON string stands for; None if it is malformed. */
  function Unescape(y: seq<byte>): Option<seq<byte>> {
    if y == [] then Some([])
    else if !Forbidden(y[0]) then Prepend([y[0]], Unescape(y[1..]))
    else if y[0] != BACKSLASH then None
    else if |y| >= 2 && Short(y[1]).Some? then Prepend([Short(y[1]).value], Unescape(y[2..]))
    else if Pair(y) then Prepend(PairUtf8(LongCode(y), LongCode(y[6..])), Unescape(y[12..]))
    else if Long(y) then Prepend(LongUtf8(LongCode(y)), Unescape(y[6..]))
    else None
  }

  /** The source with every byte that is no character replaced by U+FFFD. */
  function Repaired(s: seq<byte>, i: nat): seq<byte>
    requires i <= |s|
    decreases |s| - i
  {
    if i == |s| then [] else Meant(s, i) + Repaired(s, i + Size(s, i))
  }

  function Meant(s: seq<byte>, i: nat): seq<byte>
    requires i < |s|
  {
    if s[i] >= RUNE_SELF && Decode(s, i) == BAD_BYTE then Encode(RUNE_ERROR) else s[i..i + Size(s, i)]
  }

  // ----- unit by unit -----

  lemma {:induction false} ReadCopied(u: seq<byte>, rest: seq<byte>)
    requires forall b | b in u :: !Forbidden(b)
    ensures Unescape(u + rest) == Prepend(u, Unescape(rest))
    decreases |u|
  {
    if u == [] {
      assert u + rest == rest;
      if Unescape(rest).Some? {
        assert u + Unescape(rest).value == Unescape(rest).value;
      }
    } else {
      assert (u + rest)[1..] == u[1..] + rest;
      ReadCopied(u[1..], rest);
      if Unescape(rest).Some? {
        assert [u[0]] + (u[1..] + Unescape(rest).value) == u + Unescape(rest).value;
      }
    }
  }

  lemma ReadShort(b: byte, rest: seq<byte>)
    requires Short(b).Some?
    ensures Unescape([BACKSLASH, b] + rest) == Prepend([Short(b).value], Unescape(rest))
  {
    assert ([BACKSLASH, b] + rest)[2..] == rest;
  }

  lemma ReadLong(a: byte, b: byte, c: byte, d: byte, rest: seq<byte>)
    requires Code(a, b, c, d).Some? && !HighHalf(Code(a, b, c, d).value)
    ensures Unescape([BACKSLASH, 0x75, a, b, c, d] + rest) == Prepend(LongUtf8(Code(a, b, c, d).value), Unescape(rest))
  {
    assert ([BACKSLASH, 0x75, a, b, c, d] + rest)[6..] == rest;
  }

  lemma HexDigit(n: int)
    requires 0 <= n < 16
    ensures Digit(Hex(n)) == Some(n)
  {}

  /** The two separators that are always escaped. */
  lemma Separator(s: seq<byte>, i: nat)
    requires i < |s| && s[i] >= RUNE_SELF && Decode(s, i) != BAD_BYTE
    requires Decode(s, i).code == 0x2028 || Decode(s, i).code == 0x2029
    ensures s[i..i + Decode(s, i).size] == Encode(Decode(s, i).code)
  {}

  /** A unit that is no backslash and no quote right behind one reads back as itself. */
  lemma UnitReadsBack(s: seq<byte>, i: nat, html: bool, rest: seq<byte>)
    requires i < |s| && s[i] != BACKSLASH && !(s[i] == QUOTE && AfterBackslash(s, i))
    ensures Unescape(Escaped(s, i, html) + rest) == Prepend(Meant(s, i), Unescape(rest))
  {
    hide Unescape;
    if s[i] < RUNE_SELF {
      AsciiReadsBack(s, i, html, rest);
      assert s[i..i + 1] == [s[i]];
    } else {
      var r := Decode(s, i);
      if r == BAD_BYTE {
        ReadLong(0x66, 0x66, 0x66, 0x64, rest);
      } else if r.code == 0x2028 || r.code == 0x2029 {
        HexDigit(r.code % 16);
        ReadLong(0x32, 0x30, 0x32, Hex(r.code % 16), rest);
        Separator(s, i);
      } else {
        ReadCopied(s[i..i + r.size], rest);
      }
    }
  }

  lemma AsciiReadsBack(s: seq<byte>, i: nat, html: bool, rest: seq<byte>)
    requires i < |s| && s[i] < RUNE_SELF && s[i] != BACKSLASH && !(s[i] == QUOTE && AfterBackslash(s, i))
    ensures Unescape(Escaped(s, i, html) + rest) == Prepend([s[i]], Unescape(rest))
  {
    hide Unescape;
    var b := s[i];
    if Plain(b, html) {
      ReadCopied([b], rest);
    } else if b == QUOTE {
      ReadShort(QUOTE, rest);
    } else if Escape(b)[1] != 0x75 {
      ReadShort(Escape(b)[1], rest);
    } else {
      HexDigit(b / 16);
      HexDigit(b % 16);
      ReadLong(0x30, 0x30, Hex(b / 16), Hex(b % 16), rest);
    }
  }

  lemma {:induction false} RestReadsBack(s: seq<byte>, i: nat, html: bool)
    requires i <= |s| && BACKSLASH !in s
    ensures Unescape(EscapeFrom(s, i, html)) == Some(Repaired(s, i))
    decreases |s| - i
  {
    hide Escaped, Size, Meant;
    if i < |s| {
      RestReadsBack(s, i + Size(s, i), html);
      UnitReadsBack(s, i, html, EscapeFrom(s, i + Size(s, i), html));
    }
  }

  /** Every byte belongs to a character. */
  predicate ValidUtf8(s: seq<byte>, i: nat)
    requires i <= |s|
    decreases |s| - i
  {
    i == |s| || ((s[i] >= RUNE_SELF ==> Decode(s, i) != BAD_BYTE) && ValidUtf8(s, i + Size(s, i)))
  }

  lemma {:induction false} ValidIsWhole(s: seq<byte>, i: nat)
    requires i <= |s| && ValidUtf8(s, i)
    ensures Repaired(s, i) == s[i..]
    decreases |s| - i
  {
    if i < |s| {
      ValidIsWhole(s, i + Size(s, i));
    }
  }

  /** For every source without a backslash, reading the escaped text back gives the source, with bytes that
      are no characters replaced by U+FFFD; for valid UTF-8 it gives the source itself. */
  lemma RoundTrip(s: seq<byte>, html: bool)
    requires BACKSLASH !in s
    ensures Unescape(EscapeFrom(s, 0, html)) == Some(Repaired(s, 0))
    ensures ValidUtf8(s, 0) ==> Unescape(EscapeFrom(s, 0, html)) == Some(s)
  {
    RestReadsBack(s, 0, html);
    if ValidUtf8(s, 0) {
      ValidIsWhole(s, 0);
      assert s[0..] == s;
    }
  }

  /** With backslashes, which pass through unchanged, different sources can come out the same: a line feed,
      and a backslash followed by an `n`. */
  lemma BackslashesCollide(html: bool)
    ensures EscapeFrom([0x0A], 0, html) == EscapeFrom([BACKSLASH, 0x6E], 0, html)
  {
    var s: seq<byte> := [BACKSLASH, 0x6E];
    assert Escaped(s, 0, html) == [BACKSLASH] && Escaped(s, 1, html) == [0x6E];
    assert EscapeFrom(s, 1, html) == [0x6E] + EscapeFrom(s, 2, html);
    assert EscapeFrom([0x0A], 0, html) == [BACKSLASH, 0x6E] + EscapeFrom([0x0A], 1, html);
  }
}
