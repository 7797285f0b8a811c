/** JsonString (model/json.go): escaping text for a JSON string, byte by byte. */
module JsonText {

  type byte = x: int | 0 <= x < 256

  const BACKSLASH: byte := 0x5C
  const QUOTE: byte := 0x22
  const RUNE_SELF := 0x80
  const RUNE_ERROR := 0xFFFD

  /** safeSet (model/tables.go): printable ASCII and DEL, except the quote and the backslash. */
  predicate Safe(b: byte) {
    0x20 <= b < RUNE_SELF && b != QUOTE && b != BACKSLASH
  }

  /** htmlSafeSet (model/tables.go): the same without '&', '<' and '>'. */
  predicate HtmlSafe(b: byte) {
    Safe(b) && b != 0x26 && b != 0x3C && b != 0x3E
  }

  predicate Plain(b: byte, html: bool) {
    HtmlSafe(b) || (!html && Safe(b))
  }

  function Hex(n: int): byte
    requires 0 <= n < 16
  {
    if n < 10 then 0x30 + n else 0x61 + n - 10
  }

  // ----- UTF-8, section 3 of RFC 3629 -----

  /** The bytes of a code point. */
  function Encode(c: int): (e: seq<byte>)
    requires 0 <= c < 0x110000
    ensures 1 <= |e| <= 4
  {
    if c < 0x80 then [c]
    else if c < 0x800 then [0xC0 + c / 64, 0x80 + c % 64]
    else if c < 0x10000 then [0xE0 + c / 4096, 0x80 + c / 64 % 64, 0x80 + c % 64]
    else [0xF0 + c / 0x40000, 0x80 + c / 4096 % 64, 0x80 + c / 64 % 64, 0x80 + c % 64]
  }

  /** The code points that are characters: all but the halves of surrogate pairs. */
  predicate Scalar(c: int) {
    0 <= c < 0xD800 || 0xE000 <= c < 0x110000
  }

  /** A decoded character and the number of bytes it takes; one byte that is no character decodes to
      Rune(RUNE_ERROR, 1). */
  datatype Rune = Rune(code: int, size: nat)

  const BAD_BYTE := Rune(RUNE_ERROR, 1)

  /** The six low bits of a byte that is not the first of its character. */
  function Low(b: byte): int
  {
    b - 0x80
  }

  predicate Tail(b: byte) {
    0x80 <= b <= 0xBF
  }

  /** The second bytes that may follow a first byte. */
  predicate Second(b0: byte, b1: byte) {
    && Tail(b1)
    && (b0 == 0xE0 ==> b1 >= 0xA0) && (b0 == 0xED ==> b1 <= 0x9F)
    && (b0 == 0xF0 ==> b1 >= 0x90) && (b0 == 0xF4 ==> b1 <= 0x8F)
  }

  /** utf8.DecodeRuneInString at place `i`, where a byte above ASCII stands. */
  function Decode(s: seq<byte>, i: nat): (r: Rune)
    requires i < |s| && s[i] >= RUNE_SELF
    ensures r == BAD_BYTE || (2 <= r.size <= 4 && i + r.size <= |s|)
    ensures r != BAD_BYTE ==> forall j | i <= j < i + r.size :: s[j] >= RUNE_SELF
  {
    var b0: int := s[i];
    var n := |s| - i;
    if 0xC2 <= b0 <= 0xDF && n >= 2 && Second(b0, s[i + 1]) then
      Rune((b0 - 0xC0) * 64 + Low(s[i + 1]), 2)
    else if 0xE0 <= b0 <= 0xEF && n >= 3 && Second(b0, s[i + 1]) && Tail(s[i + 2]) then
      Rune((b0 - 0xE0) * 4096 + Low(s[i + 1]) * 64 + Low(s[i + 2]), 3)
    else if 0xF0 <= b0 <= 0xF4 && n >= 4 && Second(b0, s[i + 1]) && Tail(s[i + 2]) && Tail(s[i + 3]) then
      Rune((b0 - 0xF0) * 262144 + Low(s[i + 1]) * 4096 + Low(s[i + 2]) * 64 + Low(s[i + 3]), 4)
    else BAD_BYTE
  }

  // ----- what escaping means, unit by unit -----

  /** The number of bytes of the unit at place `i`. */
  function Size(s: seq<byte>, i: nat): (n: nat)
    requires i < |s|
    ensures 1 <= n && i + n <= |s|
  {
    if s[i] < RUNE_SELF then 1 else Decode(s, i).size
  }

  /** The byte before place `i` is a backslash. */
  predicate AfterBackslash(s: seq<byte>, i: nat)
    requires i <= |s|
  {
    i > 0 && s[i - 1] == BACKSLASH
  }

  /** The escape of an ASCII byte that may not stand as it is. */
  function Escape(b: byte): seq<byte>
    requires b < RUNE_SELF
  {
    if b == 0x08 then [BACKSLASH, 0x62]
    else if b == 0x0C then [BACKSLASH, 0x66]
    else if b == 0x0A then [BACKSLASH, 0x6E]
    else if b == 0x0D then [BACKSLASH, 0x72]
    else if b == 0x09 then [BACKSLASH, 0x74]
    else [BACKSLASH, 0x75, 0x30, 0x30, Hex(b / 16), Hex(b % 16)]
  }

  /** What becomes of the unit at place `i`. A backslash stays; a quote is left bare exactly when the byte
      before it is a backslash. */
  function Escaped(s: seq<byte>, i: nat, html: bool): seq<byte>
    requires i < |s|
  {
    var b := s[i];
    if b < RUNE_SELF then
      if Plain(b, html) || b == BACKSLASH then [b]
      else if b == QUOTE then (if AfterBackslash(s, i) then [QUOTE] else [BACKSLASH, QUOTE])
      else Escape(b)
    else
      var r := Decode(s, i);
      if r == BAD_BYTE then [BACKSLASH, 0x75, 0x66, 0x66, 0x66, 0x64]
      else if r.code == 0x2028 || r.code == 0x2029 then
        [BACKSLASH, 0x75, 0x32, 0x30, 0x32, Hex(r.code % 16)]
      else s[i..i + r.size]
  }

  function EscapeFrom(s: seq<byte>, i: nat, html: bool): seq<byte>
    requires i <= |s|
    decreases |s| - i
  {
    if i == |s| then [] else Escaped(s, i, html) + EscapeFrom(s, i + Size(s, i), html)
  }

  // ----- the scanner -----

  /** What has been copied, what waits to be copied and what is to come make up the whole. */
  ghost predicate Whole(dst: seq<byte>, out: seq<byte>, src: seq<byte>, start: nat, i: nat, html: bool)
    requires start <= i <= |src|
  {
    out + src[start..i] + EscapeFrom(src, i, html) == dst + EscapeFrom(src, 0, html)
  }

  lemma Begun(dst: seq<byte>, src: seq<byte>, html: bool)
    ensures Whole(dst, dst, src, 0, 0, html)
  {
    assert dst + src[0..0] == dst;
  }

  lemma Finished(dst: seq<byte>, out: seq<byte>, src: seq<byte>, start: nat, html: bool)
    requires start <= |src| && Whole(dst, out, src, start, |src|, html)
    ensures out + src[start..] == dst + EscapeFrom(src, 0, html)
  {
    assert src[start..] == src[start..|src|];
  }

  /** A unit that stays as it is joins the waiting chunk. */
  lemma Waits(dst: seq<byte>, out: seq<byte>, src: seq<byte>, start: nat, i: nat, html: bool)
    requires start <= i < |src| && Whole(dst, out, src, start, i, html)
    requires Escaped(src, i, html) == src[i..i + Size(src, i)]
    ensures Whole(dst, out, src, start, i + Size(src, i), html)
  {
    hide Escaped, Size;
    var n := Size(src, i);
    assert src[start..i + n] == src[start..i] + src[i..i + n];
    Regroup(out, src[start..i], src[i..i + n]);
    Regroup(out + src[start..i], src[i..i + n], EscapeFrom(src, i + n, html));
  }

  lemma Regroup(a: seq<byte>, b: seq<byte>, c: seq<byte>)
    ensures a + (b + c) == a + b + c
  {}

  /** A unit that changes is written behind the waiting chunk. */
  lemma Written(dst: seq<byte>, out: seq<byte>, src: seq<byte>, start: nat, i: nat, html: bool)
    requires start <= i < |src| && Whole(dst, out, src, start, i, html)
    ensures Whole(dst, out + src[start..i] + Escaped(src, i, html), src, i + Size(src, i), i + Size(src, i), html)
  {
    hide Escaped, Size;
    var n := Size(src, i);
    var out' := out + src[start..i] + Escaped(src, i, html);
    assert out' + src[i + n..i + n] == out';
    Regroup(out + src[start..i], Escaped(src, i, html), EscapeFrom(src, i + n, html));
  }

  /** The units of ASCII bytes. */
  lemma AsciiUnit(src: seq<byte>, i: nat, html: bool)
    requires i < |src| && src[i] < RUNE_SELF
    ensures Size(src, i) == 1
    ensures Plain(src[i], html) || (src[i] == QUOTE && AfterBackslash(src, i)) ==>
              Escaped(src, i, html) == src[i..i + 1]
    ensures !Plain(src[i], html) && !(src[i] == QUOTE && AfterBackslash(src, i)) ==>
              Escaped(src, i, html)
              == if src[i] == BACKSLASH then [BACKSLASH]
                 else if src[i] == QUOTE then [BACKSLASH, QUOTE] else Escape(src[i])
  {}

  /** The units that start with a byte above ASCII. */
  lemma WideUnit(src: seq<byte>, i: nat, html: bool)
    requires i < |src| && src[i] >= RUNE_SELF
    ensures Size(src, i) == Decode(src, i).size && src[i + Size(src, i) - 1] != BACKSLASH
    ensures var r := Decode(src, i);
            Escaped(src, i, html)
            == if r.code == RUNE_ERROR && r.size == 1 then [BACKSLASH, 0x75, 0x66, 0x66, 0x66, 0x64]
               else if r.code == 0x2028 || r.code == 0x2029 then [BACKSLASH, 0x75, 0x32, 0x30, 0x32, Hex(r.code % 16)]
               else src[i..i + r.size]
  {}

  /** The chunk-copying loop; `src[start..i]` waits to be copied. Its early `continue` at a quote after a
      backslash copies nothing twice, because `start == i` whenever the byte before `i` is a backslash. */
  method JsonString(dst: seq<byte>, src: seq<byte>, escapeHTML: bool) returns (out: seq<byte>)
    ensures out == dst + EscapeFrom(src, 0, escapeHTML)
  {
    out := dst;
    var start, i := 0, 0;
    hide Whole, EscapeFrom, Escaped, Size, Decode, Escape, Hex;
    Begun(dst, src, escapeHTML);
    while i < |src|
      invariant 0 <= start <= i <= |src|
      invariant AfterBackslash(src, i) ==> start == i
      invariant Whole(dst, out, src, start, i, escapeHTML)
    {
      var b := src[i];
      if b < RUNE_SELF {
        AsciiUnit(src, i, escapeHTML);
        if HtmlSafe(b) || (!escapeHTML && Safe(b)) {
          Waits(dst, out, src, start, i, escapeHTML);
          i := i + 1;
          continue;
        }
        Written(dst, out, src, start, i, escapeHTML);
        ghost var before := out;
        out := out + src[start..i];
        if b == QUOTE && i > 0 && src[i - 1] == BACKSLASH {
          assert out == before;
          Waits(dst, out, src, start, i, escapeHTML);
          i := i + 1;
          continue;
        }
        var special := Special(b);
        out := out + special;
        i := i + 1;
        start := i;
        continue;
      }
      WideUnit(src, i, escapeHTML);
      var r := Decode(src, i);
      if r.code == RUNE_ERROR && r.size == 1 {
        Written(dst, out, src, start, i, escapeHTML);
        out := out + src[start..i];
        out := out + [BACKSLASH, 0x75, 0x66, 0x66, 0x66, 0x64];
        i := i + r.size;
        start := i;
        continue;
      }
      if r.code == 0x2028 || r.code == 0x2029 {
        Written(dst, out, src, start, i, escapeHTML);
        out := out + src[start..i];
        out := out + [BACKSLASH, 0x75, 0x32, 0x30, 0x32, Hex(r.code % 16)];
        i := i + r.size;
        start := i;
        continue;
      }
      Waits(dst, out, src, start, i, escapeHTML);
      i := i + r.size;
    }
    Finished(dst, out, src, start, escapeHTML);
    out := out + src[start..];
  }

  /** The switch of JsonString, without the quote that is left bare. */
  method Special(b: byte) returns (s: seq<byte>)
    requires b < RUNE_SELF
    ensures s == if b == BACKSLASH then [b] else if b == QUOTE then [BACKSLASH, QUOTE] else Escape(b)
  {
    match b
    case 0x5C => s := [BACKSLASH];
    case 0x22 => s := [BACKSLASH, b];
    case 0x08 => s := [BACKSLASH, 0x62];
    case 0x0C => s := [BACKSLASH, 0x66];
    case 0x0A => s := [BACKSLASH, 0x6E];
    case 0x0D => s := [BACKSLASH, 0x72];
    case 0x09 => s := [BACKSLASH, 0x74];
    case _ => s := [BACKSLASH, 0x75, 0x30, 0x30, Hex(b / 16), Hex(b % 16)];
  }
}
