/** Which sources JsonString makes readable between quotes, and which of them read as what they were. */
module JsonReading {
  import opened Common
  import opened JsonText
  import opened JsonTheorems
  import opened JsonRoundTrip

  // ----- a condition on the source -----

  /** From place `i` on stand `n` hexadecimal digits. */
  predicate HexAt(s: seq<byte>, i: nat, n: nat) {
    i + n <= |s| && forall k | i <= k < i + n :: Digit(s[k]).Some?
  }

  /** The unit at place `i` is a control byte, an HTML byte if those are escaped, a byte that is no
      character, or U+2028 or U+2029. */
  predicate Escapes(s: seq<byte>, i: nat, html: bool)
    requires i < |s|
  {
    if s[i] < RUNE_SELF then s[i] < 0x20 || (html && (s[i] == 0x26 || s[i] == 0x3C || s[i] == 0x3E))
    else Decode(s, i) == BAD_BYTE || Decode(s, i).code == 0x2028 || Decode(s, i).code == 0x2029
  }

  /** From place `i` on, which is not inside an escape, every backslash of the source has something to
      escape, and no other quote stands right behind a backslash. */
  predicate Paired(s: seq<byte>, i: nat, html: bool)
    requires i <= |s|
    decreases |s| - i
  {
    if i == |s| then true
    else if s[i] != BACKSLASH then
      !(s[i] == QUOTE && AfterBackslash(s, i)) && Paired(s, i + Size(s, i), html)
    else if i + 1 == |s| then false
    else if Short(s[i + 1]).Some? then Paired(s, i + 2, html)
    else if s[i + 1] == 0x75 then HexAt(s, i + 2, 4) && Paired(s, i + 6, html)
    else Escapes(s, i + 1, html) && Paired(s, i + 1 + Size(s, i + 1), html)
  }

  // ----- a weight that escapes of the source lose when they are read -----

  function Weight(b: byte): nat {
    if b == BACKSLASH || b < 0x20 || b in {0x26, 0x3C, 0x3E, 0xE2, 0xEF} then 6 else 1
  }

  function Total(s: seq<byte>): nat {
    if s == [] then 0 else Weight(s[0]) + Total(s[1..])
  }

  lemma {:induction false} TotalJoin(a: seq<byte>, b: seq<byte>)
    ensures Total(a + b) == Total(a) + Total(b)
  {
    if a == [] {
      assert a + b == b;
    } else {
      assert (a + b)[1..] == a[1..] + b;
      TotalJoin(a[1..], b);
    }
  }

  // ----- piece by piece -----

  predicate HasBackslash(s: seq<byte>, i: nat, j: nat)
    requires i <= j <= |s|
  {
    exists k: nat | i <= k < j :: s[k] == BACKSLASH
  }

  /** The output from place `i` on is readable exactly if the source is paired, and what it reads as weighs
      no more than the source, and less if there is a backslash. */
  ghost predicate Reads(s: seq<byte>, i: nat, html: bool)
    requires i <= |s|
  {
    var r := Unescape(EscapeFrom(s, i, html));
    && (r.Some? <==> Paired(s, i, html))
    && (r.Some? ==> Total(r.value) <= Total(Repaired(s, i)))
    && (r.Some? && HasBackslash(s, i, |s|) ==> Total(r.value) < Total(Repaired(s, i)))
  }

  /** The text `a` reads exactly if `b` does, and then as something that weighs at most `n` more. */
  ghost predicate Adds(a: seq<byte>, b: seq<byte>, n: nat) {
    && (Unescape(a).Some? <==> Unescape(b).Some?)
    && (Unescape(a).Some? ==> Total(Unescape(a).value) <= n + Total(Unescape(b).value))
  }

  lemma PrependAdds(a: seq<byte>, b: seq<byte>, u: seq<byte>)
    requires Unescape(a) == Prepend(u, Unescape(b))
    ensures Adds(a, b, Total(u))
  {
    hide Unescape;
    if Unescape(b).Some? {
      TotalJoin(u, Unescape(b).value);
    }
  }

  /** The source from `i` to `j`, which means `m`, comes out as a piece whose reading weighs at most `n`. */
  lemma PieceReads(s: seq<byte>, i: nat, j: nat, html: bool, n: nat, m: seq<byte>)
    requires i < j <= |s| && Reads(s, j, html)
    requires Adds(EscapeFrom(s, i, html), EscapeFrom(s, j, html), n)
    requires Repaired(s, i) == m + Repaired(s, j)
    requires Paired(s, i, html) <==> Paired(s, j, html)
    requires if HasBackslash(s, i, j) then n < Total(m) else n <= Total(m)
    ensures Reads(s, i, html)
  {
    hide Unescape, EscapeFrom, Repaired, Paired;
    TotalJoin(m, Repaired(s, j));
  }

  /** A unit outside an escape. */
  lemma UnitReads(s: seq<byte>, i: nat, html: bool)
    requires i < |s| && s[i] != BACKSLASH && !(s[i] == QUOTE && AfterBackslash(s, i))
    requires Reads(s, i + Size(s, i), html)
    ensures Reads(s, i, html)
  {
    hide *;
    var j := i + Size(s, i);
    UnitSteps(s, i, html);
    NoBackslash(s, i);
    UnitReadsBack(s, i, html, EscapeFrom(s, j, html));
    PrependAdds(EscapeFrom(s, i, html), EscapeFrom(s, j, html), Meant(s, i));
    PieceReads(s, i, j, html, Total(Meant(s, i)), Meant(s, i));
  }

  lemma BareQuoteReads(s: seq<byte>, i: nat, html: bool)
    requires i < |s| && s[i] == QUOTE && AfterBackslash(s, i)
    ensures Reads(s, i, html)
  {
    assert !Paired(s, i, html);
    hide Paired, Repaired, Total;
    assert EscapeFrom(s, i, html)[0] == QUOTE;
  }

  lemma UnitSteps(s: seq<byte>, i: nat, html: bool)
    requires i < |s| && s[i] != BACKSLASH && !(s[i] == QUOTE && AfterBackslash(s, i))
    ensures var j := i + Size(s, i);
            && EscapeFrom(s, i, html) == Escaped(s, i, html) + EscapeFrom(s, j, html)
            && Repaired(s, i) == Meant(s, i) + Repaired(s, j)
            && (Paired(s, i, html) <==> Paired(s, j, html))
  {
    hide Escaped, Size, Meant;
  }

  lemma NoBackslash(s: seq<byte>, i: nat)
    requires i < |s| && s[i] != BACKSLASH
    ensures !HasBackslash(s, i, i + Size(s, i))
  {}

  /** An ASCII byte that is left as it is. */
  lemma ByteOut(s: seq<byte>, i: nat, html: bool)
    requires i < |s| && Fixed(s, i, html)
    ensures EscapeFrom(s, i, html) == [s[i]] + EscapeFrom(s, i + 1, html)
  {
    hide Escaped, Size;
    FixedUnit(s, i, html);
  }

  /** ASCII bytes mean themselves. */
  lemma ByteMeant(s: seq<byte>, i: nat)
    requires i < |s| && s[i] < RUNE_SELF
    ensures Repaired(s, i) == [s[i]] + Repaired(s, i + 1)
  {
    assert s[i..i + 1] == [s[i]];
  }

  lemma TwoOut(s: seq<byte>, i: nat, html: bool)
    requires i + 1 < |s| && Fixed(s, i, html) && Fixed(s, i + 1, html)
    ensures EscapeFrom(s, i, html) == [s[i], s[i + 1]] + EscapeFrom(s, i + 2, html)
  {
    ByteOut(s, i, html);
    ByteOut(s, i + 1, html);
    hide EscapeFrom;
    Regroup([s[i]], [s[i + 1]], EscapeFrom(s, i + 2, html));
    assert [s[i]] + [s[i + 1]] == [s[i], s[i + 1]];
  }

  lemma TwoMeant(s: seq<byte>, i: nat)
    requires i + 1 < |s| && s[i] < RUNE_SELF && s[i + 1] < RUNE_SELF
    ensures Repaired(s, i) == [s[i], s[i + 1]] + Repaired(s, i + 2)
  {
    ByteMeant(s, i);
    ByteMeant(s, i + 1);
    hide Repaired;
    Regroup([s[i]], [s[i + 1]], Repaired(s, i + 2));
    assert [s[i]] + [s[i + 1]] == [s[i], s[i + 1]];
  }

  /** A backslash and a byte that makes a short escape with it. */
  lemma ShortReads(s: seq<byte>, i: nat, html: bool)
    requires i + 1 < |s| && s[i] == BACKSLASH && Short(s[i + 1]).Some? && Reads(s, i + 2, html)
    ensures Reads(s, i, html)
  {
    var b := s[i + 1];
    assert Fixed(s, i, html) && Fixed(s, i + 1, html);
    hide Fixed, Unescape, EscapeFrom, Reads, Repaired, Short;
    TwoOut(s, i, html);
    TwoMeant(s, i);
    ReadShort(b, EscapeFrom(s, i + 2, html));
    ShortWeighs(b);
    PrependAdds(EscapeFrom(s, i, html), EscapeFrom(s, i + 2, html), [Short(b).value]);
    PieceReads(s, i, i + 2, html, Total([Short(b).value]), [BACKSLASH, b]);
  }

  lemma ShortWeighs(b: byte)
    requires Short(b).Some?
    ensures Total([Short(b).value]) < Total([BACKSLASH, b])
  {
    assert [BACKSLASH, b][1..] == [b];
  }

  // ----- hexadecimal escapes -----

  /** Digits come out as digits, and nothing else does. */
  lemma {:induction false} HexOut(s: seq<byte>, i: nat, n: nat, html: bool)
    requires i <= |s|
    ensures HexAt(EscapeFrom(s, i, html), 0, n) <==> HexAt(s, i, n)
    decreases n
  {
    if n > 0 && i < |s| {
      if Digit(s[i]).Some? {
        ByteOut(s, i, html);
        hide EscapeFrom, Digit;
        HexOut(s, i + 1, n - 1, html);
        HexShift(EscapeFrom(s, i, html), s[i], EscapeFrom(s, i + 1, html), n);
      } else {
        NotHexOut(s, i, html);
      }
    }
  }

  lemma HexShift(y: seq<byte>, b: byte, rest: seq<byte>, n: nat)
    requires y == [b] + rest && n > 0 && Digit(b).Some?
    ensures HexAt(y, 0, n) <==> HexAt(rest, 0, n - 1)
  {
    hide Digit;
    if HexAt(y, 0, n) {
      forall k | 0 <= k < n - 1 ensures Digit(rest[k]).Some? {
        assert rest[k] == y[k + 1];
      }
    }
  }

  lemma NotHexOut(s: seq<byte>, i: nat, html: bool)
    requires i < |s| && Digit(s[i]).None?
    ensures EscapeFrom(s, i, html) != [] && Digit(EscapeFrom(s, i, html)[0]).None?
  {
    assert EscapeFrom(s, i, html)[0] == Escaped(s, i, html)[0];
  }

  lemma {:induction false} AsciiMeant(s: seq<byte>, i: nat, n: nat)
    requires i + n <= |s| && forall k | i <= k < i + n :: s[k] < RUNE_SELF
    ensures Repaired(s, i) == s[i..i + n] + Repaired(s, i + n)
    decreases n
  {
    hide Repaired;
    if n == 0 {
      assert s[i..i] + Repaired(s, i) == Repaired(s, i);
    } else {
      ByteMeant(s, i);
      AsciiMeant(s, i + 1, n - 1);
      assert s[i..i + n] == [s[i]] + s[i + 1..i + n];
      Regroup([s[i]], s[i + 1..i + n], Repaired(s, i + n));
    }
  }

  /** A long escape of the source comes out as it is. */
  lemma LongOut(s: seq<byte>, i: nat, html: bool)
    requires i + 1 < |s| && s[i] == BACKSLASH && s[i + 1] == 0x75 && HexAt(s, i + 2, 4)
    ensures EscapeFrom(s, i, html) == s[i..i + 6] + EscapeFrom(s, i + 6, html)
    ensures Repaired(s, i) == s[i..i + 6] + Repaired(s, i + 6)
  {
    hide EscapeFrom, Repaired;
    FixedRun(s, i, 6, html);
    AsciiMeant(s, i, 6);
  }

  lemma LongIn(s: seq<byte>, i: nat)
    requires i + 1 < |s| && s[i] == BACKSLASH && s[i + 1] == 0x75 && HexAt(s, i + 2, 4)
    ensures Long(s[i..i + 6]) && Total(s[i..i + 6]) == 11
  {
    hide Total;
    var u := s[i..i + 6];
    HexWeighs(u[2], u[3], u[4], u[5]);
    assert u == [BACKSLASH, 0x75, u[2], u[3], u[4], u[5]];
  }

  lemma HexWeighs(a: byte, b: byte, c: byte, d: byte)
    requires Digit(a).Some? && Digit(b).Some? && Digit(c).Some? && Digit(d).Some?
    ensures Total([BACKSLASH, 0x75, a, b, c, d]) == 11
  {
    TotalJoin([BACKSLASH, 0x75], [a, b, c, d]);
    TotalTwo(BACKSLASH, 0x75);
    TotalJoin([a, b], [c, d]);
    assert [BACKSLASH, 0x75] + [a, b, c, d] == [BACKSLASH, 0x75, a, b, c, d];
    assert [a, b] + [c, d] == [a, b, c, d];
    TotalTwo(a, b);
    TotalTwo(c, d);
  }

  lemma TotalTwo(a: byte, b: byte)
    ensures Total([a, b]) == Weight(a) + Weight(b)
  {
    assert [a, b][1..] == [b] && [b][1..] == [];
    assert Total([b]) == Weight(b);
  }

  lemma Utf8Weighs(code: int)
    requires 0 <= code < 0x10000
    ensures Total(LongUtf8(code)) <= 8
  {
    var u := LongUtf8(code);
    if |u| == 3 {
      TotalJoin([u[0]], [u[1], u[2]]);
      assert [u[0]] + [u[1], u[2]] == u;
      TotalTwo(u[1], u[2]);
    } else if |u| == 2 {
      assert u == [u[0], u[1]];
      TotalTwo(u[0], u[1]);
    }
  }

  lemma PairWeighs(high: int, low: int)
    requires HighHalf(high) && LowHalf(low)
    ensures Total(PairUtf8(high, low)) == 4
  {
    var u := PairUtf8(high, low);
    TotalJoin([u[0], u[1]], [u[2], u[3]]);
    assert [u[0], u[1]] + [u[2], u[3]] == u;
    TotalTwo(u[0], u[1]);
    TotalTwo(u[2], u[3]);
  }

  lemma {:induction false} LongAdds(y: seq<byte>)
    requires Long(y)
    ensures Adds(y, y[6..], 8)
  {
    var z := y[6..];
    if Pair(y) {
      assert z[6..] == y[12..];
      PairWeighs(LongCode(y), LongCode(z));
      PrependAdds(y, z[6..], PairUtf8(LongCode(y), LongCode(z)));
      assert Unescape(z) == Prepend(LongUtf8(LongCode(z)), Unescape(z[6..]));
      hide Unescape, Long;
      if Unescape(z[6..]).Some? {
        TotalJoin(LongUtf8(LongCode(z)), Unescape(z[6..]).value);
        Utf8AtLeast();
      }
    } else {
      Utf8Weighs(LongCode(y));
      PrependAdds(y, z, LongUtf8(LongCode(y)));
    }
  }

  /** U+FFFD weighs more than a character that a pair stands for. */
  lemma Utf8AtLeast()
    ensures Total(Encode(RUNE_ERROR)) == 8
  {
    TotalJoin([0xEF], [0xBF, 0xBD]);
    assert Encode(RUNE_ERROR) == [0xEF] + [0xBF, 0xBD];
    TotalTwo(0xBF, 0xBD);
    assert Total([0xEF]) == 6;
  }

  lemma LongPaired(s: seq<byte>, i: nat, html: bool)
    requires i + 1 < |s| && s[i] == BACKSLASH && s[i + 1] == 0x75 && HexAt(s, i + 2, 4)
    ensures Paired(s, i, html) <==> Paired(s, i + 6, html)
  {}

  /** A backslash and a `u`. */
  lemma LongReads(s: seq<byte>, i: nat, html: bool)
    requires i + 1 < |s| && s[i] == BACKSLASH && s[i + 1] == 0x75 && HexAt(s, i + 2, 4) && Reads(s, i + 6, html)
    ensures Reads(s, i, html)
  {
    hide *;
    HexFits(s, i + 2, 4);
    LongPaired(s, i, html);
    LongOut(s, i, html);
    LongIn(s, i);
    LongPrefix(s[i..i + 6], EscapeFrom(s, i + 6, html));
    LongAdds(EscapeFrom(s, i, html));
    PieceReads(s, i, i + 6, html, 8, s[i..i + 6]);
  }

  lemma LongPrefix(u: seq<byte>, rest: seq<byte>)
    requires |u| == 6 && Long(u)
    ensures Long(u + rest) && (u + rest)[6..] == rest
  {}

  lemma NotLongReads(s: seq<byte>, i: nat, html: bool)
    requires i + 1 < |s| && s[i] == BACKSLASH && s[i + 1] == 0x75 && !HexAt(s, i + 2, 4)
    ensures Reads(s, i, html)
  {
    assert Fixed(s, i, html) && Fixed(s, i + 1, html) && !Paired(s, i, html);
    hide EscapeFrom, Paired, Fixed, Unescape, Repaired, Total;
    TwoOut(s, i, html);
    HexOut(s, i + 2, 4, html);
    NotLong(EscapeFrom(s, i + 2, html));
  }

  lemma NotLong(z: seq<byte>)
    requires !HexAt(z, 0, 4)
    ensures Unescape([BACKSLASH, 0x75] + z) == None
  {
    var y := [BACKSLASH, 0x75] + z;
    if Long(y) {
      assert y[2] == z[0] && y[3] == z[1] && y[4] == z[2] && y[5] == z[3];
    }
  }

  /** A backslash and a unit that is escaped itself. */
  lemma EscapeOut(s: seq<byte>, i: nat, html: bool, tail: seq<byte>)
    requires i + 1 < |s| && s[i] == BACKSLASH && Escaped(s, i + 1, html) == [BACKSLASH] + tail
    ensures var j := i + 1 + Size(s, i + 1);
            && EscapeFrom(s, i, html) == [BACKSLASH, BACKSLASH] + (tail + EscapeFrom(s, j, html))
            && Repaired(s, i) == [BACKSLASH] + Meant(s, i + 1) + Repaired(s, j)
  {
    hide Escaped, Size, Meant;
    var j := i + 1 + Size(s, i + 1);
    var rest := EscapeFrom(s, j, html);
    assert EscapeFrom(s, i + 1, html) == [BACKSLASH] + tail + rest;
    assert Repaired(s, i + 1) == Meant(s, i + 1) + Repaired(s, j);
    ByteOut(s, i, html);
    ByteMeant(s, i);
    hide EscapeFrom, Repaired;
    Regroup([BACKSLASH], tail, rest);
    Regroup([BACKSLASH], [BACKSLASH], tail + rest);
    assert [BACKSLASH] + [BACKSLASH] == [BACKSLASH, BACKSLASH];
    Regroup([BACKSLASH], Meant(s, i + 1), Repaired(s, j));
  }

  /** The two backslashes read as one. */
  lemma EscapeAdds(tail: seq<byte>, rest: seq<byte>)
    requires forall b | b in tail :: !Forbidden(b)
    ensures Adds([BACKSLASH, BACKSLASH] + (tail + rest), rest, 6 + Total(tail))
  {
    ReadShort(BACKSLASH, tail + rest);
    ReadCopied(tail, rest);
    hide Unescape;
    PrependTwice([BACKSLASH], tail, Unescape(rest));
    PrependAdds([BACKSLASH, BACKSLASH] + (tail + rest), rest, [BACKSLASH] + tail);
    TotalJoin([BACKSLASH], tail);
    TotalOne(BACKSLASH);
  }

  lemma TotalOne(b: byte)
    ensures Total([b]) == Weight(b)
  {
    assert [b][1..] == [];
  }

  lemma EscapePaired(s: seq<byte>, i: nat, html: bool)
    requires i + 1 < |s| && s[i] == BACKSLASH && Escapes(s, i + 1, html)
    ensures Paired(s, i, html) <==> Paired(s, i + 1 + Size(s, i + 1), html)
  {
    assert Short(s[i + 1]).None? && s[i + 1] != 0x75;
  }

  lemma EscapeReads(s: seq<byte>, i: nat, html: bool)
    requires i + 1 < |s| && s[i] == BACKSLASH && Escapes(s, i + 1, html)
    requires Reads(s, i + 1 + Size(s, i + 1), html)
    ensures Reads(s, i, html)
  {
    hide EscapeFrom, Repaired, Escaped, Reads, Escapes, Size, Meant, Paired, Adds, Total, EscapeTail, Forbidden;
    var j := i + 1 + Size(s, i + 1);
    EscapePaired(s, i, html);
    var tail := EscapeSplits(s, i + 1, html);
    EscapeWeighs(s, i + 1, html, tail);
    EscapeOut(s, i, html, tail);
    EscapeAdds(tail, EscapeFrom(s, j, html));
    TotalJoin([BACKSLASH], Meant(s, i + 1));
    TotalOne(BACKSLASH);
    PieceReads(s, i, j, html, 6 + Total(tail), [BACKSLASH] + Meant(s, i + 1));
  }

  lemma PrependTwice(a: seq<byte>, b: seq<byte>, r: Option<seq<byte>>)
    ensures Prepend(a, Prepend(b, r)) == Prepend(a + b, r)
  {
    if r.Some? {
      Regroup(a, b, r.value);
    }
  }

  /** What follows the backslash of an escape. */
  predicate EscapeTail(tail: seq<byte>) {
    |tail| == 1 || (|tail| == 5 && tail[0] == 0x75 && HexAt(tail, 1, 4))
  }

  /** It may stand in a string as it is. */
  lemma EscapeSplits(s: seq<byte>, i: nat, html: bool) returns (tail: seq<byte>)
    requires i < |s| && Escapes(s, i, html)
    ensures Escaped(s, i, html) == [BACKSLASH] + tail && (forall b | b in tail :: !Forbidden(b)) && EscapeTail(tail)
    ensures |tail| == 1 ==> s[i] < 0x20 && Weight(tail[0]) == 1
  {
    if s[i] < RUNE_SELF {
      AsciiUnit(s, i, html);
      tail := TailOf(s[i]);
    } else {
      tail := WideTail(s, i, html);
    }
  }

  lemma TailOf(b: byte) returns (tail: seq<byte>)
    requires b < 0x20 || b == 0x26 || b == 0x3C || b == 0x3E
    ensures Escape(b) == [BACKSLASH] + tail && (forall c | c in tail :: !Forbidden(c)) && EscapeTail(tail)
    ensures |tail| == 1 ==> b < 0x20 && Weight(tail[0]) == 1
  {
    tail := Escape(b)[1..];
    assert Escape(b) == [BACKSLASH] + tail;
  }

  lemma WideTail(s: seq<byte>, i: nat, html: bool) returns (tail: seq<byte>)
    requires i < |s| && s[i] >= RUNE_SELF && Escapes(s, i, html)
    ensures Escaped(s, i, html) == [BACKSLASH] + tail && (forall b | b in tail :: !Forbidden(b)) && EscapeTail(tail)
    ensures |tail| == 5
  {
    WideUnit(s, i, html);
    hide Escaped, Decode;
    tail := Escaped(s, i, html)[1..];
    assert Escaped(s, i, html) == [BACKSLASH] + tail;
  }

  /** And it weighs less than what is escaped. */
  lemma EscapeWeighs(s: seq<byte>, i: nat, html: bool, tail: seq<byte>)
    requires i < |s| && Escapes(s, i, html)
    requires EscapeTail(tail)
    requires |tail| == 1 ==> s[i] < 0x20 && Weight(tail[0]) == 1
    ensures Total(tail) < Total(Meant(s, i))
  {
    MeantWeighs(s, i, html);
    hide Meant, Escapes, Total;
    if |tail| == 1 {
      assert tail == [tail[0]];
      TotalOne(tail[0]);
    } else {
      HexWeighs(tail[1], tail[2], tail[3], tail[4]);
      assert [BACKSLASH] + tail == [BACKSLASH, 0x75, tail[1], tail[2], tail[3], tail[4]];
      TotalJoin([BACKSLASH], tail);
      TotalOne(BACKSLASH);
    }
  }

  lemma MeantWeighs(s: seq<byte>, i: nat, html: bool)
    requires i < |s| && Escapes(s, i, html)
    ensures Total(Meant(s, i)) >= 6
  {
    var m := Meant(s, i);
    assert Weight(m[0]) == 6 by {
      if s[i] >= RUNE_SELF && Decode(s, i) != BAD_BYTE {
        Separator(s, i);
      }
    }
  }

  /** A backslash that has nothing to escape. */
  lemma StrayReads(s: seq<byte>, i: nat, html: bool)
    requires i < |s| && s[i] == BACKSLASH
    requires i + 1 < |s| ==> Short(s[i + 1]).None? && s[i + 1] != 0x75 && !Escapes(s, i + 1, html)
    ensures Reads(s, i, html)
  {
    ByteOut(s, i, html);
    if i + 1 < |s| {
      assert EscapeFrom(s, i + 1, html)[0] == s[i + 1];
    }
  }

  lemma {:induction false} RestReads(s: seq<byte>, i: nat, html: bool)
    requires i <= |s|
    ensures Reads(s, i, html)
    decreases |s| - i
  {
    if i < |s| {
      hide Reads, Escapes, Size, HexAt, Short;
      if s[i] != BACKSLASH {
        if s[i] == QUOTE && AfterBackslash(s, i) {
          BareQuoteReads(s, i, html);
        } else {
          RestReads(s, i + Size(s, i), html);
          UnitReads(s, i, html);
        }
      } else if i + 1 < |s| && Short(s[i + 1]).Some? {
        RestReads(s, i + 2, html);
        ShortReads(s, i, html);
      } else if i + 1 < |s| && s[i + 1] == 0x75 {
        if HexAt(s, i + 2, 4) {
          HexFits(s, i + 2, 4);
          RestReads(s, i + 6, html);
          LongReads(s, i, html);
        } else {
          NotLongReads(s, i, html);
        }
      } else if i + 1 < |s| && Escapes(s, i + 1, html) {
        RestReads(s, i + 1 + Size(s, i + 1), html);
        EscapeReads(s, i, html);
      } else {
        StrayReads(s, i, html);
      }
    }
  }

  lemma HexFits(s: seq<byte>, i: nat, n: nat)
    requires HexAt(s, i, n)
    ensures i + n <= |s|
  {}

  // ----- main results -----

  /** The output can stand between quotes exactly if the source is paired. */
  lemma ReadableExactlyIfPaired(s: seq<byte>, html: bool)
    ensures Unescape(EscapeFrom(s, 0, html)).Some? <==> Paired(s, 0, html)
  {
    RestReads(s, 0, html);
  }

  /** The output reads as the source, with bytes that are no characters replaced by U+FFFD, exactly if the
      source has no backslash; valid UTF-8 then reads as itself. */
  lemma ReadsBackExactlyWithoutBackslash(s: seq<byte>, html: bool)
    ensures Unescape(EscapeFrom(s, 0, html)) == Some(Repaired(s, 0)) <==> BACKSLASH !in s
    ensures ValidUtf8(s, 0) ==> (Unescape(EscapeFrom(s, 0, html)) == Some(s) <==> BACKSLASH !in s)
  {
    if ValidUtf8(s, 0) {
      ValidIsWhole(s, 0);
      assert s[0..] == s;
    }
    if BACKSLASH in s {
      RestReads(s, 0, html);
    } else {
      RoundTrip(s, html);
    }
  }

  /** An escaped backslash before a quote leaves the quote bare, and it ends the string. */
  lemma BareQuote(html: bool)
    ensures var s: seq<byte> := [BACKSLASH, BACKSLASH, QUOTE];
            EscapeFrom(s, 0, html) == s && Unescape(s) == None
  {
    var s: seq<byte> := [BACKSLASH, BACKSLASH, QUOTE];
    FixedRun(s, 0, 3, html);
    ReadableExactlyIfPaired(s, html);
  }

  /** A backslash at the end swallows the closing quote. */
  lemma TrailingBackslash(html: bool)
    ensures EscapeFrom([BACKSLASH], 0, html) == [BACKSLASH] && Unescape([BACKSLASH]) == None
  {
    FixedRun([BACKSLASH], 0, 1, html);
  }
}
