/** What JsonString promises about its output. */
module JsonTheorems {
  import opened JsonText

  // ----- what never stands in the output -----

  /** The byte at place `k` is no control byte, no HTML byte if those are escaped, and if it is a quote it
      stands right behind a backslash; `open` tells whether a backslash stands right before the text. */
  ghost predicate GuardedAt(s: seq<byte>, k: nat, html: bool, open: bool)
    requires k < |s|
  {
    && s[k] >= 0x20
    && (html ==> s[k] != 0x26 && s[k] != 0x3C && s[k] != 0x3E)
    && (s[k] == QUOTE ==> if k == 0 then open else s[k - 1] == BACKSLASH)
  }

  ghost predicate Guarded(s: seq<byte>, html: bool, open: bool) {
    forall k: nat {:trigger GuardedAt(s, k, html, open)} | k < |s| :: GuardedAt(s, k, html, open)
  }

  lemma Join(a: seq<byte>, b: seq<byte>, html: bool, open: bool, inner: bool)
    requires a != [] && Guarded(a, html, open) && Guarded(b, html, inner)
    requires inner ==> a[|a| - 1] == BACKSLASH
    ensures Guarded(a + b, html, open)
  {
    var s := a + b;
    forall k: nat | k < |s| ensures GuardedAt(s, k, html, open) {
      if k < |a| {
        assert GuardedAt(a, k, html, open);
      } else {
        assert GuardedAt(b, k - |a|, html, inner);
      }
    }
  }

  lemma UnitGuarded(s: seq<byte>, i: nat, html: bool)
    requires i < |s|
    ensures Guarded(Escaped(s, i, html), html, AfterBackslash(s, i)) && Escaped(s, i, html) != []
    ensures AfterBackslash(s, i + Size(s, i)) ==> Escaped(s, i, html) == [BACKSLASH]
  {
    hide Escaped, Size, Guarded;
    if s[i] < RUNE_SELF {
      AsciiGuarded(s, i, html);
    } else {
      WideGuarded(s, i, html);
    }
  }

  lemma AsciiGuarded(s: seq<byte>, i: nat, html: bool)
    requires i < |s| && s[i] < RUNE_SELF
    ensures Guarded(Escaped(s, i, html), html, AfterBackslash(s, i)) && Escaped(s, i, html) != [] && Size(s, i) == 1
    ensures s[i] == BACKSLASH ==> Escaped(s, i, html) == [BACKSLASH]
  {
    AsciiUnit(s, i, html);
    hide Escaped, Size;
  }

  lemma WideGuarded(s: seq<byte>, i: nat, html: bool)
    requires i < |s| && s[i] >= RUNE_SELF
    ensures Guarded(Escaped(s, i, html), html, AfterBackslash(s, i)) && Escaped(s, i, html) != []
    ensures !AfterBackslash(s, i + Size(s, i))
  {
    WideUnit(s, i, html);
    var r := Decode(s, i);
    if r != BAD_BYTE {
      WideBytes(s[i..i + r.size], html, AfterBackslash(s, i));
    }
    hide Escaped, Size, Decode;
  }

  lemma WideBytes(u: seq<byte>, html: bool, open: bool)
    requires forall k | 0 <= k < |u| :: u[k] >= RUNE_SELF
    ensures Guarded(u, html, open)
  {}

  lemma {:induction false} RestGuarded(s: seq<byte>, i: nat, html: bool)
    requires i <= |s|
    ensures Guarded(EscapeFrom(s, i, html), html, AfterBackslash(s, i))
    decreases |s| - i
  {
    hide Guarded, Escaped, Size;
    if i == |s| {
      NothingGuarded(html, AfterBackslash(s, i));
    } else {
      var n := Size(s, i);
      UnitGuarded(s, i, html);
      RestGuarded(s, i + n, html);
      Join(Escaped(s, i, html), EscapeFrom(s, i + n, html), html, AfterBackslash(s, i), AfterBackslash(s, i + n));
    }
  }

  lemma NothingGuarded(html: bool, open: bool)
    ensures Guarded([], html, open)
  {}

  /** The text that JsonString appends has no control byte, no HTML byte if those are escaped, and no quote
      without a backslash right before it. Whether that backslash is free to escape the quote is another
      matter; see JsonReading. */
  lemma OutputIsGuarded(s: seq<byte>, html: bool)
    ensures Guarded(EscapeFrom(s, 0, html), html, false)
  {
    RestGuarded(s, 0, html);
  }

  // ----- escaping twice is escaping once -----

  /** The ASCII byte at place `k` is left as it is. */
  ghost predicate Fixed(s: seq<byte>, k: nat, html: bool)
    requires k < |s|
  {
    s[k] < RUNE_SELF && (Plain(s[k], html) || s[k] == BACKSLASH || (s[k] == QUOTE && AfterBackslash(s, k)))
  }

  lemma {:induction false} FixedRun(s: seq<byte>, i: nat, n: nat, html: bool)
    requires i + n <= |s| && forall k | i <= k < i + n :: Fixed(s, k, html)
    ensures EscapeFrom(s, i, html) == s[i..i + n] + EscapeFrom(s, i + n, html)
    decreases n
  {
    hide Escaped, Size;
    if n == 0 {
      assert s[i..i] + EscapeFrom(s, i, html) == EscapeFrom(s, i, html);
    } else {
      FixedUnit(s, i, html);
      FixedRun(s, i + 1, n - 1, html);
      assert s[i..i + n] == [s[i]] + s[i + 1..i + n];
      Regroup([s[i]], s[i + 1..i + n], EscapeFrom(s, i + n, html));
    }
  }

  lemma FixedUnit(s: seq<byte>, i: nat, html: bool)
    requires i < |s| && Fixed(s, i, html)
    ensures Size(s, i) == 1 && Escaped(s, i, html) == [s[i]]
  {}

  /** A character depends on its own bytes only. */
  lemma DecodeLocal(s: seq<byte>, i: nat, t: seq<byte>, j: nat)
    requires i < |s| && s[i] >= RUNE_SELF && Decode(s, i) != BAD_BYTE
    requires j + Decode(s, i).size <= |t| && t[j..j + Decode(s, i).size] == s[i..i + Decode(s, i).size]
    ensures t[j] >= RUNE_SELF && Decode(t, j) == Decode(s, i)
  {
    var n := Decode(s, i).size;
    SliceAt(s, i, t, j, n, 0);
    SliceAt(s, i, t, j, n, 1);
    if n > 2 {
      SliceAt(s, i, t, j, n, 2);
    }
    if n > 3 {
      SliceAt(s, i, t, j, n, 3);
    }
  }

  lemma SliceAt(s: seq<byte>, i: nat, t: seq<byte>, j: nat, n: nat, k: nat)
    requires k < n && i + n <= |s| && j + n <= |t| && t[j..j + n] == s[i..i + n]
    ensures t[j + k] == s[i + k]
  {
    assert t[j..j + n][k] == s[i..i + n][k];
  }

  /** A unit's output, wherever it stands behind the output of what came before, is left as it is. */
  lemma UnitIsFixed(s: seq<byte>, i: nat, html: bool, y: seq<byte>, j: nat)
    requires i < |s| && j + |Escaped(s, i, html)| <= |y|
    requires y[j..j + |Escaped(s, i, html)|] == Escaped(s, i, html)
    requires AfterBackslash(s, i) ==> AfterBackslash(y, j)
    ensures var n := |Escaped(s, i, html)|;
            EscapeFrom(y, j, html) == Escaped(s, i, html) + EscapeFrom(y, j + n, html)
    ensures AfterBackslash(s, i + Size(s, i)) ==> AfterBackslash(y, j + |Escaped(s, i, html)|)
  {
    hide Escaped, Size, Decode, Guarded, EscapeFrom;
    var u := Escaped(s, i, html);
    UnitGuarded(s, i, html);
    SliceAt(u, 0, y, j, |u|, |u| - 1);
    if s[i] < RUNE_SELF || Decode(s, i) == BAD_BYTE || Decode(s, i).code == 0x2028 || Decode(s, i).code == 0x2029 {
      AsciiOutput(s, i, html);
      AsciiIsFixed(u, html, AfterBackslash(s, i), y, j);
    } else {
      WideIsFixed(s, i, html, y, j);
    }
  }

  lemma AsciiIsFixed(u: seq<byte>, html: bool, open: bool, y: seq<byte>, j: nat)
    requires j + |u| <= |y| && y[j..j + |u|] == u && Guarded(u, html, open) && (open ==> AfterBackslash(y, j))
    requires forall k | 0 <= k < |u| :: u[k] < RUNE_SELF && (Plain(u[k], html) || u[k] == BACKSLASH || u[k] == QUOTE)
    ensures EscapeFrom(y, j, html) == u + EscapeFrom(y, j + |u|, html)
  {
    hide EscapeFrom, Guarded, Fixed;
    forall k | j <= k < j + |u| ensures Fixed(y, k, html) {
      OutputFixed(u, html, open, y, j, k - j);
    }
    FixedRun(y, j, |u|, html);
  }

  lemma WideIsFixed(s: seq<byte>, i: nat, html: bool, y: seq<byte>, j: nat)
    requires i < |s| && s[i] >= RUNE_SELF && Decode(s, i) != BAD_BYTE
    requires Decode(s, i).code != 0x2028 && Decode(s, i).code != 0x2029
    requires j + |Escaped(s, i, html)| <= |y| && y[j..j + |Escaped(s, i, html)|] == Escaped(s, i, html)
    ensures EscapeFrom(y, j, html) == Escaped(s, i, html) + EscapeFrom(y, j + |Escaped(s, i, html)|, html)
  {
    hide Escaped, Size, Decode;
    WideUnit(s, i, html);
    DecodeLocal(s, i, y, j);
    WideUnit(y, j, html);
  }

  lemma OutputFixed(u: seq<byte>, html: bool, open: bool, y: seq<byte>, j: nat, k: nat)
    requires k < |u| && j + |u| <= |y| && y[j..j + |u|] == u
    requires Guarded(u, html, open) && (open ==> AfterBackslash(y, j))
    requires u[k] < RUNE_SELF && (Plain(u[k], html) || u[k] == BACKSLASH || u[k] == QUOTE)
    ensures Fixed(y, j + k, html)
  {
    assert GuardedAt(u, k, html, open);
    assert y[j..j + |u|][k] == u[k];
    if k > 0 {
      assert y[j..j + |u|][k - 1] == u[k - 1];
    }
  }

  /** Everything but a copied wide character comes out as ASCII that needs no further escaping. */
  lemma AsciiOutput(s: seq<byte>, i: nat, html: bool)
    requires i < |s|
    requires s[i] < RUNE_SELF || Decode(s, i) == BAD_BYTE || Decode(s, i).code == 0x2028 || Decode(s, i).code == 0x2029
    ensures forall k | 0 <= k < |Escaped(s, i, html)| ::
              var b := Escaped(s, i, html)[k];
              b < RUNE_SELF && (Plain(b, html) || b == BACKSLASH || b == QUOTE)
  {}

  lemma {:induction false} RestIsFixed(s: seq<byte>, i: nat, html: bool, y: seq<byte>, j: nat)
    requires i <= |s| && j <= |y| && y[j..] == EscapeFrom(s, i, html)
    requires AfterBackslash(s, i) ==> AfterBackslash(y, j)
    ensures EscapeFrom(y, j, html) == EscapeFrom(s, i, html)
    decreases |s| - i
  {
    hide Escaped, Size;
    if i == |s| {
      assert j == |y|;
    } else {
      var u := Escaped(s, i, html);
      var rest := EscapeFrom(s, i + Size(s, i), html);
      assert y[j..] == u + rest;
      assert y[j..j + |u|] == u by { assert (u + rest)[..|u|] == u; assert y[j..][..|u|] == y[j..j + |u|]; }
      assert y[j + |u|..] == rest by { assert (u + rest)[|u|..] == rest; assert y[j..][|u|..] == y[j + |u|..]; }
      UnitIsFixed(s, i, html, y, j);
      RestIsFixed(s, i + Size(s, i), html, y, j + |u|);
    }
  }

  /** JsonString is idempotent for a fixed flag. */
  lemma EscapingTwiceIsOnce(s: seq<byte>, html: bool)
    ensures EscapeFrom(EscapeFrom(s, 0, html), 0, html) == EscapeFrom(s, 0, html)
  {
    var y := EscapeFrom(s, 0, html);
    assert y[0..] == y;
    RestIsFixed(s, 0, html, y, 0);
  }
}
