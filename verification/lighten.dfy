/**
 The `lighten` helper of the style configuration: it brightens a `#rrggbb`
 colour by adding the same amount to each of its three channels, clamping
 each to [0, 255], and writes the result back as `#` and six lower-case hex
 digits. The theme uses it to derive the surface colours from `#121212`.
 */
module Tailwind {
  import opened Text

  // ---------------------------------------------------------------------------
  // Colours and channels
  // ---------------------------------------------------------------------------

  /** Six hex digits, with or without a leading `#`. */
  predicate ValidColor(c: string) {
    (|c| == 7 && c[0] == '#' && AllHex(c[1..])) || (|c| == 6 && AllHex(c))
  }

  /** The digits left once the `#` is removed. */
  function Digits(c: string): (d: string)
    requires ValidColor(c)
    ensures |d| == 6 && AllHex(d)
  {
    if |c| == 7 then c[1..] else c
  }

  datatype Rgb = Rgb(c1: int, c2: int, c3: int)

  predicate ValidRgb(x: Rgb) {
    0 <= x.c1 < 256 && 0 <= x.c2 < 256 && 0 <= x.c3 < 256
  }

  /** The three channels of a colour: bits 16-23, 8-15 and 0-7 of its value. */
  function Channels(c: string): (x: Rgb)
    requires ValidColor(c)
    ensures ValidRgb(x)
  {
    var n := ParseHex(Digits(c));
    ParseHexBound(Digits(c));
    Rgb(n / 0x10000, (n / 0x100) % 0x100, n % 0x100)
  }

  /** The source's two-sided clamp: 255 from 255 up, 0 below 1. */
  function Clamp(x: int): (y: int)
    ensures y == (if x < 0 then 0 else if x > 255 then 255 else x)
  {
    if x < 255 then (if x < 1 then 0 else x) else 255
  }

  /** `Math.round(2.55 * percent)` for a whole percentage, computed exactly. */
  function AmountOf(percent: int): (amt: int)
    ensures 100 * amt - 50 <= 255 * percent < 100 * amt + 50
  {
    (255 * percent + 50) / 100
  }

  // ---------------------------------------------------------------------------
  // lighten
  // ---------------------------------------------------------------------------

  /** The value written out: a leading 1 above the three clamped channels. */
  function Packed(x: Rgb, amt: int): (v: nat)
    ensures Pow16(6) <= v < 2 * Pow16(6)
  {
    assert Pow16(6) == 0x1000000;
    0x1000000 + Clamp(x.c1 + amt) * 0x10000 + Clamp(x.c2 + amt) * 0x100 + Clamp(x.c3 + amt)
  }

  /** `lighten(color, percent)` with the percentage already turned into a channel amount. */
  function LightenBy(color: string, amt: int): (r: string)
    requires ValidColor(color)
    ensures |r| == 7 && r[0] == '#' && ValidColor(r)
  {
    var v := Packed(Channels(color), amt);
    LeadingOne(v, 6);
    "#" + ToHexString(v)[1..]
  }

  /**
   `lighten(color, percent)`: a colour written `#` and six lower-case digits
   whose channels are those of `color` each raised by the rounded amount and
   clamped to [0, 255].
   */
  function Lighten(color: string, percent: int): (r: string)
    requires ValidColor(color)
    ensures |r| == 7 && r[0] == '#' && AllLowerHex(r[1..])
    ensures var x, amt := Channels(color), AmountOf(percent);
      Channels(r) == Rgb(Clamp(x.c1 + amt), Clamp(x.c2 + amt), Clamp(x.c3 + amt))
  {
    LightenChannels(color, AmountOf(percent));
    LightenBy(color, AmountOf(percent))
  }

  // ---------------------------------------------------------------------------
  // Properties
  // ---------------------------------------------------------------------------

  /** A number just above 16^w is written as a 1 followed by w digits spelling the rest. */
  lemma {:induction false} LeadingOne(v: nat, w: nat)
    requires Pow16(w) <= v < 2 * Pow16(w)
    ensures |ToHexString(v)| == w + 1 && ToHexString(v)[0] == '1'
    ensures AllHex(ToHexString(v)[1..]) && ParseHex(ToHexString(v)[1..]) == v - Pow16(w)
  {
    if w > 0 {
      LeadingOne(v / 16, w - 1);
      var s := ToHexString(v);
      var t := ToHexString(v / 16);
      assert s == t + [LowerHexChar(v % 16)];
      assert s[1..] == t[1..] + [LowerHexChar(v % 16)];
      assert s[1..][..|s[1..]| - 1] == t[1..];
      HexDigitRoundTrip(v % 16);
    }
  }

  /** Lower-case hex spellings of one length are determined by their value. */
  lemma {:induction false} LowerHexUnique(a: string, b: string)
    requires |a| == |b| && AllLowerHex(a) && AllLowerHex(b) && AllHex(a) && AllHex(b)
    requires ParseHex(a) == ParseHex(b)
    ensures a == b
  {
    if |a| > 0 {
      var a', b' := a[..|a| - 1], b[..|b| - 1];
      assert AllLowerHex(a') && AllLowerHex(b') && AllHex(a') && AllHex(b') by {
        assert forall i :: 0 <= i < |a'| ==> a'[i] == a[i] && b'[i] == b[i];
      }
      var x, y := HexValue(a[|a| - 1]), HexValue(b[|b| - 1]);
      assert ParseHex(a) == ParseHex(a') * 16 + x;
      assert ParseHex(b) == ParseHex(b') * 16 + y;
      LastDigitSplit(ParseHex(a'), ParseHex(b'), x, y);
      LowerHexUnique(a', b');
      assert a[|a| - 1] == b[|b| - 1] by {
        assert IsLowerHexDigit(a[|a| - 1]) && IsLowerHexDigit(b[|b| - 1]);
      }
      assert a == a' + [a[|a| - 1]] && b == b' + [b[|b| - 1]];
    }
  }

  /** A base-16 numeral's last digit and the rest are determined by its value. */
  lemma LastDigitSplit(p: nat, q: nat, x: nat, y: nat)
    requires x < 16 && y < 16 && p * 16 + x == q * 16 + y
    ensures p == q && x == y
  {
  }

  /** The channels of six digits spelling `n` are the three bytes of `n`. */
  lemma PackUnpack(x: Rgb)
    requires ValidRgb(x)
    ensures var n := x.c1 * 0x10000 + x.c2 * 0x100 + x.c3;
      Rgb(n / 0x10000, (n / 0x100) % 0x100, n % 0x100) == x
  {
    Div65536(x.c1, x.c2 * 0x100 + x.c3);
    Div256(x.c1 * 0x100 + x.c2, x.c3);
    Div256(x.c1, x.c2);
  }

  /** Division by 0x100 undoes a shift by one byte. */
  lemma Div256(q: int, r: int)
    requires 0 <= r < 0x100
    ensures (q * 0x100 + r) / 0x100 == q && (q * 0x100 + r) % 0x100 == r
  {
  }

  /** Division by 0x10000 undoes a shift by two bytes. */
  lemma Div65536(q: int, r: int)
    requires 0 <= r < 0x10000
    ensures (q * 0x10000 + r) / 0x10000 == q
  {
  }

  /** The digits written are lower case and spell the three clamped channels. */
  lemma LightenDigits(color: string, amt: int)
    requires ValidColor(color)
    ensures var r, x := LightenBy(color, amt), Channels(color);
      && AllLowerHex(r[1..])
      && ParseHex(r[1..]) == Clamp(x.c1 + amt) * 0x10000 + Clamp(x.c2 + amt) * 0x100 + Clamp(x.c3 + amt)
  {
    var v := Packed(Channels(color), amt);
    LeadingOne(v, 6);
    var s := ToHexString(v);
    var r := LightenBy(color, amt);
    assert r[1..] == s[1..];
    assert forall i :: 0 <= i < |s| - 1 ==> r[1..][i] == s[i + 1];
    assert Pow16(6) == 0x1000000;
  }

  /**
   The result is again a colour, written `#` and six lower-case digits, and
   each of its channels is the input channel plus the amount, clamped to
   [0, 255].
   */
  lemma LightenChannels(color: string, amt: int)
    requires ValidColor(color)
    ensures var r := LightenBy(color, amt);
      && |r| == 7 && r[0] == '#' && AllLowerHex(r[1..]) && ValidColor(r)
      && Channels(r) == Rgb(Clamp(Channels(color).c1 + amt), Clamp(Channels(color).c2 + amt), Clamp(Channels(color).c3 + amt))
  {
    var x := Channels(color);
    LightenDigits(color, amt);
    PackUnpack(Rgb(Clamp(x.c1 + amt), Clamp(x.c2 + amt), Clamp(x.c3 + amt)));
  }

  /** Lightening by a non-negative amount never darkens a channel. */
  lemma LightenBrightens(color: string, amt: int)
    requires ValidColor(color) && amt >= 0
    ensures var before, after := Channels(color), Channels(LightenBy(color, amt));
      && before.c1 <= after.c1 && before.c2 <= after.c2 && before.c3 <= after.c3
  {
    LightenChannels(color, amt);
  }

  /** A value below 16^6 is determined by its three channels. */
  lemma Recombine(n: nat)
    requires n < 0x1000000
    ensures n == (n / 0x10000) * 0x10000 + ((n / 0x100) % 0x100) * 0x100 + n % 0x100
  {
    var m := n / 0x100;
    assert n == m * 0x100 + n % 0x100;
    assert m / 0x100 == n / 0x10000;
    assert m == (m / 0x100) * 0x100 + m % 0x100;
  }

  /** Two colours written `#` and six lower-case digits are equal when their channels are. */
  lemma CanonicalUnique(a: string, b: string)
    requires ValidColor(a) && ValidColor(b) && |a| == 7 && |b| == 7
    requires AllLowerHex(a[1..]) && AllLowerHex(b[1..])
    requires Channels(a) == Channels(b)
    ensures a == b
  {
    var na, nb := ParseHex(Digits(a)), ParseHex(Digits(b));
    assert na < 0x1000000 && nb < 0x1000000 by {
      ParseHexBound(Digits(a));
      ParseHexBound(Digits(b));
      assert Pow16(6) == 0x1000000;
    }
    Recombine(na);
    Recombine(nb);
    LowerHexUnique(a[1..], b[1..]);
    assert a == [a[0]] + a[1..] && b == [b[0]] + b[1..];
  }

  /** A digit string that is already lower case is its own lower-casing. */
  lemma ToLowerHexIdentity(s: string)
    requires AllHex(s) && AllLowerHex(s)
    ensures ToLowerHex(s) == s
  {
    ParseHexLower(s);
    LowerHexUnique(ToLowerHex(s), s);
  }

  /**
   Lightening by nothing only normalises the spelling: `#` and the digits in
   lower case. So a colour already written that way is returned unchanged.
   */
  lemma LightenZero(color: string)
    requires ValidColor(color)
    ensures LightenBy(color, 0) == "#" + ToLowerHex(Digits(color))
    ensures |color| == 7 && AllLowerHex(color[1..]) ==> LightenBy(color, 0) == color
  {
    var d := Digits(color);
    var canon := "#" + ToLowerHex(d);
    assert canon[1..] == ToLowerHex(d);
    ParseHexLower(d);
    assert Digits(canon) == ToLowerHex(d);
    LightenChannels(color, 0);
    CanonicalUnique(LightenBy(color, 0), canon);
    if |color| == 7 && AllLowerHex(color[1..]) {
      ToLowerHexIdentity(d);
      assert canon == [color[0]] + color[1..];
    }
  }

  /** Adding to a channel in two non-negative steps, clamping after each, clamps the sum. */
  lemma ClampCompose(c: int, a: int, b: int)
    requires 0 <= c && a >= 0 && b >= 0
    ensures Clamp(Clamp(c + a) + b) == Clamp(c + (a + b))
  {
  }

  /** Lightening twice by non-negative amounts is lightening once by their sum. */
  lemma LightenCompose(color: string, a: int, b: int)
    requires ValidColor(color) && a >= 0 && b >= 0
    ensures LightenBy(LightenBy(color, a), b) == LightenBy(color, a + b)
  {
    var x := Channels(color);
    var once := LightenBy(color, a);
    var y := Rgb(Clamp(x.c1 + a), Clamp(x.c2 + a), Clamp(x.c3 + a));
    assert Channels(once) == y by {
      LightenChannels(color, a);
    }
    ClampCompose(x.c1, a, b);
    ClampCompose(x.c2, a, b);
    ClampCompose(x.c3, a, b);
    assert Packed(y, b) == Packed(x, a + b);
  }

  /** Six digits read as three pairs. */
  lemma SixDigits(s: string, x: nat, y: nat, z: nat)
    requires |s| == 6 && AllHex(s)
    requires HexValue(s[0]) * 16 + HexValue(s[1]) == x
    requires HexValue(s[2]) * 16 + HexValue(s[3]) == y
    requires HexValue(s[4]) * 16 + HexValue(s[5]) == z
    ensures ParseHex(s) == x * 0x10000 + y * 0x100 + z
  {
    assert ParseHex(s[..1]) == HexValue(s[0]) by { assert s[..1][..0] == []; }
    assert ParseHex(s[..2]) == ParseHex(s[..1]) * 16 + HexValue(s[1]) by { assert s[..2][..1] == s[..1]; }
    assert ParseHex(s[..3]) == ParseHex(s[..2]) * 16 + HexValue(s[2]) by { assert s[..3][..2] == s[..2]; }
    assert ParseHex(s[..4]) == ParseHex(s[..3]) * 16 + HexValue(s[3]) by { assert s[..4][..3] == s[..3]; }
    assert ParseHex(s[..5]) == ParseHex(s[..4]) * 16 + HexValue(s[4]) by { assert s[..5][..4] == s[..4]; }
    assert ParseHex(s) == ParseHex(s[..5]) * 16 + HexValue(s[5]);
  }

  /** A grey `#gggggg` has the channel `g` three times. */
  lemma GreyChannels(c: string, g: nat)
    requires |c| == 7 && c[0] == '#' && AllHex(c[1..])
    requires HexValue(c[1]) * 16 + HexValue(c[2]) == g
    requires c[1] == c[3] == c[5] && c[2] == c[4] == c[6]
    ensures ValidColor(c) && Channels(c) == Rgb(g, g, g)
  {
    var d := Digits(c);
    assert d[0] == c[1] && d[1] == c[2] && d[2] == c[3] && d[3] == c[4] && d[4] == c[5] && d[5] == c[6];
    SixDigits(d, g, g, g);
    PackUnpack(Rgb(g, g, g));
  }

  /** Lightening a grey gives the grey whose channel is the clamped sum. */
  lemma LightenGrey(c: string, g: nat, amt: int, expected: string)
    requires ValidColor(c) && Channels(c) == Rgb(g, g, g)
    requires |expected| == 7 && ValidColor(expected) && AllLowerHex(expected[1..])
    requires Channels(expected) == Rgb(Clamp(g + amt), Clamp(g + amt), Clamp(g + amt))
    ensures LightenBy(c, amt) == expected
  {
    LightenChannels(c, amt);
    CanonicalUnique(LightenBy(c, amt), expected);
  }

  /** The first and last surface colours of the theme. */
  lemma SurfaceColors()
    ensures Lighten("#121212", 5) == "#1f1f1f"
    ensures Lighten("#121212", 16) == "#3b3b3b"
  {
    assert AmountOf(5) == 13 && AmountOf(16) == 41;
    GreyChannels("#121212", 0x12);
    GreyChannels("#1f1f1f", 0x1f);
    GreyChannels("#3b3b3b", 0x3b);
    LightenGrey("#121212", 0x12, 13, "#1f1f1f");
    LightenGrey("#121212", 0x12, 41, "#3b3b3b");
  }
}
