/**
 Character-level helpers the service relies on: decimal rendering as done by
 Go's `%d` verb, `strconv.Atoi`, hexadecimal digits (Go's `encoding/hex` and
 JavaScript's `parseInt(_, 16)` / `toString(16)`), prefix tests and splitting
 a string on a separator character.
 */
module Text {
  import opened Wrappers

  type byte = x: int | 0 <= x < 256

  // ---------------------------------------------------------------------------
  // Decimal digits
  // ---------------------------------------------------------------------------

  predicate IsDigit(c: char) {
    '0' <= c <= '9'
  }

  predicate AllDigits(s: string) {
    forall i :: 0 <= i < |s| ==> IsDigit(s[i])
  }

  function DigitChar(d: nat): (c: char)
    requires d < 10
    ensures IsDigit(c)
  {
    "0123456789"[d]
  }

  function DigitValue(c: char): (d: nat)
    requires IsDigit(c)
    ensures d < 10
  {
    (c as int - '0' as int) as nat
  }

  lemma DigitRoundTrip(d: nat)
    requires d < 10
    ensures DigitValue(DigitChar(d)) == d
  {
  }

  /** The decimal value of a non-empty run of digits (most significant first). */
  function ParseDigits(s: string): nat
    requires AllDigits(s)
  {
    if |s| == 0 then 0 else ParseDigits(s[..|s| - 1]) * 10 + DigitValue(s[|s| - 1])
  }

  /** Decimal rendering of a natural number without leading zeros (Go's `%d`). */
  function NatToString(n: nat): (s: string)
    ensures |s| >= 1 && AllDigits(s)
    ensures |s| > 1 ==> s[0] != '0'
  {
    if n < 10 then [DigitChar(n)] else NatToString(n / 10) + [DigitChar(n % 10)]
  }

  /** Reading a rendered number back gives the number: `%d` loses nothing. */
  lemma {:induction false} DecimalRoundTrip(n: nat)
    ensures ParseDigits(NatToString(n)) == n
  {
    if n >= 10 {
      var s := NatToString(n);
      assert s[..|s| - 1] == NatToString(n / 10);
      DecimalRoundTrip(n / 10);
      DigitRoundTrip(n % 10);
    } else {
      DigitRoundTrip(n);
    }
  }

  /** Distinct numbers render to distinct strings. */
  lemma NatToStringInjective(m: nat, n: nat)
    requires NatToString(m) == NatToString(n)
    ensures m == n
  {
    DecimalRoundTrip(m);
    DecimalRoundTrip(n);
  }

  /** Go's `%d` on a signed integer: a leading `-` for negative values. */
  function IntToString(i: int): (s: string)
    ensures i >= 0 ==> s == NatToString(i)
    ensures i < 0 ==> s == "-" + NatToString(-i)
  {
    if i < 0 then "-" + NatToString(-i) else NatToString(i)
  }

  const MinInt64: int := -0x8000_0000_0000_0000
  const MaxInt64: int := 0x7fff_ffff_ffff_ffff

  /**
   Go's `strconv.Atoi` with its error ignored (`v, _ := strconv.Atoi(s)`):
   an optional sign followed by at least one digit parses; anything else
   yields 0; a value outside the 64-bit range is clamped to it, as Go returns
   the clamped value together with its range error.
   */
  function AtoiOrZero(s: string): (v: int)
    ensures MinInt64 <= v <= MaxInt64
    ensures AllDigits(s) && |s| > 0 && ParseDigits(s) <= MaxInt64 ==> v == ParseDigits(s)
    ensures !(|s| > 0 && (AllDigits(s) || ((s[0] == '+' || s[0] == '-') && |s| > 1 && AllDigits(s[1..])))) ==> v == 0
  {
    if |s| == 0 then 0
    else if AllDigits(s) then Clamp64(ParseDigits(s))
    else if (s[0] == '+' || s[0] == '-') && |s| > 1 && AllDigits(s[1..]) then
      var m: int := ParseDigits(s[1..]);
      Clamp64(if s[0] == '-' then -m else m)
    else 0
  }

  /** `strconv.Atoi` reads back what `%d` writes, for every 64-bit value. */
  lemma AtoiIntToString(i: int)
    requires MinInt64 <= i <= MaxInt64
    ensures AtoiOrZero(IntToString(i)) == i
  {
    DecimalRoundTrip(if i < 0 then -i else i);
    if i < 0 {
      var s := IntToString(i);
      assert !IsDigit(s[0]);
      assert s[1..] == NatToString(-i);
    }
  }

  function Clamp64(x: int): (v: int)
    ensures MinInt64 <= v <= MaxInt64
    ensures MinInt64 <= x <= MaxInt64 ==> v == x
  {
    if x < MinInt64 then MinInt64 else if x > MaxInt64 then MaxInt64 else x
  }

  /** Go's `/` on integers: the quotient truncated toward zero. */
  function TruncDiv(a: int, b: int): (q: int)
    requires b > 0
    ensures a >= 0 ==> q * b <= a < (q + 1) * b
    ensures a < 0 ==> (q - 1) * b < a <= q * b
  {
    if a >= 0 then a / b else -((-a) / b)
  }

  /** Go's `%` on integers: the remainder takes the sign of the dividend. */
  function TruncRem(a: int, b: int): (r: int)
    requires b > 0
    ensures a == TruncDiv(a, b) * b + r
    ensures a >= 0 ==> 0 <= r < b
    ensures a < 0 ==> -b < r <= 0
  {
    a - TruncDiv(a, b) * b
  }

  // ---------------------------------------------------------------------------
  // Hexadecimal digits
  // ---------------------------------------------------------------------------

  predicate IsHexDigit(c: char) {
    ('0' <= c <= '9') || ('a' <= c <= 'f') || ('A' <= c <= 'F')
  }

  predicate IsLowerHexDigit(c: char) {
    ('0' <= c <= '9') || ('a' <= c <= 'f')
  }

  predicate AllHex(s: string) {
    forall i :: 0 <= i < |s| ==> IsHexDigit(s[i])
  }

  predicate AllLowerHex(s: string) {
    forall i :: 0 <= i < |s| ==> IsLowerHexDigit(s[i])
  }

  function HexValue(c: char): (d: nat)
    requires IsHexDigit(c)
    ensures d < 16
  {
    if '0' <= c <= '9' then (c as int - '0' as int) as nat
    else if 'a' <= c <= 'f' then (c as int - 'a' as int + 10) as nat
    else (c as int - 'A' as int + 10) as nat
  }

  function LowerHexChar(d: nat): (c: char)
    requires d < 16
    ensures IsLowerHexDigit(c) && IsHexDigit(c)
  {
    "0123456789abcdef"[d]
  }

  lemma HexDigitRoundTrip(d: nat)
    requires d < 16
    ensures HexValue(LowerHexChar(d)) == d
  {
  }

  /** A hex digit written lower case. */
  function ToLowerHexChar(c: char): (r: char)
    requires IsHexDigit(c)
    ensures IsLowerHexDigit(r) && IsHexDigit(r) && HexValue(r) == HexValue(c)
  {
    LowerHexChar(HexValue(c))
  }

  function ToLowerHex(s: string): (r: string)
    requires AllHex(s)
    ensures |r| == |s| && AllLowerHex(r) && AllHex(r)
    ensures forall i :: 0 <= i < |s| ==> HexValue(r[i]) == HexValue(s[i])
  {
    if |s| == 0 then "" else [ToLowerHexChar(s[0])] + ToLowerHex(s[1..])
  }

  /** The value of a run of hex digits, most significant first. */
  function ParseHex(s: string): nat
    requires AllHex(s)
  {
    if |s| == 0 then 0 else ParseHex(s[..|s| - 1]) * 16 + HexValue(s[|s| - 1])
  }

  lemma {:induction false} ParseHexBound(s: string)
    requires AllHex(s)
    ensures ParseHex(s) < Pow16(|s|)
  {
    if |s| > 0 {
      ParseHexBound(s[..|s| - 1]);
    }
  }

  /** Two digit strings with the same digit values spell the same number. */
  lemma {:induction false} ParseHexPointwise(a: string, b: string)
    requires AllHex(a) && AllHex(b) && |a| == |b|
    requires forall i :: 0 <= i < |a| ==> HexValue(a[i]) == HexValue(b[i])
    ensures ParseHex(a) == ParseHex(b)
  {
    if |a| > 0 {
      var a', b' := a[..|a| - 1], b[..|b| - 1];
      assert forall i :: 0 <= i < |a'| ==> a'[i] == a[i] && b'[i] == b[i];
      ParseHexPointwise(a', b');
    }
  }

  /** Lower-casing digits does not change the number they spell. */
  lemma ParseHexLower(s: string)
    requires AllHex(s)
    ensures ParseHex(ToLowerHex(s)) == ParseHex(s)
  {
    ParseHexPointwise(ToLowerHex(s), s);
  }

  function Pow16(k: nat): (p: nat)
    ensures p >= 1
  {
    if k == 0 then 1 else 16 * Pow16(k - 1)
  }

  /**
   JavaScript's `Number.prototype.toString(16)` on a natural number: lower-case
   digits, no leading zeros, "0" for zero.
   */
  function ToHexString(n: nat): (s: string)
    ensures |s| >= 1 && AllLowerHex(s) && AllHex(s)
    ensures |s| > 1 ==> s[0] != '0'
  {
    if n < 16 then [LowerHexChar(n)] else ToHexString(n / 16) + [LowerHexChar(n % 16)]
  }

  lemma {:induction false} HexRoundTrip(n: nat)
    ensures ParseHex(ToHexString(n)) == n
  {
    if n >= 16 {
      var s := ToHexString(n);
      assert s[..|s| - 1] == ToHexString(n / 16);
      HexRoundTrip(n / 16);
      HexDigitRoundTrip(n % 16);
    } else {
      HexDigitRoundTrip(n);
    }
  }

  /** A number in [16^k, 16^(k+1)) is written with exactly k+1 hex digits. */
  lemma {:induction false} HexLength(n: nat, k: nat)
    requires Pow16(k) <= n < Pow16(k + 1)
    ensures |ToHexString(n)| == k + 1
  {
    if k > 0 {
      HexLength(n / 16, k - 1);
    }
  }

  /**
   Go's `hex.DecodeString`: an even number of hex digits (either case) decodes
   to one byte per pair; an odd length or a non-hex character is an error.
   */
  function HexDecode(s: string): (r: Option<seq<byte>>)
    ensures r.Some? <==> |s| % 2 == 0 && AllHex(s)
    ensures r.Some? ==> |r.value| * 2 == |s|
    decreases |s|
  {
    if |s| == 0 then Some([])
    else if |s| == 1 || !IsHexDigit(s[0]) || !IsHexDigit(s[1]) then None
    else
      match HexDecode(s[2..])
      case None => None
      case Some(rest) => Some([(HexValue(s[0]) * 16 + HexValue(s[1])) as byte] + rest)
  }

  /** Go's `hex.EncodeToString`: two lower-case digits per byte. */
  function HexEncode(b: seq<byte>): (s: string)
    ensures |s| == 2 * |b| && AllLowerHex(s) && AllHex(s)
  {
    if |b| == 0 then "" else [LowerHexChar(b[0] / 16), LowerHexChar(b[0] % 16)] + HexEncode(b[1..])
  }

  lemma {:induction false} HexEncodeDecode(b: seq<byte>)
    ensures HexDecode(HexEncode(b)) == Some(b)
  {
    if |b| > 0 {
      var s := HexEncode(b);
      var hi, lo := (b[0] / 16) as nat, (b[0] % 16) as nat;
      assert s[0] == LowerHexChar(hi) && s[1] == LowerHexChar(lo) && s[2..] == HexEncode(b[1..]);
      HexDigitRoundTrip(hi);
      HexDigitRoundTrip(lo);
      assert (HexValue(s[0]) * 16 + HexValue(s[1])) as byte == b[0];
      HexEncodeDecode(b[1..]);
      assert [b[0]] + b[1..] == b;
    }
  }

  // ---------------------------------------------------------------------------
  // Prefixes, splitting and joining
  // ---------------------------------------------------------------------------

  /** Go's `strings.HasPrefix`. */
  predicate HasPrefix(s: string, prefix: string) {
    |prefix| <= |s| && s[..|prefix|] == prefix
  }

  /** The elements of `parts` separated by `sep`. */
  function Join(parts: seq<string>, sep: char): (s: string)
    requires |parts| > 0
    ensures |s| >= |parts| - 1
  {
    if |parts| == 1 then parts[0] else parts[0] + [sep] + Join(parts[1..], sep)
  }

  /** The maximal `sep`-free pieces of `s`, in order (always at least one). */
  function Split(s: string, sep: char): (parts: seq<string>)
    ensures |parts| > 0
    ensures forall i :: 0 <= i < |parts| ==> sep !in parts[i]
    decreases |s|
  {
    if sep !in s then [s]
    else
      var k := IndexOf(s, sep);
      [s[..k]] + Split(s[k + 1..], sep)
  }

  function IndexOf(s: string, c: char): (k: nat)
    requires c in s
    ensures k < |s| && s[k] == c && c !in s[..k]
  {
    if s[0] == c then 0 else 1 + IndexOf(s[1..], c)
  }

  /** The first separator in `a + [sep] + b` is the one after `a` when `a` has none. */
  lemma {:induction false} IndexOfAfter(a: string, sep: char, b: string)
    requires sep !in a
    ensures sep in a + [sep] + b
    ensures IndexOf(a + [sep] + b, sep) == |a|
  {
    var s := a + [sep] + b;
    assert s[|a|] == sep;
    if |a| > 0 {
      assert s[1..] == a[1..] + [sep] + b;
      IndexOfAfter(a[1..], sep, b);
    }
  }

  /** Splitting at the first separator peels off the separator-free piece before it. */
  lemma SplitStep(a: string, sep: char, b: string)
    requires sep !in a
    ensures Split(a + [sep] + b, sep) == [a] + Split(b, sep)
  {
    var s := a + [sep] + b;
    IndexOfAfter(a, sep, b);
    assert s[..|a|] == a;
    assert s[|a| + 1..] == b;
  }

  /** Splitting a join of separator-free pieces recovers the pieces. */
  lemma {:induction false} SplitJoin(parts: seq<string>, sep: char)
    requires |parts| > 0
    requires forall i :: 0 <= i < |parts| ==> sep !in parts[i]
    ensures Split(Join(parts, sep), sep) == parts
  {
    if |parts| > 1 {
      var rest := Join(parts[1..], sep);
      assert Join(parts, sep) == parts[0] + [sep] + rest;
      SplitStep(parts[0], sep, rest);
      SplitJoin(parts[1..], sep);
      assert [parts[0]] + parts[1..] == parts;
    } else {
      assert Join(parts, sep) == parts[0];
    }
  }
}
