/** The opaque pagination cursor: `mode|rank|shard|rowid`, the rank as a hexadecimal float,
    the whole thing in unpadded URL-safe base64 (section 5 of RFC 4648, padding omitted as
    section 3.2 allows). */
module Cursor {
  import opened Text

  type int64 = x: int | -0x8000_0000_0000_0000 <= x < 0x8000_0000_0000_0000

  // ---- ranks: finite binary64 numbers ----

  /** A zero, or +-1.hhh... * 2^exponent with the fraction's hexadecimal digits trimmed of
      trailing zeros, so every finite number has one representation. */
  datatype Float = Zero(negative: bool) | Normal(negative: bool, hex: seq<nat>, exponent: int)

  predicate Trimmed(hex: seq<nat>) {
    (forall i :: 0 <= i < |hex| ==> hex[i] < 16) && (hex != [] ==> hex[|hex| - 1] != 0)
  }

  predicate IsRank(f: Float) { f.Normal? ==> Trimmed(f.hex) }

  type Rank = f: Float | IsRank(f) witness Zero(false)

  function Significand(hex: seq<nat>): real {
    if hex == [] then 0.0 else (hex[0] as real + Significand(hex[1..])) / 16.0
  }

  function PowerOfTwo(e: int): real
    decreases if e < 0 then -e else e
  {
    if e == 0 then 1.0 else if e > 0 then 2.0 * PowerOfTwo(e - 1) else PowerOfTwo(e + 1) / 2.0
  }

  function RealOf(f: Float): real {
    if f.Zero? then 0.0
    else (if f.negative then -1.0 else 1.0) * (1.0 + Significand(f.hex)) * PowerOfTwo(f.exponent)
  }

  /** The order of trimmed fractions: by the first digit that differs, and a prefix first. */
  predicate HexLess(a: seq<nat>, b: seq<nat>) {
    b != [] && (a == [] || a[0] < b[0] || (a[0] == b[0] && HexLess(a[1..], b[1..])))
  }

  /** The order of magnitudes. */
  predicate Smaller(f: Rank, g: Rank)
    requires f.Normal? && g.Normal?
  {
    f.exponent < g.exponent || (f.exponent == g.exponent && HexLess(f.hex, g.hex))
  }

  /** The order of ranks: negative ones, the two zeros, positive ones. */
  predicate RankLess(f: Rank, g: Rank) {
    match (f, g)
    case (Zero(_), Zero(_)) => false
    case (Zero(_), Normal(negative, _, _)) => !negative
    case (Normal(negative, _, _), Zero(_)) => negative
    case (Normal(a, _, _), Normal(b, _, _)) => if a != b then a else if a then Smaller(g, f) else Smaller(f, g)
  }

  lemma {:induction false} SignificandRange(hex: seq<nat>)
    requires Trimmed(hex)
    ensures 0.0 <= Significand(hex) < 1.0 && (hex != [] ==> Significand(hex) > 0.0)
  {
    if hex != [] { SignificandRange(hex[1..]); }
  }

  lemma {:induction false} SignificandOrder(a: seq<nat>, b: seq<nat>)
    requires Trimmed(a) && Trimmed(b)
    ensures HexLess(a, b) ==> Significand(a) < Significand(b)
    ensures Significand(a) < Significand(b) ==> HexLess(a, b)
  {
    SignificandRange(a);
    SignificandRange(b);
    if a != [] && b != [] {
      SignificandRange(a[1..]);
      SignificandRange(b[1..]);
      SignificandOrder(a[1..], b[1..]);
    }
  }

  lemma {:induction false} PowerDoubles(e: int)
    ensures PowerOfTwo(e) > 0.0 && PowerOfTwo(e + 1) == 2.0 * PowerOfTwo(e)
    decreases if e < 0 then -e else e
  {
    if e > 0 { PowerDoubles(e - 1); } else if e < 0 { PowerDoubles(e + 1); }
  }

  lemma {:induction false} PowerGrows(e: int, f: int)
    requires e < f
    ensures 0.0 < 2.0 * PowerOfTwo(e) <= PowerOfTwo(f)
    decreases f - e
  {
    PowerDoubles(e);
    if e + 1 < f { PowerGrows(e + 1, f); }
  }

  /** A magnitude: a significand from 1 up to 2 times a power of two. */
  lemma Scaled(x: real, y: real, p: real, q: real)
    requires 1.0 <= x < 2.0 && 1.0 <= y < 2.0 && p > 0.0
    ensures p == q ==> (x * p < y * q <==> x < y)
    ensures 2.0 * p <= q ==> x * p < y * q
  {
    if p == q {
      assert y * p - x * p == (y - x) * p;
    }
    if 2.0 * p <= q {
      assert (2.0 - x) * p > 0.0;
      assert (y - 1.0) * q >= 0.0;
    }
  }

  lemma MagnitudeOrder(x: real, y: real, p: real, q: real, e: int, f: int)
    requires 1.0 <= x < 2.0 && 1.0 <= y < 2.0 && p > 0.0 && q > 0.0
    requires (e == f ==> p == q) && (e < f ==> 2.0 * p <= q) && (f < e ==> 2.0 * q <= p)
    ensures x * p < y * q <==> e < f || (e == f && x < y)
  {
    Scaled(x, y, p, q);
    Scaled(y, x, q, p);
  }

  lemma PowersOrdered(e: int, f: int)
    ensures PowerOfTwo(e) > 0.0 && PowerOfTwo(f) > 0.0
    ensures e < f ==> 2.0 * PowerOfTwo(e) <= PowerOfTwo(f)
    ensures f < e ==> 2.0 * PowerOfTwo(f) <= PowerOfTwo(e)
  {
    PowerDoubles(e);
    PowerDoubles(f);
    if e < f { PowerGrows(e, f); }
    if f < e { PowerGrows(f, e); }
  }

  lemma Magnitude(f: Rank) returns (x: real, p: real)
    requires f.Normal? && !f.negative
    ensures x == 1.0 + Significand(f.hex) && p == PowerOfTwo(f.exponent) && RealOf(f) == x * p
    ensures 1.0 <= x < 2.0 && p > 0.0 && RealOf(f) > 0.0
  {
    x, p := 1.0 + Significand(f.hex), PowerOfTwo(f.exponent);
    SignificandRange(f.hex);
    PowerDoubles(f.exponent);
    Positive(x, p);
  }

  lemma Positive(x: real, p: real)
    requires x > 0.0 && p > 0.0
    ensures x * p > 0.0
  {
  }

  lemma SmallerIsLess(f: Rank, g: Rank)
    requires f.Normal? && g.Normal? && !f.negative && !g.negative
    ensures 0.0 < RealOf(f) && (RealOf(f) < RealOf(g) <==> Smaller(f, g))
  {
    var x, p := Magnitude(f);
    var y, q := Magnitude(g);
    SignificandOrder(f.hex, g.hex);
    PowersOrdered(f.exponent, g.exponent);
    MagnitudeOrder(x, y, p, q, f.exponent, g.exponent);
  }

  /** The other sign. */
  function Negated(f: Rank): Rank { if f.Zero? then Zero(!f.negative) else Normal(!f.negative, f.hex, f.exponent) }

  lemma RealNegated(f: Rank)
    ensures RealOf(Negated(f)) == -RealOf(f)
  {
    if f.Normal? {
      var x, p := 1.0 + Significand(f.hex), PowerOfTwo(f.exponent);
      assert -1.0 * x * p == -(1.0 * x * p);
    }
  }

  /** The numbers that ranks stand for are ordered by sign, exponent and digits; a power of two is what
      its exponent says, and the sign turns a number round. */
  lemma RankOrder(f: Rank, g: Rank)
    ensures RealOf(f) < RealOf(g) <==> RankLess(f, g)
    ensures RealOf(Normal(false, [], 0)) == 1.0 && RealOf(Negated(f)) == -RealOf(f)
    ensures f.Normal? ==> RealOf(f.(exponent := f.exponent + 1)) == 2.0 * RealOf(f)
  {
    RealNegated(f);
    RealNegated(g);
    SignedOrder(f, g);
    if f.Normal? { RealDoubles(f); }
    assert Significand([]) == 0.0 && PowerOfTwo(0) == 1.0;
  }

  lemma RealDoubles(f: Rank)
    requires f.Normal?
    ensures RealOf(f.(exponent := f.exponent + 1)) == 2.0 * RealOf(f)
  {
    PowerDoubles(f.exponent);
    Doubled((if f.negative then -1.0 else 1.0) * (1.0 + Significand(f.hex)), PowerOfTwo(f.exponent));
  }

  lemma Doubled(x: real, p: real)
    ensures x * (2.0 * p) == 2.0 * (x * p)
  {
  }

  lemma SignedOrder(f: Rank, g: Rank)
    requires RealOf(Negated(f)) == -RealOf(f) && RealOf(Negated(g)) == -RealOf(g)
    ensures RealOf(f) < RealOf(g) <==> RankLess(f, g)
  {
    var p, q := if f.negative then Negated(f) else f, if g.negative then Negated(g) else g;
    if f.Normal? { SmallerIsLess(p, p); }
    if g.Normal? { SmallerIsLess(q, q); }
    if f.Normal? && g.Normal? {
      SmallerIsLess(p, q);
      SmallerIsLess(q, p);
    }
  }

  function HexDigit(d: nat): (c: char)
    requires d < 16
    ensures IsDigit(c) || 'a' <= c <= 'f'
  {
    if d < 10 then '0' + d as char else 'a' + (d - 10) as char
  }

  function HexValue(c: char): Option<nat> {
    if '0' <= c <= '9' then Some((c - '0') as nat)
    else if 'a' <= c <= 'f' then Some((c - 'a') as nat + 10)
    else None
  }

  function PrintHex(hex: seq<nat>): (s: string)
    requires forall i :: 0 <= i < |hex| ==> hex[i] < 16
    ensures |s| == |hex| && forall i :: 0 <= i < |s| ==> s[i] == HexDigit(hex[i])
  {
    if hex == [] then "" else [HexDigit(hex[0])] + PrintHex(hex[1..])
  }

  function ParseHex(s: string): Option<seq<nat>> {
    if s == "" then Some([]) else
    match (HexValue(s[0]), ParseHex(s[1..]))
    case (Some(d), Some(ds)) => Some([d] + ds)
    case _ => None
  }

  /** Go's `strconv.FormatFloat(f, 'x', -1, 64)`. */
  function FormatRank(f: Rank): string {
    (if f.negative then "-" else "")
    + (FormatMantissa(f) + ("p" + FormatExponent(if f.Zero? then 0 else f.exponent)))
  }

  function FormatMantissa(f: Rank): string {
    if f.Zero? then "0x0" else if f.hex == [] then "0x1" else "0x1." + PrintHex(f.hex)
  }

  function FormatExponent(e: int): string {
    var m: nat := if e < 0 then -e else e;
    (if e < 0 then "-" else "+") + (if m < 100 then Pad(m, 2) else Decimal(m))
  }

  function ParseExponent(s: string): Option<int> {
    if |s| >= 3 && s[0] in {'+', '-'} && AllDigits(s[1..]) then
      var m: int := Number(s[1..]);
      Some(if s[0] == '-' then -m else m)
    else None
  }

  function ParseMantissa(s: string, negative: bool, exponent: int): Option<Rank> {
    if s == "0x0" && exponent == 0 then Some(Zero(negative))
    else if s == "0x1" then Some(Normal(negative, [], exponent))
    else if |s| >= 5 && s[..4] == "0x1." then
      match ParseHex(s[4..])
      case Some(hex) => if IsRank(Normal(negative, hex, exponent)) then Some(Normal(negative, hex, exponent)) else None
      case None => None
    else None
  }

  /** `strconv.ParseFloat` on the spellings FormatFloat produces. */
  function ParseRank(s: string): Option<Rank> {
    var negative := s != "" && s[0] == '-';
    match Cut(if negative then s[1..] else s, 'p')
    case None => None
    case Some((mantissa, exponent)) =>
      match ParseExponent(exponent)
      case None => None
      case Some(e) => ParseMantissa(mantissa, negative, e)
  }

  lemma {:induction false} HexRoundTrip(hex: seq<nat>)
    requires forall i :: 0 <= i < |hex| ==> hex[i] < 16
    ensures ParseHex(PrintHex(hex)) == Some(hex)
  {
    if hex != [] {
      HexRoundTrip(hex[1..]);
      assert HexValue(HexDigit(hex[0])) == Some(hex[0]);
      assert PrintHex(hex)[1..] == PrintHex(hex[1..]);
      assert hex == [hex[0]] + hex[1..];
    }
  }

  lemma ExponentRoundTrip(e: int)
    ensures ParseExponent(FormatExponent(e)) == Some(e)
  {
    var m: nat := if e < 0 then -e else e;
    var digits := if m < 100 then Pad(m, 2) else Decimal(m);
    assert Number(digits) == m by { Pow10Table(); if m < 100 { NumberPad(m, 2); } else { NumberDecimal(m); } }
    assert |digits| >= 2 by { if m >= 100 { assert |Decimal(m / 10)| >= 1; } }
    assert FormatExponent(e)[1..] == digits;
  }

  lemma MantissaRoundTrip(f: Rank)
    ensures ParseMantissa(FormatMantissa(f), f.negative, if f.Zero? then 0 else f.exponent) == Some(f)
    ensures forall c :: c in FormatMantissa(f) ==> c in {'x', '.'} || IsDigit(c) || 'a' <= c <= 'f'
  {
    if f.Normal? && f.hex != [] {
      HexRoundTrip(f.hex);
      assert FormatMantissa(f)[4..] == PrintHex(f.hex);
      assert FormatMantissa(f)[..4] == "0x1.";
    }
  }

  lemma RankRoundTrip(f: Rank)
    ensures ParseRank(FormatRank(f)) == Some(f)
  {
    var e := if f.Zero? then 0 else f.exponent;
    var mantissa, body := FormatMantissa(f), FormatMantissa(f) + (['p'] + FormatExponent(e));
    MantissaRoundTrip(f);
    ExponentRoundTrip(e);
    CutAt(mantissa, 'p', FormatExponent(e));
    if f.negative { assert FormatRank(f)[1..] == body; } else { assert FormatRank(f) == body && body[0] == '0'; }
  }

  /** ASCII text free of the cursor's separator. */
  predicate Plain(s: string) { forall i :: 0 <= i < |s| ==> s[i] as int < 128 && s[i] != '|' }

  lemma PlainConcat(a: string, b: string)
    requires Plain(a) && Plain(b)
    ensures Plain(a + b)
  {
  }

  lemma RankIsPlain(f: Rank)
    ensures Plain(FormatRank(f))
  {
    MantissaRoundTrip(f);
    var m, e := FormatMantissa(f), FormatExponent(if f.Zero? then 0 else f.exponent);
    assert Plain(m) by { assert forall i :: 0 <= i < |m| ==> m[i] in m; }
    PlainConcat("p", e);
    PlainConcat(m, "p" + e);
    PlainConcat(if f.negative then "-" else "", m + ("p" + e));
  }

  /** What a shard is called inside a query: ASCII, without the separator. */
  type ShardName = s: string | Plain(s) witness ""

  // ---- row ids ----

  function FormatInt(n: int): string { if n < 0 then "-" + Decimal(-n) else Decimal(n) }

  /** `strconv.ParseInt(s, 10, 64)`: an optional sign, digits, and the int64 range. */
  function ParseInt(s: string): Option<int64> {
    var digits := if s != "" && s[0] in {'+', '-'} then s[1..] else s;
    if digits == "" || !AllDigits(digits) then None else
    var m: int := Number(digits);
    var n := if s[0] == '-' then -m else m;
    if -0x8000_0000_0000_0000 <= n < 0x8000_0000_0000_0000 then Some(n) else None
  }

  lemma IntRoundTrip(n: int64)
    ensures ParseInt(FormatInt(n)) == Some(n)
  {
    var i: int := n;
    var m: nat := if i < 0 then -i else i;
    var digits := Decimal(m);
    NumberDecimal(m);
    assert IsDigit(digits[0]);
    assert ("-" + digits)[1..] == digits;
  }

  // ---- unpadded URL-safe base64 ----

  predicate IsBytes(s: string) { forall i :: 0 <= i < |s| ==> s[i] as int < 256 }

  function Codes(s: string): (codes: seq<int>)
    ensures |codes| == |s| && forall i :: 0 <= i < |s| ==> codes[i] == s[i] as int
  {
    if s == "" then [] else [s[0] as int] + Codes(s[1..])
  }

  function TextOf(codes: seq<int>): (s: string)
    requires forall i :: 0 <= i < |codes| ==> 0 <= codes[i] < 256
    ensures |s| == |codes| && forall i :: 0 <= i < |s| ==> s[i] == codes[i] as char
  {
    if codes == [] then "" else [codes[0] as char] + TextOf(codes[1..])
  }

  /** The k low bits of a number, most significant first. */
  function ToBits(n: nat, k: nat): (bits: seq<bool>)
    ensures |bits| == k
  {
    if k == 0 then [] else ToBits(n / 2, k - 1) + [n % 2 == 1]
  }

  function FromBits(bits: seq<bool>): nat {
    if bits == [] then 0 else 2 * FromBits(bits[..|bits| - 1]) + (if bits[|bits| - 1] then 1 else 0)
  }

  function PowerOf2(k: nat): nat { if k == 0 then 1 else 2 * PowerOf2(k - 1) }

  function NoBits(k: nat): (bits: seq<bool>)
    ensures |bits| == k
  {
    if k == 0 then [] else [false] + NoBits(k - 1)
  }

  function Stream(s: seq<int>, k: nat): (bits: seq<bool>)
    requires forall i :: 0 <= i < |s| ==> 0 <= s[i]
  {
    if s == [] then [] else ToBits(s[0], k) + Stream(s[1..], k)
  }

  /** Numbers of k bits each; the last is filled up with zero bits. */
  function Chunk(bits: seq<bool>, k: nat): (s: seq<int>)
    requires k > 0
    ensures forall i :: 0 <= i < |s| ==> 0 <= s[i] < PowerOf2(k)
  {
    if bits == [] then []
    else if |bits| < k then (FromBitsBound(bits + NoBits(k - |bits|)); [FromBits(bits + NoBits(k - |bits|))])
    else (FromBitsBound(bits[..k]); [FromBits(bits[..k])] + Chunk(bits[k..], k))
  }

  /** The URL-safe alphabet, as ASCII codes. */
  function Symbol(k: int): (code: int)
    requires 0 <= k < 64
    ensures 45 <= code < 123
  {
    if k < 26 then 65 + k else if k < 52 then 71 + k else if k < 62 then k - 4 else if k == 62 then 45 else 95
  }

  function SymbolValue(code: int): (k: Option<int>)
    ensures k.Some? ==> 0 <= k.value < 64
  {
    if 65 <= code <= 90 then Some(code - 65)
    else if 97 <= code <= 122 then Some(code - 71)
    else if 48 <= code <= 57 then Some(code + 4)
    else if code == 45 then Some(62)
    else if code == 95 then Some(63)
    else None
  }

  function Symbols(s: seq<int>): (codes: seq<int>)
    requires forall i :: 0 <= i < |s| ==> 0 <= s[i] < 64
    ensures forall i :: 0 <= i < |codes| ==> 45 <= codes[i] < 123
    ensures |codes| == |s|
  {
    if s == [] then [] else [Symbol(s[0])] + Symbols(s[1..])
  }

  function SymbolValues(codes: seq<int>): (r: Option<seq<int>>)
    ensures r.Some? ==> forall i :: 0 <= i < |r.value| ==> 0 <= r.value[i] < 64
  {
    if codes == [] then Some([]) else
    match (SymbolValue(codes[0]), SymbolValues(codes[1..]))
    case (Some(k), Some(rest)) => Some([k] + rest)
    case _ => None
  }

  lemma PowersOf2()
    ensures PowerOf2(6) == 64 && PowerOf2(8) == 256
  {
    assert PowerOf2(3) == 8;
  }

  function Pack(bytes: seq<int>): (sextets: seq<int>)
    requires forall i :: 0 <= i < |bytes| ==> 0 <= bytes[i]
    ensures forall i :: 0 <= i < |sextets| ==> 0 <= sextets[i] < 64
  {
    PowersOf2();
    Chunk(Stream(bytes, 8), 6)
  }

  /** A lone last symbol is an error; the bits that do not fill a last byte are ignored. */
  function Unpack(sextets: seq<int>): (bytes: Option<seq<int>>)
    requires forall i :: 0 <= i < |sextets| ==> 0 <= sextets[i] < 64
    ensures bytes.Some? ==> forall i :: 0 <= i < |bytes.value| ==> 0 <= bytes.value[i] < 256
  {
    PowersOf2();
    var bits := Stream(sextets, 6);
    if |sextets| % 4 == 1 then None else Some(Chunk(bits[..|bits| / 8 * 8], 8))
  }

  function EncodeBase64(s: string): string
    requires IsBytes(s)
  {
    TextOf(Symbols(Pack(Codes(s))))
  }

  /** Line breaks are skipped; a foreign character is an error. */
  function DecodeBase64(s: string): Option<string> {
    match SymbolValues(Codes(ReplaceAll(ReplaceAll(s, '\r', ""), '\n', "")))
    case None => None
    case Some(sextets) =>
      match Unpack(sextets)
      case None => None
      case Some(bytes) => Some(TextOf(bytes))
  }

  lemma {:induction false} FromBitsBound(bits: seq<bool>)
    ensures FromBits(bits) < PowerOf2(|bits|)
  {
    if bits != [] { FromBitsBound(bits[..|bits| - 1]); }
  }

  lemma {:induction false} BitsOfNumber(n: nat, k: nat)
    requires n < PowerOf2(k)
    ensures FromBits(ToBits(n, k)) == n
  {
    if k > 0 {
      BitsOfNumber(n / 2, k - 1);
      assert ToBits(n, k)[..k - 1] == ToBits(n / 2, k - 1);
    }
  }

  lemma {:induction false} NumberOfBits(bits: seq<bool>)
    ensures ToBits(FromBits(bits), |bits|) == bits
  {
    if bits != [] {
      NumberOfBits(bits[..|bits| - 1]);
      assert bits == bits[..|bits| - 1] + [bits[|bits| - 1]];
    }
  }

  lemma {:induction false} StreamLength(s: seq<int>)
    requires forall i :: 0 <= i < |s| ==> 0 <= s[i]
    ensures |Stream(s, 6)| == 6 * |s| && |Stream(s, 8)| == 8 * |s|
  {
    if s != [] { StreamLength(s[1..]); }
  }

  lemma ChunkStep(bits: seq<bool>, k: nat)
    requires 0 < k <= |bits|
    ensures Stream(Chunk(bits, k), k) == bits[..k] + Stream(Chunk(bits[k..], k), k)
  {
    NumberOfBits(bits[..k]);
    assert Chunk(bits, k)[1..] == Chunk(bits[k..], k);
  }

  lemma ChunkLast(bits: seq<bool>, k: nat)
    requires 0 < |bits| < k
    ensures Stream(Chunk(bits, k), k) == bits + NoBits(k - |bits|)
  {
    var full := bits + NoBits(k - |bits|);
    NumberOfBits(full);
    assert Chunk(bits, k)[1..] == [];
    assert Stream(Chunk(bits, k), k) == full + [];
  }

  lemma PrefixExtends(a: seq<bool>, b: seq<bool>, c: seq<bool>)
    requires b <= c
    ensures a + b <= a + c
  {
  }

  /** Cutting into chunks loses nothing and adds fewer than k zero bits. */
  lemma {:induction false} StreamOfChunks(bits: seq<bool>, k: nat)
    requires k > 0
    ensures bits <= Stream(Chunk(bits, k), k) && |Stream(Chunk(bits, k), k)| < |bits| + k
  {
    if 0 < |bits| < k {
      ChunkLast(bits, k);
    } else if bits != [] {
      StreamOfChunks(bits[k..], k);
      ChunkStep(bits, k);
      PrefixExtends(bits[..k], bits[k..], Stream(Chunk(bits[k..], k), k));
      assert bits == bits[..k] + bits[k..];
    }
  }

  lemma ChunkCons(x: seq<bool>, y: seq<bool>, k: nat)
    requires |x| == k > 0
    ensures Chunk(x + y, k) == [FromBits(x)] + Chunk(y, k)
  {
    assert (x + y)[..k] == x && (x + y)[k..] == y;
  }

  lemma {:induction false} ChunksOfStream(s: seq<int>, k: nat)
    requires k > 0 && forall i :: 0 <= i < |s| ==> 0 <= s[i] < PowerOf2(k)
    ensures Chunk(Stream(s, k), k) == s
  {
    if s != [] {
      BitsOfNumber(s[0], k);
      ChunksOfStream(s[1..], k);
      ChunkCons(ToBits(s[0], k), Stream(s[1..], k), k);
      assert s == [s[0]] + s[1..];
    }
  }

  lemma CodesRoundTrip(s: string)
    requires IsBytes(s)
    ensures (forall i :: 0 <= i < |Codes(s)| ==> 0 <= Codes(s)[i] < 256) && TextOf(Codes(s)) == s
  {
  }

  lemma TextRoundTrip(codes: seq<int>)
    requires forall i :: 0 <= i < |codes| ==> 45 <= codes[i] < 123
    ensures Codes(TextOf(codes)) == codes
    ensures '\r' !in TextOf(codes) && '\n' !in TextOf(codes)
  {
  }

  lemma {:induction false} SymbolsRoundTrip(s: seq<int>)
    requires forall i :: 0 <= i < |s| ==> 0 <= s[i] < 64
    ensures SymbolValues(Symbols(s)) == Some(s)
  {
    if s != [] {
      SymbolsRoundTrip(s[1..]);
      assert Symbols(s)[1..] == Symbols(s[1..]);
      assert s == [s[0]] + s[1..];
    }
  }

  lemma PackRoundTrip(bytes: seq<int>)
    requires forall i :: 0 <= i < |bytes| ==> 0 <= bytes[i] < 256
    ensures Unpack(Pack(bytes)) == Some(bytes)
    ensures bytes != [] ==> Pack(bytes) != []
  {
    PowersOf2();
    var bits := Stream(bytes, 8);
    var sextets := Chunk(bits, 6);
    StreamOfChunks(bits, 6);
    StreamLength(bytes); StreamLength(sextets);
    LastByte(|bytes|, |sextets|);
    assert Stream(sextets, 6)[..8 * |bytes|] == bits;
    ChunksOfStream(bytes, 8);
  }

  lemma Base64RoundTrip(s: string)
    requires IsBytes(s)
    ensures DecodeBase64(EncodeBase64(s)) == Some(s)
    ensures s != "" ==> EncodeBase64(s) != ""
  {
    CodesRoundTrip(s);
    PackRoundTrip(Codes(s));
    var codes := Symbols(Pack(Codes(s)));
    SymbolsRoundTrip(Pack(Codes(s)));
    TextRoundTrip(codes);
    ReplaceAllAbsent(TextOf(codes), '\r', "");
    ReplaceAllAbsent(TextOf(codes), '\n', "");
  }

  lemma LastByte(bytes: nat, sextets: nat)
    requires 8 * bytes <= 6 * sextets < 8 * bytes + 6
    ensures 6 * sextets / 8 * 8 == 8 * bytes && sextets % 4 != 1
  {
    var r, q := 6 * sextets - 8 * bytes, sextets / 4;
    assert 6 * sextets == 8 * bytes + r && 0 <= r < 8;
    assert sextets == 4 * q + sextets % 4;
  }

  // ---- the cursor ----

  datatype Cursor = Cursor(browse: bool, rank: Rank, shard: string, rowid: int64)

  function Raw(c: Cursor): string {
    (if c.browse then "b" else "m") + ("|" + (FormatRank(c.rank) + ("|" + (c.shard + ("|" + FormatInt(c.rowid))))))
  }

  lemma BytesConcat(a: string, b: string)
    requires IsBytes(a) && IsBytes(b)
    ensures IsBytes(a + b)
  {
  }

  lemma RawIsBytes(c: Cursor)
    requires IsBytes(c.shard)
    ensures IsBytes(Raw(c))
  {
    var r, d := FormatRank(c.rank), FormatInt(c.rowid);
    assert IsBytes(r) by { RankIsPlain(c.rank); }
    BytesConcat("|", d);
    BytesConcat(c.shard, "|" + d);
    BytesConcat("|", c.shard + ("|" + d));
    BytesConcat(r, "|" + (c.shard + ("|" + d)));
    BytesConcat("|", r + ("|" + (c.shard + ("|" + d))));
    BytesConcat(if c.browse then "b" else "m", "|" + (r + ("|" + (c.shard + ("|" + d)))));
  }

  function EncodeCursor(c: Cursor): (s: string)
    requires Plain(c.shard)
  {
    RawIsBytes(c);
    EncodeBase64(Raw(c))
  }

  function DecodeCursor(s: string): Result<Cursor> {
    match DecodeBase64(s)
    case None => Err("invalid cursor")
    case Some(raw) =>
      var parts := SplitN(raw, '|', 4);
      if |parts| != 4 then Err("invalid cursor") else
      match (ParseRank(parts[1]), ParseInt(parts[3]))
      case (Some(rank), Some(rowid)) => Ok(Cursor(parts[0] == "b", rank, parts[2], rowid))
      case _ => Err("invalid cursor")
  }

  lemma FieldsSplit(raw: string, mode: string, rank: string, shard: string, rowid: string)
    requires raw == mode + ("|" + (rank + ("|" + (shard + ("|" + rowid)))))
    requires '|' !in mode && '|' !in rank && '|' !in shard
    ensures SplitN(raw, '|', 4) == [mode, rank, shard, rowid]
  {
    CutAt(mode, '|', rank + ("|" + (shard + ("|" + rowid))));
    CutAt(rank, '|', shard + ("|" + rowid));
    CutAt(shard, '|', rowid);
    assert SplitN(shard + ("|" + rowid), '|', 2) == [shard, rowid];
  }

  lemma RawSplits(c: Cursor)
    requires '|' !in c.shard
    ensures SplitN(Raw(c), '|', 4) == [if c.browse then "b" else "m", FormatRank(c.rank), c.shard, FormatInt(c.rowid)]
  {
    RankIsPlain(c.rank);
    FieldsSplit(Raw(c), if c.browse then "b" else "m", FormatRank(c.rank), c.shard, FormatInt(c.rowid));
  }

  /** A cursor handed to a caller and echoed back is the cursor that was issued: for every
      finite rank, every int64 rowid and every shard alias without '|'. */
  lemma CursorRoundTrip(c: Cursor)
    requires Plain(c.shard)
    ensures DecodeCursor(EncodeCursor(c)) == Ok(c)
    ensures EncodeCursor(c) != ""
  {
    RawIsBytes(c);
    Base64RoundTrip(Raw(c));
    RawSplits(c);
    RankRoundTrip(c.rank);
    IntRoundTrip(c.rowid);
  }

  /** The text is four fields that make up this cursor. */
  predicate IsFields(raw: string, c: Cursor, mode: string, rank: string, rowid: string) {
    && raw == mode + ("|" + (rank + ("|" + (c.shard + ("|" + rowid)))))
    && '|' !in mode && '|' !in rank && '|' !in c.shard
    && (c.browse <==> mode == "b") && ParseRank(rank) == Some(c.rank) && ParseInt(rowid) == Some(c.rowid)
  }

  lemma SplitIsFields(raw: string)
    requires |SplitN(raw, '|', 4)| == 4
    ensures var p := SplitN(raw, '|', 4);
      && raw == p[0] + ("|" + (p[1] + ("|" + (p[2] + ("|" + p[3])))))
      && '|' !in p[0] && '|' !in p[1] && '|' !in p[2]
  {
    CutParts(raw, '|');
    var rest := Cut(raw, '|').value.1;
    CutParts(rest, '|');
    CutParts(Cut(rest, '|').value.1, '|');
  }

  /** A text is read as this cursor exactly if it is base64 for four fields that make it up; every other
      text is refused. */
  lemma DecodesIffFields(s: string, c: Cursor)
    ensures DecodeCursor(s) == Ok(c)
       <==> DecodeBase64(s).Some?
            && exists mode, rank, rowid :: IsFields(DecodeBase64(s).value, c, mode, rank, rowid)
    ensures DecodeCursor(s).Ok? || DecodeCursor(s) == Err("invalid cursor")
  {
    if DecodeBase64(s).Some? {
      var raw := DecodeBase64(s).value;
      if DecodeCursor(s) == Ok(c) {
        SplitIsFields(raw);
        var p := SplitN(raw, '|', 4);
        assert IsFields(raw, c, p[0], p[1], p[3]);
      }
      if mode, rank, rowid :| IsFields(raw, c, mode, rank, rowid) {
        FieldsSplit(raw, mode, rank, c.shard, rowid);
      }
    }
  }
}
