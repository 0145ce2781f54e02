/** Foreign primitives: time arithmetic, SHA-256, HMAC and the X-Amz-Date format. The hash
    functions are arbitrary total functions; the date format is an arbitrary pair that
    round-trips on whole seconds. Every theorem holds for each choice. */
module Primitives {
  import opened Seqs
  import opened Strings

  // ---- Time: nanoseconds since the epoch; durations are int64 ----

  const SECOND: int := 1_000_000_000
  const MILLISECOND: int := 1_000_000

  function Saturate(d: int): (r: int)
    ensures -MAX_INT64 - 1 <= r <= MAX_INT64
    ensures -MAX_INT64 - 1 <= d <= MAX_INT64 ==> r == d
    ensures d > MAX_INT64 ==> r == MAX_INT64
    ensures d < -MAX_INT64 - 1 ==> r == -MAX_INT64 - 1
  {
    if d > MAX_INT64 then MAX_INT64 else if d < -MAX_INT64 - 1 then -MAX_INT64 - 1 else d
  }

  /** `t.Sub(u)`. */
  function Sub(t: int, u: int): int { Saturate(t - u) }

  /** The int64 value that an exact product wraps to. */
  function Wrap64(x: int): (r: int)
    ensures -MAX_INT64 - 1 <= r <= MAX_INT64
    ensures -MAX_INT64 - 1 <= x <= MAX_INT64 ==> r == x
    ensures (x - r) % 0x1_0000_0000_0000_0000 == 0
  {
    var m := x % 0x1_0000_0000_0000_0000;
    if m <= MAX_INT64 then m else m - 0x1_0000_0000_0000_0000
  }

  // ---- Hashes and dates ----

  type Digest = s: Str | |s| == 32 witness seq(32, i => 'a')

  datatype Functions = Functions(
    sha256: Str -> Digest,
    hmac: (Str, Str) -> Digest,
    format: int -> Str,
    parse: Str -> Option<int>)

  /** First instant of the year 10000: up to here the format has its fixed width. */
  const END_OF_DATES: int := 253_402_300_800 * SECOND

  predicate IsDateByte(c: Byte) {
    IsDigit(c) || c == 'T' || c == 'Z'
  }

  ghost predicate DateCodec(f: Functions) {
    && (forall t :: |f.format(t)| >= 8)
    && (forall s :: f.parse(s).Some? ==> |s| >= 8)
    && (forall t :: 0 <= t < END_OF_DATES ==>
          && |f.format(t)| == 16
          && (forall c :: c in f.format(t) ==> IsDateByte(c))
          && f.parse(f.format(t)) == Some(t - t % SECOND))
  }

  type Env = f: Functions | DateCodec(f) ghost witness (SampleIsCodec(); Sample())

  // ---- Lower-case hexadecimal ----

  function HexDigit(n: nat): (c: Byte)
    requires n < 16
    ensures '0' <= c <= '9' || 'a' <= c <= 'f'
  {
    if n < 10 then (48 + n) as char else (87 + n) as char
  }

  /** `hex.EncodeToString`. */
  function Hex(s: Str): (r: Str)
    ensures |r| == 2 * |s|
    ensures forall c :: c in r ==> '0' <= c <= '9' || 'a' <= c <= 'f'
  {
    if s == [] then [] else [HexDigit(s[0] as int / 16), HexDigit(s[0] as int % 16)] + Hex(s[1..])
  }

  const HEX_DIGITS: Str := "0123456789abcdef"

  /** Two digits per byte, the high half first. */
  lemma {:induction false} HexMeans(s: Str, i: nat)
    requires i < |s|
    ensures Hex(s)[2 * i] == HEX_DIGITS[s[i] as int / 16] && Hex(s)[2 * i + 1] == HEX_DIGITS[s[i] as int % 16]
  {
    HexDigitTable(s[0] as int / 16);
    HexDigitTable(s[0] as int % 16);
    if i > 0 {
      HexMeans(s[1..], i - 1);
      var h := [HexDigit(s[0] as int / 16), HexDigit(s[0] as int % 16)];
      assert Hex(s) == h + Hex(s[1..]);
    }
  }

  lemma HexDigitTable(n: nat)
    requires n < 16
    ensures HexDigit(n) == HEX_DIGITS[n]
  {
  }

  // ---- A date codec exists ----

  function Pow10(k: nat): nat { if k == 0 then 1 else 10 * Pow10(k - 1) }

  function Digits(n: nat, k: nat): (r: Str)
    ensures |r| == k && forall c :: c in r ==> IsDigit(c)
  {
    if k == 0 then [] else Digits(n / 10, k - 1) + [DigitChar(n % 10)]
  }

  lemma {:induction false} DigitsParse(n: nat, k: nat)
    requires n < Pow10(k)
    ensures ParseNat(Digits(n, k)) == n
  {
    if k > 0 {
      DigitsParse(n / 10, k - 1);
      var d := Digits(n, k);
      assert d[..|d| - 1] == Digits(n / 10, k - 1);
    }
  }

  function Stamp(n: nat): (r: Str)
    ensures |r| == 16
  {
    Digits(n, 14)[..8] + ['T'] + Digits(n, 14)[8..] + ['Z']
  }

  function Unstamp(s: Str): Option<int> {
    if |s| == 16 && forall c :: c in s[..8] + s[9..15] ==> IsDigit(c)
    then Some(ParseNat(s[..8] + s[9..15]) * SECOND) else None
  }

  ghost function Sample(): Functions {
    Functions(
      (s: Str) => seq(32, i => 'a'),
      (k: Str, s: Str) => seq(32, i => 'a'),
      (t: int) => Stamp(if 0 <= t < END_OF_DATES then t / SECOND else 0),
      Unstamp)
  }

  lemma StampParses(n: nat)
    requires n < 253_402_300_800
    ensures Unstamp(Stamp(n)) == Some(n * SECOND)
  {
    assert Pow10(7) == 10_000_000;
    assert Pow10(14) == 10_000_000 * Pow10(7) by { assert Pow10(10) == 1000 * Pow10(7); }
    DigitsParse(n, 14);
    assert Stamp(n)[..8] + Stamp(n)[9..15] == Digits(n, 14);
  }

  lemma SampleFormat(t: int)
    ensures Sample().format(t) == Stamp(if 0 <= t < END_OF_DATES then t / SECOND else 0)
  {
  }

  lemma SampleRoundTrip(t: int)
    requires 0 <= t < END_OF_DATES
    ensures Sample().parse(Sample().format(t)) == Some(t - t % SECOND)
  {
    SampleFormat(t);
    StampParses(t / SECOND);
    assert t / SECOND * SECOND == t - t % SECOND;
  }

  lemma StampBytes(n: nat)
    ensures forall c :: c in Stamp(n) ==> IsDateByte(c)
  {
  }

  lemma SampleParse(s: Str)
    ensures Sample().parse(s).Some? ==> |s| >= 8
  {
  }

  lemma SampleIsCodec()
    ensures DateCodec(Sample())
  {
    var f := Sample();
    hide Sample, IsDateByte, Stamp;
    forall s ensures f.parse(s).Some? ==> |s| >= 8 {
      SampleParse(s);
    }
    forall t ensures |f.format(t)| == 16 && forall c :: c in f.format(t) ==> IsDateByte(c) {
      SampleFormat(t);
      StampBytes(if 0 <= t < END_OF_DATES then t / SECOND else 0);
    }
    forall t | 0 <= t < END_OF_DATES ensures f.parse(f.format(t)) == Some(t - t % SECOND) {
      SampleRoundTrip(t);
    }
  }
}
