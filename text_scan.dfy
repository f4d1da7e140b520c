/**
 * The substring-scanning steps the response parsers of src/telegram_api.c,
 * src/news_api.c and src/weather_api.c share: finding the body after the
 * HTTP header block, copying a quoted value up to its closing quote with a
 * length cap, printing an integer in decimal (printf's %d and %lld), and
 * the C library's atoi/atol (newlib's strtol, 32-bit long).
 */
module TextScan {
  import opened Bytes

  const CR: byte := 13
  const LF: byte := 10
  const QUOTE: byte := 34

  /** "\r\n\r\n", the end of the header block. */
  const HEADER_END: seq<byte> := [CR, LF, CR, LF]

  /** strstr(response, "\r\n\r\n") + 4: where the body starts, if the separator is there. */
  function BodyStart(buf: seq<byte>): (r: Option<nat>)
    ensures r.Some? <==> StrStr(buf, 0, HEADER_END).Some?
    ensures r.Some? ==> 4 <= r.value <= |buf| && buf[r.value - 4..r.value] == HEADER_END
  {
    match StrStr(buf, 0, HEADER_END)
    case None => None
    case Some(i) => Some(i + 4)
  }

  /**
   * The bytes from `start` up to the next '"' (strchr), cut to `cap`
   * (strncpy of at most `cap` bytes, then a terminator); nothing when the C
   * string ends first.
   */
  function QuotedField(buf: seq<byte>, start: nat, cap: nat): (r: Option<seq<byte>>)
    ensures r.Some? <==> StrChr(buf, start, QUOTE).Some?
    ensures r.Some? ==> |r.value| <= cap && NoNul(r.value)
    ensures r.Some? ==> forall i :: 0 <= i < |r.value| ==> r.value[i] != QUOTE
  {
    match StrChr(buf, start, QUOTE)
    case None => None
    case Some(e) => Some(buf[start..start + Min(e - start, cap)])
  }

  /**
   * A value written between quotes comes back whole when it fits the cap,
   * and cut to its first `cap` bytes otherwise.
   */
  lemma QuotedFieldReadsValue(buf: seq<byte>, start: nat, v: seq<byte>, cap: nat)
    requires NoNul(v) && forall i :: 0 <= i < |v| ==> v[i] != QUOTE
    requires start + |v| < |buf| && buf[start..start + |v|] == v && buf[start + |v|] == QUOTE
    ensures QuotedField(buf, start, cap) == Some(v[..Min(|v|, cap)])
  {
    QuoteAt(buf, start, v);
    var k := Min(|v|, cap);
    assert buf[start..start + k] == v[..k];
  }

  /** The same, for a value followed by its closing quote. */
  lemma QuotedValue(buf: seq<byte>, start: nat, v: seq<byte>, cap: nat)
    requires NoNul(v) && forall i :: 0 <= i < |v| ==> v[i] != QUOTE
    requires StartsAt(buf, start, v + [QUOTE])
    ensures QuotedField(buf, start, cap) == Some(v[..Min(|v|, cap)])
  {
    StartsAtSplit(buf, start, v, [QUOTE]);
    assert buf[start + |v|] == buf[start + |v|..start + |v| + 1][0];
    QuotedFieldReadsValue(buf, start, v, cap);
  }

  lemma {:induction false} QuoteAt(buf: seq<byte>, start: nat, v: seq<byte>)
    requires NoNul(v) && forall i :: 0 <= i < |v| ==> v[i] != QUOTE
    requires start + |v| < |buf| && buf[start..start + |v|] == v && buf[start + |v|] == QUOTE
    ensures StrChr(buf, start, QUOTE) == Some(start + |v|)
    decreases |v|
  {
    if |v| > 0 {
      assert buf[start] == v[0];
      assert buf[start + 1..start + 1 + |v[1..]|] == v[1..];
      QuoteAt(buf, start + 1, v[1..]);
    }
  }

  /** snprintf into a char[size]: at most size - 1 characters are kept. */
  function Truncated(s: seq<byte>, size: nat): (r: seq<byte>)
    requires 1 <= size
    ensures |r| <= size - 1 && |r| <= |s| && r == s[..|r|]
    ensures |s| < size ==> r == s
  {
    s[..Min(|s|, size - 1)]
  }

  // ---------------------------------------------------------------------
  // atoi / atol
  // ---------------------------------------------------------------------

  const LONG_MAX: int := 0x7FFF_FFFF
  const LONG_MIN: int := -0x8000_0000

  /** isspace in the C locale: space, \t, \n, \v, \f, \r. */
  predicate IsSpace(b: byte)
  {
    b == 32 || 9 <= b <= 13
  }

  /** Index of the first byte at or after `p` that is not white space. */
  function SkipSpace(buf: seq<byte>, p: nat): (q: nat)
    ensures p <= q <= |buf| || q == p
    ensures forall i :: p <= i < q ==> IsSpace(buf[i])
    ensures q < |buf| ==> !IsSpace(buf[q])
    decreases |buf| - p
  {
    if p < |buf| && IsSpace(buf[p]) then
      SkipSpace(buf, p + 1)
    else p
  }

  /** The value of the run of decimal digits at `p`, read most significant first onto `acc`. */
  function DigitRun(buf: seq<byte>, p: nat, acc: nat): (v: nat)
    ensures acc <= v
    decreases |buf| - p
  {
    if p < |buf| && IsDigit(buf[p]) then DigitRun(buf, p + 1, acc * 10 + DigitVal(buf[p])) else acc
  }

  function Clamp32(v: int): (r: int)
    ensures LONG_MIN <= r <= LONG_MAX
    ensures LONG_MIN <= v <= LONG_MAX ==> r == v
  {
    if v > LONG_MAX then LONG_MAX else if v < LONG_MIN then LONG_MIN else v
  }

  /**
   * atol(buf + p) with newlib's strtol on a 32-bit long: leading white
   * space, an optional sign, the digits; a value out of range saturates at
   * LONG_MAX or LONG_MIN. atoi is the same value cast to a 32-bit int.
   */
  function Atol(buf: seq<byte>, p: nat): (r: int)
    ensures LONG_MIN <= r <= LONG_MAX
  {
    var q := SkipSpace(buf, p);
    if q < |buf| && buf[q] == 45 then Clamp32(-(DigitRun(buf, q + 1, 0) as int))
    else if q < |buf| && buf[q] == 43 then Clamp32(DigitRun(buf, q + 1, 0))
    else Clamp32(DigitRun(buf, q, 0))
  }

  // ---------------------------------------------------------------------
  // Decimal text
  // ---------------------------------------------------------------------

  /** The decimal digits of a natural number, most significant first, no leading zeros. */
  function Digits(v: nat): (r: seq<byte>)
    ensures 1 <= |r| && forall i :: 0 <= i < |r| ==> IsDigit(r[i])
    decreases v
  {
    if v < 10 then [(48 + v) as byte] else Digits(v / 10) + [(48 + v % 10) as byte]
  }

  /** printf("%d") / printf("%lld"): a minus sign for negatives, then the digits. */
  function Decimal(n: int): (r: seq<byte>)
    ensures 1 <= |r|
  {
    if n < 0 then [45] + Digits(-n) else Digits(n)
  }

  /** The value of a digit string read most significant first onto `acc`. */
  function Horner(acc: nat, xs: seq<byte>): nat
    requires forall i :: 0 <= i < |xs| ==> IsDigit(xs[i])
    decreases |xs|
  {
    if xs == [] then acc else Horner(acc * 10 + DigitVal(xs[0]), xs[1..])
  }

  lemma {:induction false} HornerSnoc(acc: nat, xs: seq<byte>, d: byte)
    requires forall i :: 0 <= i < |xs| ==> IsDigit(xs[i])
    requires IsDigit(d)
    ensures Horner(acc, xs + [d]) == Horner(acc, xs) * 10 + DigitVal(d)
    decreases |xs|
  {
    if xs == [] {
      assert Horner(acc, [d]) == Horner(acc * 10 + DigitVal(d), []);
    } else {
      assert (xs + [d])[1..] == xs[1..] + [d];
      HornerSnoc(acc * 10 + DigitVal(xs[0]), xs[1..], d);
    }
  }

  /** Reading back the digits of v gives v. */
  lemma {:induction false} HornerDigits(v: nat)
    ensures Horner(0, Digits(v)) == v
    decreases v
  {
    if v >= 10 {
      HornerDigits(v / 10);
      HornerSnoc(0, Digits(v / 10), (48 + v % 10) as byte);
    }
  }

  /** A run of digits ended by a non-digit (or the end) is read as its Horner value. */
  lemma {:induction false} DigitRunReads(buf: seq<byte>, p: nat, xs: seq<byte>, acc: nat)
    requires forall i :: 0 <= i < |xs| ==> IsDigit(xs[i])
    requires p + |xs| <= |buf| && buf[p..p + |xs|] == xs
    requires p + |xs| == |buf| || !IsDigit(buf[p + |xs|])
    ensures DigitRun(buf, p, acc) == Horner(acc, xs)
    decreases |xs|
  {
    if xs != [] {
      assert buf[p] == xs[0];
      assert buf[p + 1..p + 1 + |xs[1..]|] == xs[1..];
      DigitRunReads(buf, p + 1, xs[1..], acc * 10 + DigitVal(xs[0]));
    }
  }

  /** The printed digits of v, followed by a non-digit, are read back as v. */
  lemma DigitRunReadsDigits(buf: seq<byte>, p: nat, v: nat)
    requires p + |Digits(v)| <= |buf| && buf[p..p + |Digits(v)|] == Digits(v)
    requires p + |Digits(v)| == |buf| || !IsDigit(buf[p + |Digits(v)|])
    ensures DigitRun(buf, p, 0) == v
  {
    DigitRunReads(buf, p, Digits(v), 0);
    HornerDigits(v);
  }

  /** atol reads back what printf("%ld") wrote, for every 32-bit value. */
  lemma AtolReadsDecimal(buf: seq<byte>, p: nat, n: int)
    requires LONG_MIN <= n <= LONG_MAX
    requires p + |Decimal(n)| <= |buf| && buf[p..p + |Decimal(n)|] == Decimal(n)
    requires p + |Decimal(n)| == |buf| || !IsDigit(buf[p + |Decimal(n)|])
    ensures Atol(buf, p) == n
  {
    var d := Decimal(n);
    if n < 0 {
      assert buf[p] == d[0] == 45;
      assert buf[p + 1..p + 1 + |Digits(-n)|] == d[1..] == Digits(-n);
      AtolReadsNegative(buf, p, -n);
    } else {
      AtolReadsNatural(buf, p, n);
    }
  }

  /** The digits of v at p, not preceded by a sign, read as v. */
  lemma AtolReadsNatural(buf: seq<byte>, p: nat, v: nat)
    requires v <= LONG_MAX
    requires p + |Digits(v)| <= |buf| && buf[p..p + |Digits(v)|] == Digits(v)
    requires p + |Digits(v)| == |buf| || !IsDigit(buf[p + |Digits(v)|])
    ensures Atol(buf, p) == v
  {
    assert buf[p] == Digits(v)[0];
    assert SkipSpace(buf, p) == p;
    DigitRunReadsDigits(buf, p, v);
  }

  /** A minus sign at p followed by the digits of v reads as -v. */
  lemma AtolReadsNegative(buf: seq<byte>, p: nat, v: nat)
    requires v <= -LONG_MIN
    requires p + 1 + |Digits(v)| <= |buf| && buf[p] == 45
    requires buf[p + 1..p + 1 + |Digits(v)|] == Digits(v)
    requires p + 1 + |Digits(v)| == |buf| || !IsDigit(buf[p + 1 + |Digits(v)|])
    ensures Atol(buf, p) == -(v as int)
  {
    assert SkipSpace(buf, p) == p;
    DigitRunReadsDigits(buf, p + 1, v);
  }
}
