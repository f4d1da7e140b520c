/**
 * Byte strings and the C-library string primitives the firmware's parsers
 * lean on (strstr, strchr, strlen, strncpy over NUL-terminated buffers).
 * On the target, `char` is unsigned, so a character is a byte 0..255.
 */
module Bytes {

  newtype byte = b: int | 0 <= b < 256

  datatype Option<T> = None | Some(value: T)

  predicate NoNul(s: seq<byte>)
  {
    forall i :: 0 <= i < |s| ==> s[i] != 0
  }

  /** The byte a C string scan sees at index `i`: past the array it reads as a terminator. */
  function At(buf: seq<byte>, i: nat): (b: byte)
    ensures b != 0 ==> i < |buf| && b == buf[i]
  {
    if i < |buf| then buf[i] else 0
  }

  /** `pat` occurs in `buf` at index `i`. */
  predicate StartsAt(buf: seq<byte>, i: int, pat: seq<byte>)
  {
    0 <= i && i + |pat| <= |buf| && buf[i..i + |pat|] == pat
  }

  /** An occurrence of a + b is an occurrence of a followed by one of b. */
  lemma StartsAtSplit(buf: seq<byte>, i: int, a: seq<byte>, b: seq<byte>)
    requires StartsAt(buf, i, a + b)
    ensures StartsAt(buf, i, a) && StartsAt(buf, i + |a|, b)
  {
    assert buf[i..i + |a|] == (a + b)[..|a|];
    assert buf[i + |a|..i + |a| + |b|] == (a + b)[|a|..];
  }

  /** A run followed by a terminator byte, read index by index. */
  lemma RunBefore(buf: seq<byte>, i: nat, a: seq<byte>, c: byte)
    requires StartsAt(buf, i, a + [c])
    ensures StartsAt(buf, i, a) && i + |a| < |buf| && buf[i + |a|] == c
    ensures forall k :: 0 <= k < |a| ==> buf[i + k] == a[k]
  {
    StartsAtSplit(buf, i, a, [c]);
    assert buf[i + |a|] == buf[i + |a|..i + |a| + 1][0];
    forall k | 0 <= k < |a|
      ensures buf[i + k] == a[k]
    {
      assert buf[i + k] == buf[i..i + |a|][k];
    }
  }

  /**
   * Number of bytes of the C string that starts at `pos` (strlen).
   * A string that runs to the end of the array stops there.
   */
  function StrLen(buf: seq<byte>, pos: nat): (n: nat)
    decreases |buf| - pos
    ensures pos >= |buf| ==> n == 0
    ensures pos + n <= |buf| || n == 0
    ensures forall k :: pos <= k < pos + n ==> buf[k] != 0
    ensures pos + n < |buf| ==> buf[pos + n] == 0
  {
    if pos >= |buf| || buf[pos] == 0 then 0 else 1 + StrLen(buf, pos + 1)
  }

  /** The C string starting at `pos`, without its terminator. */
  function CStrAt(buf: seq<byte>, pos: nat): (s: seq<byte>)
    ensures NoNul(s)
    ensures pos < |buf| ==> s == buf[pos..pos + StrLen(buf, pos)]
  {
    if pos >= |buf| then [] else buf[pos..pos + StrLen(buf, pos)]
  }

  /**
   * The contents of a NUL-terminated character array: the bytes before the
   * first NUL (all of them when there is none). This is what strcmp compares.
   */
  function CString(s: seq<byte>): seq<byte>
  {
    if |s| == 0 || s[0] == 0 then [] else [s[0]] + CString(s[1..])
  }

  /**
   * strstr(buf + pos, pat) for a non-empty pattern without NUL: the first
   * index at or after `pos`, inside the C string starting at `pos`, where
   * `pat` occurs.
   */
  function StrStr(buf: seq<byte>, pos: nat, pat: seq<byte>): (r: Option<nat>)
    requires |pat| > 0 && NoNul(pat)
    decreases |buf| - pos
    ensures r.Some? ==> pos <= r.value && StartsAt(buf, r.value, pat)
    ensures r.Some? ==> forall k :: pos <= k < r.value + |pat| ==> buf[k] != 0
    ensures r.Some? ==> forall j :: pos <= j < r.value ==> !StartsAt(buf, j, pat)
    ensures r.None? ==> forall j :: pos <= j < pos + StrLen(buf, pos) ==> !StartsAt(buf, j, pat)
  {
    if pos >= |buf| then None
    else if StartsAt(buf, pos, pat) then
      assert forall k :: pos <= k < pos + |pat| ==> buf[k] == pat[k - pos];
      Some(pos)
    else if buf[pos] == 0 then None
    else StrStr(buf, pos + 1, pat)
  }

  /** strchr(buf + pos, c) for a non-NUL byte `c`. */
  function StrChr(buf: seq<byte>, pos: nat, c: byte): (r: Option<nat>)
    requires c != 0
    decreases |buf| - pos
    ensures r.Some? ==> pos <= r.value < |buf| && buf[r.value] == c
    ensures r.Some? ==> forall k :: pos <= k <= r.value ==> buf[k] != 0
    ensures r.Some? ==> forall j :: pos <= j < r.value ==> buf[j] != c
    ensures r.None? ==> forall j :: pos <= j < pos + StrLen(buf, pos) ==> buf[j] != c
  {
    if pos >= |buf| || buf[pos] == 0 then None
    else if buf[pos] == c then Some(pos)
    else StrChr(buf, pos + 1, c)
  }

  function Min(a: int, b: int): int { if a <= b then a else b }
  function Max(a: int, b: int): int { if a >= b then a else b }

  /**
   * strncpy(dst, src, n) followed by dst[n] = 0, read back as a C string:
   * at most `n` bytes of the C string at `pos`.
   */
  function CopyN(buf: seq<byte>, pos: nat, n: nat): (s: seq<byte>)
    ensures |s| == Min(n, |CStrAt(buf, pos)|)
    ensures s == CStrAt(buf, pos)[..|s|]
    ensures NoNul(s)
  {
    var c := CStrAt(buf, pos);
    if n <= |c| then c[..n] else c
  }

  /** strncpy of |v| bytes from where a run v of non-NUL bytes sits copies v exactly. */
  lemma CopyNOfRun(buf: seq<byte>, pos: nat, v: seq<byte>)
    requires NoNul(v) && StartsAt(buf, pos, v)
    ensures CopyN(buf, pos, |v|) == v
  {
    assert forall k :: 0 <= k < |v| ==> buf[pos + k] == v[k];
    assert |v| <= StrLen(buf, pos);
    assert CStrAt(buf, pos)[..|v|] == v;
  }

  /** Characters '0'..'9'. */
  predicate IsDigit(b: byte) { 48 <= b <= 57 }

  /** Digit value of an ASCII digit. */
  function DigitVal(b: byte): int
    requires IsDigit(b)
  {
    b as int - 48
  }
}
