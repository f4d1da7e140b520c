/**
 * The response side of src/telegram_api.c: parse_int64, the message-text
 * scanner and unescaper, and the getUpdates / sendMessage response parsers.
 * Each parser is a function over the bytes of the response array (the
 * scans stop at a NUL, as strstr and strchr do), and the loops the firmware
 * runs are methods proved to compute those functions.
 */
module TelegramParse {
  import opened Bytes
  import opened TextScan

  const MAX_TELEGRAM_MESSAGES: nat := 15
  const TEXT_MAX: nat := 256
  const USERNAME_MAX: nat := 32
  /** error_message is char[128]: at most 127 characters and a terminator. */
  const ERROR_MAX: nat := 127

  const TWO63: int := 0x8000_0000_0000_0000
  const TWO64: int := 0x1_0000_0000_0000_0000

  const BACKSLASH: byte := 92
  const SLASH: byte := 47
  const LETTER_N: byte := 110
  const CLOSE_BRACE: seq<byte> := [125]

  /** "update_id": */
  const UPDATE_ID: seq<byte> := [34, 117, 112, 100, 97, 116, 101, 95, 105, 100, 34, 58]
  /** "message":{ */
  const MESSAGE: seq<byte> := [34, 109, 101, 115, 115, 97, 103, 101, 34, 58, 123]
  /** "message_id": */
  const MESSAGE_ID: seq<byte> := [34, 109, 101, 115, 115, 97, 103, 101, 95, 105, 100, 34, 58]
  /** "chat":{"id": */
  const CHAT_ID: seq<byte> := [34, 99, 104, 97, 116, 34, 58, 123, 34, 105, 100, 34, 58]
  /** "username":" */
  const USERNAME: seq<byte> := [34, 117, 115, 101, 114, 110, 97, 109, 101, 34, 58, 34]
  /** "text":" */
  const TEXT: seq<byte> := [34, 116, 101, 120, 116, 34, 58, 34]
  /** "date": */
  const DATE: seq<byte> := [34, 100, 97, 116, 101, 34, 58]
  /** "result":[ */
  const RESULT: seq<byte> := [34, 114, 101, 115, 117, 108, 116, 34, 58, 91]
  /** "ok":false */
  const OK_FALSE: seq<byte> := [34, 111, 107, 34, 58, 102, 97, 108, 115, 101]
  /** "ok":true */
  const OK_TRUE: seq<byte> := [34, 111, 107, 34, 58, 116, 114, 117, 101]
  /** "description":" */
  const DESCRIPTION: seq<byte> := [34, 100, 101, 115, 99, 114, 105, 112, 116, 105, 111, 110, 34, 58, 34]

  /** Invalid response */
  const INVALID_RESPONSE: seq<byte> := [73, 110, 118, 97, 108, 105, 100, 32, 114, 101, 115, 112, 111, 110, 115, 101]
  /** API error */
  const API_ERROR: seq<byte> := [65, 80, 73, 32, 101, 114, 114, 111, 114]
  /** Failed to send message */
  const SEND_FAILED: seq<byte> := [70, 97, 105, 108, 101, 100, 32, 116, 111, 32, 115, 101, 110, 100, 32, 109, 101, 115, 115, 97, 103, 101]

  datatype TelegramState = Idle | Sending | Receiving | Success | Error

  datatype RequestType = SendMessageRequest | GetUpdatesRequest

  /** telegram_message_t; time_t is 64 bits wide on this toolchain. */
  datatype TelegramMessage = TelegramMessage(
    messageId: int, chatId: int, username: seq<byte>, text: seq<byte>, timestamp: int)

  /** telegram_data_t, with the stored messages as a sequence of message_count entries. */
  datatype TelegramData = TelegramData(
    messages: seq<TelegramMessage>, state: TelegramState, errorMessage: seq<byte>,
    lastUpdateId: int, pollingActive: bool)

  /** What a getUpdates scan changes: the stored messages and the highest update id. */
  datatype Inbox = Inbox(messages: seq<TelegramMessage>, lastUpdateId: int)

  /** A stored message: fields as the fixed-size arrays of telegram_message_t can hold them. */
  predicate WellFormed(m: TelegramMessage)
  {
    0 < |m.text| <= TEXT_MAX && NoNul(m.text) && |m.username| <= USERNAME_MAX && NoNul(m.username)
    && -TWO63 <= m.messageId < TWO63 && -TWO63 <= m.chatId < TWO63
  }

  // ---------------------------------------------------------------------
  // parse_int64
  // ---------------------------------------------------------------------

  /** Two's-complement wrap-around of an int64_t result. */
  function Wrap64(v: int): (r: int)
    ensures -TWO63 <= r < TWO63
    ensures -TWO63 <= v < TWO63 ==> r == v
    ensures (v - r) % TWO64 == 0
  {
    var m := v % TWO64;
    if m >= TWO63 then m - TWO64 else m
  }

  /** The characters parse_int64 skips: space and tab only. */
  predicate IsBlank(b: byte)
  {
    b == 32 || b == 9
  }

  function SkipBlanks(buf: seq<byte>, p: nat): (q: nat)
    ensures p <= q && !IsBlank(At(buf, q))
    decreases |buf| - p
  {
    if IsBlank(At(buf, p)) then SkipBlanks(buf, p + 1) else p
  }

  /** result = result * 10 + digit over the run of digits at `p`, in int64_t arithmetic. */
  function Digits64(buf: seq<byte>, p: nat, acc: int): (r: int)
    ensures -TWO63 <= acc < TWO63 ==> -TWO63 <= r < TWO63
    decreases |buf| - p
  {
    if IsDigit(At(buf, p)) then Digits64(buf, p + 1, Wrap64(acc * 10 + DigitVal(At(buf, p)))) else acc
  }

  /** parse_int64(buf + p): blanks, an optional sign, the digits, then result * sign. */
  function Int64At(buf: seq<byte>, p: nat): (r: int)
    ensures -TWO63 <= r < TWO63
  {
    var q := SkipBlanks(buf, p);
    if At(buf, q) == 45 then Wrap64(-Digits64(buf, q + 1, 0))
    else if At(buf, q) == 43 then Digits64(buf, q + 1, 0)
    else Digits64(buf, q, 0)
  }

  /** Below 2^63 the int64_t accumulation never wraps. */
  lemma {:induction false} Digits64Exact(buf: seq<byte>, p: nat, acc: nat)
    requires DigitRun(buf, p, acc) < TWO63
    ensures Digits64(buf, p, acc) == DigitRun(buf, p, acc)
    decreases |buf| - p
  {
    if IsDigit(At(buf, p)) {
      var a := acc * 10 + DigitVal(buf[p]);
      assert DigitRun(buf, p, acc) == DigitRun(buf, p + 1, a);
      Digits64Exact(buf, p + 1, a);
    }
  }

  /** parse_int64 reads back every int64_t printed with %lld except the most negative one. */
  lemma Int64ReadsDecimal(buf: seq<byte>, p: nat, n: int)
    requires -TWO63 < n < TWO63
    requires StartsAt(buf, p, Decimal(n)) && !IsDigit(At(buf, p + |Decimal(n)|))
    ensures Int64At(buf, p) == n
  {
    var d := Decimal(n);
    if n < 0 {
      assert buf[p] == d[0] == 45;
      assert buf[p + 1..p + 1 + |Digits(-n)|] == d[1..] == Digits(-n);
      Int64ReadsNegative(buf, p, -n);
    } else {
      assert buf[p..p + |Digits(n)|] == Digits(n);
      Int64ReadsNatural(buf, p, n);
    }
  }

  /** The digits of v at p, not preceded by a sign, read as v. */
  lemma Int64ReadsNatural(buf: seq<byte>, p: nat, v: nat)
    requires v < TWO63
    requires p + |Digits(v)| <= |buf| && buf[p..p + |Digits(v)|] == Digits(v)
    requires !IsDigit(At(buf, p + |Digits(v)|))
    ensures Int64At(buf, p) == v
  {
    assert buf[p] == Digits(v)[0];
    assert SkipBlanks(buf, p) == p;
    DigitRunReadsDigits(buf, p, v);
    Digits64Exact(buf, p, 0);
  }

  /** A minus sign at p followed by the digits of v reads as -v. */
  lemma Int64ReadsNegative(buf: seq<byte>, p: nat, v: nat)
    requires v < TWO63
    requires p + 1 + |Digits(v)| <= |buf| && buf[p] == 45
    requires buf[p + 1..p + 1 + |Digits(v)|] == Digits(v)
    requires !IsDigit(At(buf, p + 1 + |Digits(v)|))
    ensures Int64At(buf, p) == -(v as int)
  {
    assert SkipBlanks(buf, p) == p;
    DigitRunReadsDigits(buf, p + 1, v);
    Digits64Exact(buf, p + 1, 0);
  }

  /** parse_int64: skip blanks, read the sign, run the digit loop, apply the sign. */
  method ParseInt64(buf: seq<byte>, p: nat) returns (v: int)
    ensures v == Int64At(buf, p)
  {
    var q := SkipBlanksLoop(buf, p);
    var sign := 1;
    if At(buf, q) == 45 {
      sign := -1;
      q := q + 1;
    } else if At(buf, q) == 43 {
      q := q + 1;
    }
    var result := DigitLoop(buf, q);
    v := Wrap64(result * sign);
  }

  /** The blank-skipping loop of parse_int64. */
  method SkipBlanksLoop(buf: seq<byte>, p: nat) returns (q: nat)
    ensures q == SkipBlanks(buf, p)
  {
    q := p;
    while IsBlank(At(buf, q))
      invariant p <= q && SkipBlanks(buf, q) == SkipBlanks(buf, p)
      decreases |buf| - q
    {
      q := q + 1;
    }
  }

  /** The digit loop of parse_int64: result = result * 10 + digit, wrapping at 64 bits. */
  method DigitLoop(buf: seq<byte>, q0: nat) returns (result: int)
    ensures result == Digits64(buf, q0, 0)
  {
    var q := q0;
    result := 0;
    while IsDigit(At(buf, q))
      invariant q0 <= q && -TWO63 <= result < TWO63
      invariant Digits64(buf, q, result) == Digits64(buf, q0, 0)
      decreases |buf| - q
    {
      result := Wrap64(result * 10 + DigitVal(At(buf, q)));
      q := q + 1;
    }
  }

  // ---------------------------------------------------------------------
  // Message text
  // ---------------------------------------------------------------------

  /**
   * Where the text value starting at `e` ends: the first '"' not consumed
   * as the second byte of a backslash pair; nothing when the C string ends
   * first.
   */
  function TextEnd(buf: seq<byte>, e: nat): (r: Option<nat>)
    ensures r.Some? ==> e <= r.value < |buf| && buf[r.value] == QUOTE
    ensures r.Some? ==> forall k :: e <= k < r.value ==> buf[k] != 0
    decreases |buf| - e
  {
    if At(buf, e) == 0 then None
    else if buf[e] == BACKSLASH && At(buf, e + 1) != 0 then TextEnd(buf, e + 2)
    else if buf[e] == QUOTE then Some(e)
    else TextEnd(buf, e + 1)
  }

  /** The text_end loop: `closed` when it stopped at a quote. */
  method ScanTextEnd(buf: seq<byte>, p: nat) returns (e: nat, closed: bool)
    ensures closed <==> TextEnd(buf, p).Some?
    ensures closed ==> e == TextEnd(buf, p).value
  {
    e := p;
    while At(buf, e) != 0
      invariant p <= e && TextEnd(buf, e) == TextEnd(buf, p)
      decreases |buf| - e
    {
      if buf[e] == BACKSLASH && At(buf, e + 1) != 0 {
        e := e + 2;
      } else if buf[e] == QUOTE {
        break;
      } else {
        e := e + 1;
      }
    }
    closed := At(buf, e) == QUOTE;
  }

  /** The escapes the firmware decodes: \" \\ \/ and \n. */
  predicate Escapable(b: byte)
  {
    b == QUOTE || b == BACKSLASH || b == SLASH || b == LETTER_N
  }

  function Unescaped(b: byte): byte
  {
    if b == LETTER_N then LF else b
  }

  /**
   * The clean-up pass: a backslash followed by one of the four escapes
   * becomes that character; any other backslash, and a backslash in the
   * last position, stays as it is.
   */
  function Unescape(t: seq<byte>): (r: seq<byte>)
    ensures |r| <= |t|
    ensures NoNul(t) ==> NoNul(r)
  {
    if |t| == 0 then []
    else if t[0] == BACKSLASH && |t| > 1 && Escapable(t[1]) then [Unescaped(t[1])] + Unescape(t[2..])
    else [t[0]] + Unescape(t[1..])
  }

  /** How a JSON encoder writes one character inside a string (the subset the parser decodes). */
  function EscapeByte(c: byte): seq<byte>
  {
    if c == QUOTE || c == BACKSLASH then [BACKSLASH, c]
    else if c == LF then [BACKSLASH, LETTER_N]
    else [c]
  }

  function Escape(s: seq<byte>): seq<byte>
  {
    if s == [] then [] else EscapeByte(s[0]) + Escape(s[1..])
  }

  /** Unescaping undoes escaping. */
  lemma {:induction false} UnescapeEscape(s: seq<byte>)
    ensures Unescape(Escape(s)) == s
  {
    if s != [] {
      var e := EscapeByte(s[0]);
      var t := Escape(s);
      assert t == e + Escape(s[1..]);
      UnescapeEscape(s[1..]);
      if |e| == 2 {
        assert t[2..] == Escape(s[1..]);
      } else {
        assert t[1..] == Escape(s[1..]);
      }
    }
  }

  /** The end scan stops at the quote that closes an escaped string, not at an escaped quote inside it. */
  lemma {:induction false} TextEndAfterEscape(buf: seq<byte>, p: nat, s: seq<byte>)
    requires NoNul(s) && p + |Escape(s)| < |buf|
    requires forall k :: 0 <= k < |Escape(s)| ==> buf[p + k] == Escape(s)[k]
    requires buf[p + |Escape(s)|] == QUOTE
    ensures TextEnd(buf, p) == Some(p + |Escape(s)|)
    decreases |s|
  {
    if s == [] {
      assert Escape(s) == [];
    } else {
      var e := EscapeByte(s[0]);
      var t := Escape(s[1..]);
      assert Escape(s) == e + t;
      assert buf[p + 0] == Escape(s)[0] == e[0];
      if |e| == 2 {
        assert buf[p + 1] == Escape(s)[1] == e[1];
      }
      assert TextEnd(buf, p) == TextEnd(buf, p + |e|);
      assert forall k :: 0 <= k < |t| ==> buf[p + |e| + k] == t[k] by {
        forall k | 0 <= k < |t| ensures buf[p + |e| + k] == t[k] {
          assert Escape(s)[|e| + k] == t[k];
        }
      }
      assert NoNul(s[1..]);
      TextEndAfterEscape(buf, p + |e|, s[1..]);
    }
  }

  /**
   * The decoded text of a value whose raw bytes start at `tp`: the raw
   * value up to its end quote, cut to 256 bytes, then unescaped; empty when
   * the end quote is missing.
   */
  function TextValue(buf: seq<byte>, tp: nat): (t: seq<byte>)
    ensures |t| <= TEXT_MAX && NoNul(t)
  {
    match TextEnd(buf, tp)
    case None => []
    case Some(e) => Unescape(Capped(buf[tp..e]))
  }

  /** The first 256 bytes of a raw value (strncpy into char text[257]). */
  function Capped(raw: seq<byte>): (r: seq<byte>)
    ensures |r| == Min(|raw|, TEXT_MAX) && r == raw[..|r|]
    ensures NoNul(raw) ==> NoNul(r)
  {
    raw[..Min(|raw|, TEXT_MAX)]
  }

  /** The decoded text of the message object at `m`; empty when it has no "text" key. */
  function MessageText(buf: seq<byte>, m: nat): (t: seq<byte>)
    ensures |t| <= TEXT_MAX && NoNul(t)
    ensures StrStr(buf, m, TEXT).None? ==> t == []
  {
    match StrStr(buf, m, TEXT)
    case None => []
    case Some(i) => TextValue(buf, i + |TEXT|)
  }

  /** A text value written by a JSON encoder is read back exactly when its escaped form fits 256 bytes. */
  lemma MessageTextReadsEscaped(buf: seq<byte>, m: nat, i: nat, s: seq<byte>)
    requires StrStr(buf, m, TEXT) == Some(i)
    requires NoNul(s) && |Escape(s)| <= TEXT_MAX && StartsAt(buf, i + 8, Escape(s) + [QUOTE])
    ensures MessageText(buf, m) == s
  {
    EscapedValueReads(buf, i + 8, s);
  }

  /** The same for the value alone. */
  lemma EscapedValueReads(buf: seq<byte>, tp: nat, s: seq<byte>)
    requires NoNul(s) && |Escape(s)| <= TEXT_MAX && StartsAt(buf, tp, Escape(s) + [QUOTE])
    ensures TextValue(buf, tp) == s
  {
    var t := Escape(s);
    RunBefore(buf, tp, t, QUOTE);
    TextEndAfterEscape(buf, tp, s);
    TextValueIsRaw(buf, tp, t);
    UnescapeEscape(s);
  }

  /** The text read is the unescaped raw value between its start and the end quote the scan finds. */
  lemma TextValueIsRaw(buf: seq<byte>, tp: nat, e: seq<byte>)
    requires TextEnd(buf, tp) == Some(tp + |e|) && StartsAt(buf, tp, e) && |e| <= TEXT_MAX
    ensures TextValue(buf, tp) == Unescape(e)
  {
    assert Capped(buf[tp..tp + |e|]) == e;
  }

  /** Whether the clean-up pass decodes a two-byte escape at read position r. */
  predicate EscapeAt(raw: seq<byte>, r: nat)
  {
    r + 1 < |raw| && raw[r] == BACKSLASH && Escapable(raw[r + 1])
  }

  /** A step of the clean-up pass over an escape, on top of what is already written. */
  lemma EscapeStep(raw: seq<byte>, r: nat, out: seq<byte>)
    requires EscapeAt(raw, r) && out + Unescape(raw[r..]) == Unescape(raw)
    ensures (out + [Unescaped(raw[r + 1])]) + Unescape(raw[r + 2..]) == Unescape(raw)
  {
    var x := [Unescaped(raw[r + 1])];
    UnescapeAtEscape(raw, r);
    assert (out + x) + Unescape(raw[r + 2..]) == out + (x + Unescape(raw[r + 2..]));
  }

  /** A step of the clean-up pass over any other byte, on top of what is already written. */
  lemma ByteStep(raw: seq<byte>, r: nat, out: seq<byte>)
    requires r < |raw| && !EscapeAt(raw, r) && out + Unescape(raw[r..]) == Unescape(raw)
    ensures (out + [raw[r]]) + Unescape(raw[r + 1..]) == Unescape(raw)
  {
    var x := [raw[r]];
    UnescapeAtByte(raw, r);
    assert (out + x) + Unescape(raw[r + 1..]) == out + (x + Unescape(raw[r + 1..]));
  }

  /** The clean-up pass at an escape: one decoded byte, then the rest after both. */
  lemma UnescapeAtEscape(raw: seq<byte>, r: nat)
    requires EscapeAt(raw, r)
    ensures Unescape(raw[r..]) == [Unescaped(raw[r + 1])] + Unescape(raw[r + 2..])
  {
    var rest := raw[r..];
    assert rest[2..] == raw[r + 2..];
  }

  /** The clean-up pass at any other byte: the byte itself, then the rest after it. */
  lemma UnescapeAtByte(raw: seq<byte>, r: nat)
    requires r < |raw| && !EscapeAt(raw, r)
    ensures Unescape(raw[r..]) == [raw[r]] + Unescape(raw[r + 1..])
  {
    var rest := raw[r..];
    assert rest[1..] == raw[r + 1..];
  }

  /** char text[257] = {0} followed by strncpy of the raw bytes. */
  method LoadText(raw: seq<byte>) returns (a: array<byte>)
    requires |raw| <= TEXT_MAX
    ensures fresh(a) && a.Length == TEXT_MAX + 1
    ensures forall j :: 0 <= j < |raw| ==> a[j] == raw[j]
  {
    a := new byte[TEXT_MAX + 1];
    var i := 0;
    while i < |raw|
      invariant 0 <= i <= |raw|
      invariant forall j :: 0 <= j < i ==> a[j] == raw[j]
    {
      a[i] := raw[i];
      i := i + 1;
    }
  }

  /**
   * The in-place clean-up loop over the 257-byte text array holding the
   * raw bytes: the write position never passes the read position, so the
   * bytes still to be read are intact.
   */
  method DecodeText(raw: seq<byte>) returns (text: seq<byte>)
    requires |raw| <= TEXT_MAX
    ensures text == Unescape(raw)
  {
    var n := |raw|;
    var a := LoadText(raw);
    var w := 0;
    var r := 0;
    ghost var out: seq<byte> := [];
    while r < n
      invariant 0 <= w <= r <= n && |out| == w
      invariant forall j :: 0 <= j < w ==> a[j] == out[j]
      invariant forall j :: r <= j < n ==> a[j] == raw[j]
      invariant out + Unescape(raw[r..]) == Unescape(raw)
      decreases n - r
    {
      r, w, out := DecodeStep(a, raw, r, w, out);
    }
    assert raw[n..] == [];
    text := a[..w];
    assert text == out;
  }

  /** One pass of the clean-up loop: read at r, write at w, and move on. */
  method DecodeStep(a: array<byte>, raw: seq<byte>, r: nat, w: nat, ghost out: seq<byte>)
    returns (r': nat, w': nat, ghost out': seq<byte>)
    requires |raw| <= a.Length && w <= r < |raw| && |out| == w
    requires forall j :: 0 <= j < w ==> a[j] == out[j]
    requires forall j :: r <= j < |raw| ==> a[j] == raw[j]
    requires out + Unescape(raw[r..]) == Unescape(raw)
    modifies a
    ensures r < r' <= |raw| && w' == w + 1 <= r' && |out'| == w'
    ensures forall j :: 0 <= j < w' ==> a[j] == out'[j]
    ensures forall j :: r' <= j < |raw| ==> a[j] == raw[j]
    ensures out' + Unescape(raw[r'..]) == Unescape(raw)
  {
    if a[r] == BACKSLASH && r + 1 < |raw| && Escapable(a[r + 1]) {
      assert EscapeAt(raw, r);
      EscapeStep(raw, r, out);
      a[w] := Unescaped(a[r + 1]);
      out' := out + [Unescaped(raw[r + 1])];
      r' := r + 2;
    } else {
      assert !EscapeAt(raw, r);
      ByteStep(raw, r, out);
      a[w] := a[r];
      out' := out + [raw[r]];
      r' := r + 1;
    }
    w' := w + 1;
  }

  /** The username value, up to its closing quote and at most 32 bytes; empty when absent. */
  function MessageUsername(buf: seq<byte>, m: nat): (u: seq<byte>)
    ensures |u| <= USERNAME_MAX && NoNul(u)
  {
    match StrStr(buf, m, USERNAME)
    case None => []
    case Some(i) =>
      match QuotedField(buf, i + 12, USERNAME_MAX)
      case None => []
      case Some(v) => v
  }

  /** The "date" value, 0 when absent. */
  function MessageDate(buf: seq<byte>, m: nat): int
  {
    match StrStr(buf, m, DATE)
    case None => 0
    case Some(i) => Int64At(buf, i + 7)
  }

  /**
   * The message object whose "message":{ match is at `m`; nothing when its
   * message_id or chat id key is missing (the update is skipped).
   */
  function MessageAt(buf: seq<byte>, m: nat): (r: Option<TelegramMessage>)
    ensures r.Some? ==> StrStr(buf, m, MESSAGE_ID).Some? && StrStr(buf, m, CHAT_ID).Some?
    ensures r.Some? && 0 < |r.value.text| ==> WellFormed(r.value)
  {
    match StrStr(buf, m, MESSAGE_ID)
    case None => None
    case Some(mi) =>
      match StrStr(buf, m, CHAT_ID)
      case None => None
      case Some(ci) =>
        Some(Fields(buf, m, mi, ci))
  }

  /** The fields of a message object whose message_id key is at mi and whose chat id key is at ci. */
  function Fields(buf: seq<byte>, m: nat, mi: nat, ci: nat): (msg: TelegramMessage)
    ensures 0 < |msg.text| ==> WellFormed(msg)
  {
    TelegramMessage(Int64At(buf, mi + 13), Int64At(buf, ci + 13),
                    MessageUsername(buf, m), MessageText(buf, m), MessageDate(buf, m))
  }

  /** The text part of the loop body: find the key, then read the value after it. */
  method ReadText(buf: seq<byte>, m: nat) returns (text: seq<byte>)
    ensures text == MessageText(buf, m)
  {
    text := [];
    var ti := StrStr(buf, m, TEXT);
    if ti.Some? {
      text := ReadTextValue(buf, ti.value + 8);
    }
  }

  /** Scan to the end quote, cap, clean up. */
  method ReadTextValue(buf: seq<byte>, tp: nat) returns (text: seq<byte>)
    ensures text == TextValue(buf, tp)
  {
    text := [];
    var e, closed := ScanTextEnd(buf, tp);
    if closed {
      text := DecodeText(Capped(buf[tp..e]));
    }
  }

  /** The fields of one message as the loop body reads them. */
  method ReadMessage(buf: seq<byte>, m: nat) returns (r: Option<TelegramMessage>)
    ensures r == MessageAt(buf, m)
  {
    var mi := StrStr(buf, m, MESSAGE_ID);
    if mi.None? {
      return None;
    }
    var ci := StrStr(buf, m, CHAT_ID);
    if ci.None? {
      return None;
    }
    var msg := ReadFields(buf, m, mi.value, ci.value);
    r := Some(msg);
  }

  /** The fields after both ids were found at mi and ci. */
  method ReadFields(buf: seq<byte>, m: nat, mi: nat, ci: nat) returns (msg: TelegramMessage)
    ensures msg == Fields(buf, m, mi, ci)
  {
    var messageId := ParseInt64(buf, mi + 13);
    var chatId := ParseInt64(buf, ci + 13);
    var username := MessageUsername(buf, m);
    var text := ReadText(buf, m);
    var timestamp := ReadDate(buf, m);
    msg := TelegramMessage(messageId, chatId, username, text, timestamp);
  }

  /** The date part of the loop body: parse_int64 after the key, 0 without one. */
  method ReadDate(buf: seq<byte>, m: nat) returns (timestamp: int)
    ensures timestamp == MessageDate(buf, m)
  {
    timestamp := 0;
    var di := StrStr(buf, m, DATE);
    if di.Some? {
      timestamp := ParseInt64(buf, di.value + 7);
    }
  }

  // ---------------------------------------------------------------------
  // getUpdates
  // ---------------------------------------------------------------------

  /** A message is stored only when its decoded text is not empty. */
  function Stored(ib: Inbox, msg: TelegramMessage): Inbox
  {
    if |msg.text| > 0 then ib.(messages := ib.messages + [msg]) else ib
  }

  /**
   * How one pass of the update loop ends: the loop is finished, it resumes
   * at a later position, or search_pos was left NULL (an update without a
   * message object and without a later '}').
   */
  datatype Step = Finished(ib: Inbox) | Resume(at: nat, ib: Inbox) | NullResume(ib: Inbox)

  /**
   * One pass of the update loop from `sp`, run only while fewer than 15
   * messages are stored: the update_id met raises lastUpdateId, and the
   * rest of the pass is MessagePart, confined to the text before the next
   * update_id key.
   */
  function NextUpdate(buf: seq<byte>, sp: nat, ib: Inbox): (s: Step)
    ensures s.Resume? ==> sp < s.at <= |buf|
    ensures ib.messages <= s.ib.messages && ib.lastUpdateId <= s.ib.lastUpdateId
    ensures |ib.messages| >= MAX_TELEGRAM_MESSAGES ==> s == Finished(ib)
    ensures |s.ib.messages| <= |ib.messages| + 1
    ensures |s.ib.messages| > |ib.messages| ==> WellFormed(s.ib.messages[|ib.messages|])
  {
    if |ib.messages| >= MAX_TELEGRAM_MESSAGES then Finished(ib)
    else match StrStr(buf, sp, UPDATE_ID)
      case None => Finished(ib)
      case Some(u) =>
        MessagePart(buf, u + 12, StrStr(buf, u + 12, UPDATE_ID),
                    ib.(lastUpdateId := Max(ib.lastUpdateId, Int64At(buf, u + 12))))
  }

  /** A pass leaves lastUpdateId alone or sets it to an update_id found at or after sp. */
  lemma NextUpdateMeetsId(buf: seq<byte>, sp: nat, ib: Inbox)
    ensures var s := NextUpdate(buf, sp, ib);
            s.ib.lastUpdateId == ib.lastUpdateId
            || exists u :: sp <= u && StartsAt(buf, u, UPDATE_ID) && s.ib.lastUpdateId == Int64At(buf, u + 12)
  {
    if |ib.messages| < MAX_TELEGRAM_MESSAGES && StrStr(buf, sp, UPDATE_ID).Some? {
      var u := StrStr(buf, sp, UPDATE_ID).value;
      assert sp <= u && StartsAt(buf, u, UPDATE_ID);
    }
  }

  /**
   * The rest of a pass, after the update_id at p - 12, where `next` is the
   * next update_id key: an update without a message object resumes after
   * the next '}'; one whose message lacks an id resumes at p; any other
   * resumes one byte past its "message":{ match, having stored the message
   * when its text is not empty. A "message":{ match or a '}' past `next`
   * belongs to a later update, so the pass resumes at `next` instead.
   */
  function MessagePart(buf: seq<byte>, p: nat, next: Option<nat>, seen: Inbox): (s: Step)
    requires p <= |buf| && (next.Some? ==> p <= next.value <= |buf|)
    ensures s.Resume? ==> p <= s.at <= |buf| && (next.Some? ==> s.at <= next.value)
    ensures s.NullResume? ==> next.None?
    ensures !s.Finished?
    ensures seen.messages <= s.ib.messages && s.ib.lastUpdateId == seen.lastUpdateId
    ensures |s.ib.messages| <= |seen.messages| + 1
    ensures |s.ib.messages| > |seen.messages| ==> WellFormed(s.ib.messages[|seen.messages|])
  {
    match StrStr(buf, p, MESSAGE)
    case None =>
      (match StrStr(buf, p, CLOSE_BRACE)
       case None => if next.Some? then Resume(next.value, seen) else NullResume(seen)
       case Some(c) => Resume(if next.Some? then Min(c + 1, next.value) else c + 1, seen))
    case Some(m) =>
      if next.Some? && next.value <= m then Resume(next.value, seen)
      else
        (match MessageAt(buf, m)
         case None => Resume(p, seen)
         case Some(msg) => Resume(m + 1, Stored(seen, msg)))
  }

  /**
   * One pass of the loop as written: the message search and the '}' search
   * run on past the next update_id key.
   */
  function NextUpdateAsWritten(buf: seq<byte>, sp: nat, ib: Inbox): (s: Step)
    ensures s.Resume? ==> sp < s.at <= |buf|
    ensures ib.messages <= s.ib.messages && ib.lastUpdateId <= s.ib.lastUpdateId
    ensures |ib.messages| >= MAX_TELEGRAM_MESSAGES ==> s == Finished(ib)
    ensures |s.ib.messages| <= |ib.messages| + 1
    ensures |s.ib.messages| > |ib.messages| ==> WellFormed(s.ib.messages[|ib.messages|])
  {
    if |ib.messages| >= MAX_TELEGRAM_MESSAGES then Finished(ib)
    else match StrStr(buf, sp, UPDATE_ID)
      case None => Finished(ib)
      case Some(u) =>
        MessagePart(buf, u + 12, None, ib.(lastUpdateId := Max(ib.lastUpdateId, Int64At(buf, u + 12))))
  }

  /**
   * The getUpdates loop from `sp`, with a NULL search_pos ending the scan.
   * Messages are only ever appended, at most 15 are held, and lastUpdateId
   * only grows, to an update_id met on the way.
   */
  function Updates(buf: seq<byte>, sp: nat, ib: Inbox): (r: Inbox)
    ensures ib.messages <= r.messages && ib.lastUpdateId <= r.lastUpdateId
    ensures |ib.messages| <= MAX_TELEGRAM_MESSAGES ==> |r.messages| <= MAX_TELEGRAM_MESSAGES
    ensures |ib.messages| >= MAX_TELEGRAM_MESSAGES ==> r == ib
    ensures forall i :: |ib.messages| <= i < |r.messages| ==> WellFormed(r.messages[i])
    decreases |buf| - sp
  {
    var s := NextUpdate(buf, sp, ib);
    if !s.Resume? then s.ib
    else
      var r := Updates(buf, s.at, s.ib);
      GrownWellFormed(ib.messages, s.ib.messages, r.messages);
      r
  }

  /** Messages appended in two rounds, each well formed, are all well formed. */
  lemma GrownWellFormed(a: seq<TelegramMessage>, b: seq<TelegramMessage>, c: seq<TelegramMessage>)
    requires a <= b <= c && |b| <= |a| + 1
    requires |b| > |a| ==> WellFormed(b[|a|])
    requires forall i :: |b| <= i < |c| ==> WellFormed(c[i])
    ensures forall i :: |a| <= i < |c| ==> WellFormed(c[i])
  {
    if |b| > |a| {
      assert c[|a|] == b[|a|];
    }
  }

  /**
   * The loop of lines 432-553 as written: after a NULL search_pos the next
   * pass hands NULL to strstr, which is undefined (None here). Whenever it
   * ends normally it keeps the same bounds as the corrected scan.
   */
  function UpdatesAsWritten(buf: seq<byte>, sp: nat, ib: Inbox): (r: Option<Inbox>)
    ensures r.Some? ==> ib.messages <= r.value.messages && ib.lastUpdateId <= r.value.lastUpdateId
    ensures r.Some? && |ib.messages| <= MAX_TELEGRAM_MESSAGES ==> |r.value.messages| <= MAX_TELEGRAM_MESSAGES
    ensures |ib.messages| >= MAX_TELEGRAM_MESSAGES ==> r == Some(ib)
    ensures r.Some? ==> forall i :: |ib.messages| <= i < |r.value.messages| ==> WellFormed(r.value.messages[i])
    decreases |buf| - sp
  {
    match NextUpdateAsWritten(buf, sp, ib)
    case Finished(r) => Some(r)
    case NullResume(_) => None
    case Resume(at, next) =>
      var r := UpdatesAsWritten(buf, at, next);
      if r.Some? then GrownWellFormed(ib.messages, next.messages, r.value.messages); r
      else r
  }

  /**
   * An update whose "message":{ match lies past the next update_id key v
   * (and no key follows the message): the loop as written stores that
   * message under the update before v and resumes past v, so lastUpdateId
   * never takes v's id; the corrected scan counts v.
   */
  lemma UpdatesAsWrittenSkipsUpdateId(buf: seq<byte>, sp: nat, ib: Inbox, u: nat, v: nat, m: nat)
    requires |ib.messages| < MAX_TELEGRAM_MESSAGES
    requires StrStr(buf, sp, UPDATE_ID) == Some(u) && StrStr(buf, u + 12, UPDATE_ID) == Some(v)
    requires StrStr(buf, u + 12, MESSAGE) == Some(m) && v < m
    requires MessageAt(buf, m).Some? && StrStr(buf, m + 1, UPDATE_ID).None?
    ensures var seen := ib.(lastUpdateId := Max(ib.lastUpdateId, Int64At(buf, u + 12)));
            UpdatesAsWritten(buf, sp, ib) == Some(Stored(seen, MessageAt(buf, m).value))
    ensures Updates(buf, sp, ib).lastUpdateId >= Int64At(buf, v + 12)
  {
    AsWrittenStoresFirst(buf, sp, ib, u, m);
    CountsNextKey(buf, sp, ib, u, v, m);
  }

  /** The scan as written takes the message after the first key and then finds no key left. */
  lemma AsWrittenStoresFirst(buf: seq<byte>, sp: nat, ib: Inbox, u: nat, m: nat)
    requires |ib.messages| < MAX_TELEGRAM_MESSAGES
    requires StrStr(buf, sp, UPDATE_ID) == Some(u) && StrStr(buf, u + 12, MESSAGE) == Some(m)
    requires MessageAt(buf, m).Some? && StrStr(buf, m + 1, UPDATE_ID).None?
    ensures var seen := ib.(lastUpdateId := Max(ib.lastUpdateId, Int64At(buf, u + 12)));
            UpdatesAsWritten(buf, sp, ib) == Some(Stored(seen, MessageAt(buf, m).value))
  {
    var seen := ib.(lastUpdateId := Max(ib.lastUpdateId, Int64At(buf, u + 12)));
    var stored := Stored(seen, MessageAt(buf, m).value);
    AsWrittenFirstPass(buf, sp, ib, u, m);
    AsWrittenNoKeyLeft(buf, m + 1, stored);
  }

  /** The first pass as written: the message after the key is stored, and the scan resumes past it. */
  lemma AsWrittenFirstPass(buf: seq<byte>, sp: nat, ib: Inbox, u: nat, m: nat)
    requires |ib.messages| < MAX_TELEGRAM_MESSAGES
    requires StrStr(buf, sp, UPDATE_ID) == Some(u) && StrStr(buf, u + 12, MESSAGE) == Some(m)
    requires MessageAt(buf, m).Some?
    ensures var seen := ib.(lastUpdateId := Max(ib.lastUpdateId, Int64At(buf, u + 12)));
            NextUpdateAsWritten(buf, sp, ib) == Resume(m + 1, Stored(seen, MessageAt(buf, m).value))
  {
    var seen := ib.(lastUpdateId := Max(ib.lastUpdateId, Int64At(buf, u + 12)));
    assert MessagePart(buf, u + 12, None, seen) == Resume(m + 1, Stored(seen, MessageAt(buf, m).value));
  }

  /** With no key left, the scan as written ends where it is. */
  lemma AsWrittenNoKeyLeft(buf: seq<byte>, sp: nat, ib: Inbox)
    requires StrStr(buf, sp, UPDATE_ID).None?
    ensures UpdatesAsWritten(buf, sp, ib) == Some(ib)
  {
  }

  /** The corrected pass stops at the next key v, and the pass after it counts v. */
  lemma CountsNextKey(buf: seq<byte>, sp: nat, ib: Inbox, u: nat, v: nat, m: nat)
    requires |ib.messages| < MAX_TELEGRAM_MESSAGES
    requires StrStr(buf, sp, UPDATE_ID) == Some(u) && StrStr(buf, u + 12, UPDATE_ID) == Some(v)
    requires StrStr(buf, u + 12, MESSAGE) == Some(m) && v < m
    ensures Updates(buf, sp, ib).lastUpdateId >= Int64At(buf, v + 12)
  {
    var seen := ib.(lastUpdateId := Max(ib.lastUpdateId, Int64At(buf, u + 12)));
    assert MessagePart(buf, u + 12, Some(v), seen) == Resume(v, seen);
    assert NextUpdate(buf, sp, ib) == Resume(v, seen);
    assert Updates(buf, sp, ib) == Updates(buf, v, seen);
    assert StrStr(buf, v, UPDATE_ID) == Some(v);
    FirstUpdateCounted(buf, v, seen, v);
  }

  /**
   * A result array cut off after `"update_id":5` sends the loop as written
   * into strstr(NULL, ...); the corrected scan records update 5 and stops.
   */
  lemma UpdatesAsWrittenDereferencesNull()
    ensures var buf := UPDATE_ID + [53];
            UpdatesAsWritten(buf, 0, Inbox([], 0)).None?
            && Updates(buf, 0, Inbox([], 0)) == Inbox([], 5)
  {
    var buf := UPDATE_ID + [53];
    assert StartsAt(buf, 0, UPDATE_ID);
    assert StrStr(buf, 0, UPDATE_ID) == Some(0);
    assert SkipBlanks(buf, 12) == 12;
    assert Digits64(buf, 13, 5) == 5;
    assert Int64At(buf, 12) == 5;
    assert StrStr(buf, 13, MESSAGE) == None;
    assert StrStr(buf, 12, MESSAGE) == None;
    assert StrStr(buf, 13, CLOSE_BRACE) == None;
    assert StrStr(buf, 12, CLOSE_BRACE) == None;
    assert NextUpdate(buf, 0, Inbox([], 0)) == NullResume(Inbox([], 5));
  }

  /** lastUpdateId only ever takes the value of an update_id in the scanned text. */
  lemma {:induction false} LastUpdateIdIsMet(buf: seq<byte>, sp: nat, ib: Inbox)
    ensures var r := Updates(buf, sp, ib);
            r.lastUpdateId == ib.lastUpdateId
            || exists u :: sp <= u && StartsAt(buf, u, UPDATE_ID) && r.lastUpdateId == Int64At(buf, u + 12)
    decreases |buf| - sp
  {
    var s := NextUpdate(buf, sp, ib);
    NextUpdateMeetsId(buf, sp, ib);
    if s.Resume? {
      LastUpdateIdIsMet(buf, s.at, s.ib);
    }
  }

  /** The first update_id from sp counts, whether or not its update carries a stored message. */
  lemma FirstUpdateCounted(buf: seq<byte>, sp: nat, ib: Inbox, u: nat)
    requires |ib.messages| < MAX_TELEGRAM_MESSAGES && StrStr(buf, sp, UPDATE_ID) == Some(u)
    ensures Updates(buf, sp, ib).lastUpdateId >= Int64At(buf, u + 12)
    ensures Updates(buf, sp, ib).lastUpdateId >= ib.lastUpdateId
  {
    var s := NextUpdate(buf, sp, ib);
    assert s.ib.lastUpdateId >= Int64At(buf, u + 12);
  }

  /** The C string from `sp` runs on at least to `v`: no NUL in between. */
  predicate Reaches(buf: seq<byte>, sp: nat, v: nat)
  {
    forall k :: sp <= k < v ==> k < |buf| && buf[k] != 0
  }

  /** strstr from pos finds an occurrence of pat at or before any occurrence the string reaches. */
  lemma FoundByStrStr(buf: seq<byte>, pos: nat, pat: seq<byte>, v: nat)
    requires |pat| > 0 && NoNul(pat) && StartsAt(buf, v, pat) && pos <= v && Reaches(buf, pos, v)
    ensures StrStr(buf, pos, pat).Some? && StrStr(buf, pos, pat).value <= v
  {
    assert buf[v] == buf[v..v + |pat|][0] == pat[0] != 0;
    if StrStr(buf, pos, pat).None? {
      assert false;
    }
  }

  /** Two "update_id": keys never overlap. */
  lemma KeysApart(buf: seq<byte>, u: nat, k: nat)
    requires StartsAt(buf, u, UPDATE_ID) && u < k < u + 12
    ensures !StartsAt(buf, k, UPDATE_ID)
  {
    if k - u != 10 {
      assert buf[k] == buf[u..u + 12][k - u] != 34;
      if k + 12 <= |buf| {
        assert buf[k..k + 12][0] != UPDATE_ID[0];
      }
    } else {
      assert buf[k + 1] == buf[u..u + 12][11] == 58;
      if k + 12 <= |buf| {
        assert buf[k..k + 12][1] != UPDATE_ID[1];
      }
    }
  }

  /**
   * Every update_id key the scan's string reaches counts: unless the scan
   * stopped at 15 stored messages, lastUpdateId is at least the id after
   * each "update_id": key from sp on.
   */
  lemma {:induction false} EveryUpdateIdCounted(buf: seq<byte>, sp: nat, ib: Inbox, v: nat)
    requires StartsAt(buf, v, UPDATE_ID) && sp <= v && Reaches(buf, sp, v)
    requires |Updates(buf, sp, ib).messages| < MAX_TELEGRAM_MESSAGES
    ensures Updates(buf, sp, ib).lastUpdateId >= Int64At(buf, v + 12)
    decreases |buf| - sp
  {
    FoundByStrStr(buf, sp, UPDATE_ID, v);
    var u := StrStr(buf, sp, UPDATE_ID).value;
    assert |ib.messages| <= |Updates(buf, sp, ib).messages|;
    if v == u {
      FirstUpdateCounted(buf, sp, ib, u);
    } else {
      if v < u + 12 {
        KeysApart(buf, u, v);
      }
      FoundByStrStr(buf, u + 12, UPDATE_ID, v);
      var s := NextUpdate(buf, sp, ib);
      ResumesBefore(buf, sp, ib, u, v);
      UpdatesResume(buf, sp, ib);
      EveryUpdateIdCounted(buf, s.at, s.ib, v);
    }
  }

  /** After a pass that resumes, the scan is the scan from the resume point. */
  lemma UpdatesResume(buf: seq<byte>, sp: nat, ib: Inbox)
    requires NextUpdate(buf, sp, ib).Resume?
    ensures Updates(buf, sp, ib) == Updates(buf, NextUpdate(buf, sp, ib).at, NextUpdate(buf, sp, ib).ib)
  {
  }

  /** A pass whose update is followed by another key at or before v resumes at or before v. */
  lemma ResumesBefore(buf: seq<byte>, sp: nat, ib: Inbox, u: nat, v: nat)
    requires |ib.messages| < MAX_TELEGRAM_MESSAGES && StrStr(buf, sp, UPDATE_ID) == Some(u)
    requires StrStr(buf, u + 12, UPDATE_ID).Some? && StrStr(buf, u + 12, UPDATE_ID).value <= v
    ensures NextUpdate(buf, sp, ib).Resume? && NextUpdate(buf, sp, ib).at <= v
  {
  }

  // ---------------------------------------------------------------------
  // parse_telegram_response and its dispatch
  // ---------------------------------------------------------------------

  /**
   * parse_get_updates_response on the body starting at `j`, with the
   * corrected update scan (Updates) in place of the loop as written.
   */
  function GetUpdatesParsed(d: TelegramData, buf: seq<byte>, j: nat): (r: TelegramData)
    ensures r.state == Success && r.errorMessage == d.errorMessage && r.pollingActive == d.pollingActive
    ensures d.messages <= r.messages && d.lastUpdateId <= r.lastUpdateId
    ensures |d.messages| <= MAX_TELEGRAM_MESSAGES ==> |r.messages| <= MAX_TELEGRAM_MESSAGES
    ensures forall i :: |d.messages| <= i < |r.messages| ==> WellFormed(r.messages[i])
  {
    match StrStr(buf, j, RESULT)
    case None => d.(state := Success)
    case Some(k) =>
      var ib := Updates(buf, k + 10, Inbox(d.messages, d.lastUpdateId));
      d.(messages := ib.messages, lastUpdateId := ib.lastUpdateId, state := Success)
  }

  /** An "ok":false body: the description up to its closing quote, at most 127 bytes, or "API error". */
  function ErrorParsed(d: TelegramData, buf: seq<byte>, j: nat): (r: TelegramData)
    ensures r.state == Error && r.messages == d.messages && r.lastUpdateId == d.lastUpdateId
    ensures r.pollingActive == d.pollingActive
    ensures |r.errorMessage| <= Max(|d.errorMessage|, ERROR_MAX)
    ensures StrStr(buf, j, DESCRIPTION).None? ==> r.errorMessage == API_ERROR
    ensures StrStr(buf, j, DESCRIPTION).Some?
            && QuotedField(buf, StrStr(buf, j, DESCRIPTION).value + 15, ERROR_MAX).None? ==>
              r.errorMessage == d.errorMessage
  {
    match StrStr(buf, j, DESCRIPTION)
    case None => d.(state := Error, errorMessage := API_ERROR)
    case Some(k) =>
      (match QuotedField(buf, k + 15, ERROR_MAX)
       case None => d.(state := Error)
       case Some(v) => d.(state := Error, errorMessage := v))
  }

  /**
   * parse_telegram_response: the body after the header block; an "ok":false
   * body is an error carrying the description (or "API error"); otherwise
   * the parser of the request that was sent.
   */
  function Parsed(d: TelegramData, rt: RequestType, buf: seq<byte>): (r: TelegramData)
    ensures r.state == Success || r.state == Error
    ensures r.pollingActive == d.pollingActive
    ensures BodyStart(buf).None? ==> r == d.(state := Error, errorMessage := INVALID_RESPONSE)
    ensures r.state == Success ==> r.errorMessage == d.errorMessage
    ensures r.state == Error ==> r.messages == d.messages && r.lastUpdateId == d.lastUpdateId
    ensures rt == SendMessageRequest ==> r.messages == d.messages && r.lastUpdateId == d.lastUpdateId
    ensures d.messages <= r.messages && d.lastUpdateId <= r.lastUpdateId
    ensures |d.messages| <= MAX_TELEGRAM_MESSAGES ==> |r.messages| <= MAX_TELEGRAM_MESSAGES
    ensures forall i :: |d.messages| <= i < |r.messages| ==> WellFormed(r.messages[i])
    ensures |r.errorMessage| <= Max(|d.errorMessage|, ERROR_MAX)
    ensures BodyStart(buf).Some? && StrStr(buf, BodyStart(buf).value, OK_FALSE).Some? ==> r.state == Error
    ensures BodyStart(buf).Some? && StrStr(buf, BodyStart(buf).value, OK_FALSE).None? ==>
              (rt == GetUpdatesRequest ==> r.state == Success)
              && (rt == SendMessageRequest ==>
                    (r.state == Success <==> StrStr(buf, BodyStart(buf).value, OK_TRUE).Some?)
                    && (r.state == Error ==> r.errorMessage == SEND_FAILED))
  {
    match BodyStart(buf)
    case None => d.(state := Error, errorMessage := INVALID_RESPONSE)
    case Some(j) =>
      if StrStr(buf, j, OK_FALSE).Some? then ErrorParsed(d, buf, j)
      else if rt == GetUpdatesRequest then GetUpdatesParsed(d, buf, j)
      else if StrStr(buf, j, OK_TRUE).Some? then d.(state := Success)
      else d.(state := Error, errorMessage := SEND_FAILED)
  }

  /** An error reply carries its description, cut to the 127 characters error_message holds. */
  lemma ErrorReplyCarriesDescription(d: TelegramData, rt: RequestType, buf: seq<byte>, j: nat, k: nat, v: seq<byte>)
    requires BodyStart(buf) == Some(j) && StrStr(buf, j, OK_FALSE).Some?
    requires StrStr(buf, j, DESCRIPTION) == Some(k)
    requires NoNul(v) && forall i :: 0 <= i < |v| ==> v[i] != QUOTE
    requires StartsAt(buf, k + 15, v + [QUOTE])
    ensures Parsed(d, rt, buf).state == Error
    ensures Parsed(d, rt, buf).errorMessage == v[..Min(|v|, ERROR_MAX)]
  {
    assert Parsed(d, rt, buf) == ErrorParsed(d, buf, j);
    ErrorParsedCarriesDescription(d, buf, j, k, v);
  }

  /** The same for the error parser alone. */
  lemma ErrorParsedCarriesDescription(d: TelegramData, buf: seq<byte>, j: nat, k: nat, v: seq<byte>)
    requires StrStr(buf, j, DESCRIPTION) == Some(k)
    requires NoNul(v) && forall i :: 0 <= i < |v| ==> v[i] != QUOTE
    requires StartsAt(buf, k + 15, v + [QUOTE])
    ensures ErrorParsed(d, buf, j).errorMessage == v[..Min(|v|, ERROR_MAX)]
  {
    QuotedValue(buf, k + 15, v, ERROR_MAX);
  }


  /**
   * The rest of one pass of the update loop, after the update_id at p - 12:
   * bounded by the next key in the corrected loop, unbounded (`next` is
   * None) in the loop as written.
   */
  method MessageStep(buf: seq<byte>, p: nat, next: Option<nat>, seen: Inbox) returns (s: Step)
    requires p <= |buf| && (next.Some? ==> p <= next.value <= |buf|)
    ensures s == MessagePart(buf, p, next, seen)
  {
    var m := StrStr(buf, p, MESSAGE);
    if m.None? {
      var c := StrStr(buf, p, CLOSE_BRACE);
      if c.None? {
        s := if next.Some? then Resume(next.value, seen) else NullResume(seen);
      } else {
        s := Resume(if next.Some? then Min(c.value + 1, next.value) else c.value + 1, seen);
      }
    } else if next.Some? && next.value <= m.value {
      s := Resume(next.value, seen);
    } else {
      var msg := ReadMessage(buf, m.value);
      s := if msg.None? then Resume(p, seen) else Resume(m.value + 1, Stored(seen, msg.value));
    }
  }

  /**
   * The update loop of parse_get_updates_response as written (lines
   * 432-553): the message and '}' searches run to the end of the text, and
   * a NULL search_pos left by a pass is reported as None, since the next
   * strstr would read through it.
   */
  method ScanUpdatesAsWritten(buf: seq<byte>, start: nat, seen: Inbox) returns (r: Option<Inbox>)
    ensures r == UpdatesAsWritten(buf, start, seen)
  {
    var sp := start;
    var ib := seen;
    while |ib.messages| < MAX_TELEGRAM_MESSAGES
      invariant UpdatesAsWritten(buf, sp, ib) == UpdatesAsWritten(buf, start, seen)
      decreases |buf| - sp
    {
      var s := UpdateStepAsWritten(buf, sp, ib);
      if s.NullResume? {
        return None;
      }
      if s.Finished? {
        return Some(s.ib);
      }
      sp, ib := s.at, s.ib;
    }
    r := Some(ib);
  }

  /** One pass of the loop as written: no bound on the message and '}' searches. */
  method UpdateStepAsWritten(buf: seq<byte>, sp: nat, ib: Inbox) returns (s: Step)
    requires |ib.messages| < MAX_TELEGRAM_MESSAGES
    ensures s == NextUpdateAsWritten(buf, sp, ib)
  {
    var u := StrStr(buf, sp, UPDATE_ID);
    if u.None? {
      return Finished(ib);
    }
    var id := ParseInt64(buf, u.value + 12);
    s := MessageStep(buf, u.value + 12, None, ib.(lastUpdateId := if id > ib.lastUpdateId then id else ib.lastUpdateId));
  }

  /**
   * The corrected update loop (Updates): each pass stops its searches at the
   * next update_id key. It runs while fewer than 15 messages are held, and a
   * NULL search_pos ends it. The client parses getUpdates replies with it.
   */
  method ScanUpdates(buf: seq<byte>, start: nat, seen: Inbox) returns (ib: Inbox)
    ensures ib == Updates(buf, start, seen)
  {
    var sp := start;
    ib := seen;
    while |ib.messages| < MAX_TELEGRAM_MESSAGES
      invariant Updates(buf, sp, ib) == Updates(buf, start, seen)
      decreases |buf| - sp
    {
      var s := UpdateStep(buf, sp, ib);
      if !s.Resume? {
        ib := s.ib;
        break;
      }
      sp, ib := s.at, s.ib;
    }
  }

  /**
   * One pass of the corrected loop: strstr for the update_id, parse_int64,
   * a strstr for the next update_id key that bounds the pass, then the
   * message part.
   */
  method UpdateStep(buf: seq<byte>, sp: nat, ib: Inbox) returns (s: Step)
    requires |ib.messages| < MAX_TELEGRAM_MESSAGES
    ensures s == NextUpdate(buf, sp, ib)
  {
    var u := StrStr(buf, sp, UPDATE_ID);
    if u.None? {
      return Finished(ib);
    }
    var id := ParseInt64(buf, u.value + 12);
    var next := StrStr(buf, u.value + 12, UPDATE_ID);
    s := MessageStep(buf, u.value + 12, next, ib.(lastUpdateId := if id > ib.lastUpdateId then id else ib.lastUpdateId));
  }

  /** parse_telegram_response, calling the corrected update loop for a getUpdates reply. */
  method ParseResponse(d: TelegramData, rt: RequestType, buf: seq<byte>) returns (r: TelegramData)
    ensures r == Parsed(d, rt, buf)
  {
    var j := BodyStart(buf);
    if j.None? {
      return d.(state := Error, errorMessage := INVALID_RESPONSE);
    }
    if StrStr(buf, j.value, OK_FALSE).Some? {
      r := ErrorParsed(d, buf, j.value);
    } else if rt == GetUpdatesRequest {
      r := ParseUpdates(d, buf, j.value);
    } else if StrStr(buf, j.value, OK_TRUE).Some? {
      r := d.(state := Success);
    } else {
      r := d.(state := Error, errorMessage := SEND_FAILED);
    }
  }

  /** parse_get_updates_response with the corrected update loop after the "result":[ key. */
  method ParseUpdates(d: TelegramData, buf: seq<byte>, j: nat) returns (r: TelegramData)
    ensures r == GetUpdatesParsed(d, buf, j)
  {
    var res := StrStr(buf, j, RESULT);
    if res.None? {
      return d.(state := Success);
    }
    var ib := ScanUpdates(buf, res.value + 10, Inbox(d.messages, d.lastUpdateId));
    r := d.(messages := ib.messages, lastUpdateId := ib.lastUpdateId, state := Success);
  }
}
