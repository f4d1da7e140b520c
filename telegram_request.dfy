/**
 * The request side of src/telegram_api.c: url_encode (form encoding of the
 * message text, with the unreserved characters of section 2.3 of RFC 3986
 * kept, space written as '+' and every other byte as %XX in upper-case hex)
 * and the HTTP requests telegram_send_message and telegram_poll_updates
 * format with snprintf into fixed arrays.
 */
module TelegramRequest {
  import opened Bytes
  import opened TextScan
  import opened TelegramParse

  /** g_request_buffer is char[1024]. */
  const REQUEST_SIZE: nat := 1024
  /** post_body is char[512]. */
  const BODY_SIZE: nat := 512
  /** encoded_text is char[TELEGRAM_MESSAGE_TEXT_MAX * 3 + 1]. */
  const ENCODED_SIZE: nat := TEXT_MAX * 3 + 1
  /** g_bot_token is char[128]; strncpy copies at most 127 bytes into it. */
  const TOKEN_MAX: nat := 127

  const PLUS: byte := 43
  const PERCENT: byte := 37
  const SPACE: byte := 32

  /** 0123456789ABCDEF */
  const HEX: seq<byte> := [48, 49, 50, 51, 52, 53, 54, 55, 56, 57, 65, 66, 67, 68, 69, 70]
  /** api.telegram.org */
  const HOST: seq<byte> := [97, 112, 105, 46, 116, 101, 108, 101, 103, 114, 97, 109, 46, 111, 114, 103]
  /** GET /bot */
  const GET_BOT: seq<byte> := [71, 69, 84, 32, 47, 98, 111, 116]
  /** /getUpdates?offset= */
  const OFFSET_KEY: seq<byte> := [47, 103, 101, 116, 85, 112, 100, 97, 116, 101, 115, 63, 111, 102, 102, 115, 101, 116, 61]
  /** &timeout=5 HTTP/1.1\r\nHost: (and a space) */
  const POLL_TAIL: seq<byte> := [38, 116, 105, 109, 101, 111, 117, 116, 61, 53, 32, 72, 84, 84, 80, 47, 49, 46, 49, 13, 10, 72, 111, 115, 116, 58, 32]
  /** \r\nConnection: close\r\n\r\n */
  const CLOSE_TAIL: seq<byte> := [13, 10, 67, 111, 110, 110, 101, 99, 116, 105, 111, 110, 58, 32, 99, 108, 111, 115, 101, 13, 10, 13, 10]
  /** POST /bot */
  const POST_BOT: seq<byte> := [80, 79, 83, 84, 32, 47, 98, 111, 116]
  /** /sendMessage HTTP/1.1\r\nHost: (and a space) */
  const SEND_LINE: seq<byte> := [47, 115, 101, 110, 100, 77, 101, 115, 115, 97, 103, 101, 32, 72, 84, 84, 80, 47, 49, 46, 49, 13, 10, 72, 111, 115, 116, 58, 32]
  /** \r\nContent-Type: application/x-www-form-urlencoded\r\nContent-Length: (and a space) */
  const FORM_HEADERS: seq<byte> := [13, 10, 67, 111, 110, 116, 101, 110, 116, 45, 84, 121, 112, 101, 58, 32, 97, 112, 112, 108, 105, 99, 97, 116, 105, 111, 110, 47, 120, 45, 119, 119, 119, 45, 102, 111, 114, 109, 45, 117, 114, 108, 101, 110, 99, 111, 100, 101, 100, 13, 10, 67, 111, 110, 116, 101, 110, 116, 45, 76, 101, 110, 103, 116, 104, 58, 32]
  /** chat_id= */
  const CHAT_KEY: seq<byte> := [99, 104, 97, 116, 95, 105, 100, 61]
  /** &text= */
  const TEXT_KEY: seq<byte> := [38, 116, 101, 120, 116, 61]

  // ---------------------------------------------------------------------
  // url_encode
  // ---------------------------------------------------------------------

  /** A-Z, a-z, 0-9 and - _ . ~ */
  predicate Unreserved(c: byte)
  {
    65 <= c <= 90 || 97 <= c <= 122 || 48 <= c <= 57 || c == 45 || c == 95 || c == 46 || c == 126
  }

  /** What url_encode writes for one input byte. */
  function EncodeByte(c: byte): (r: seq<byte>)
    ensures 1 <= |r| <= 3 && NoNul(r)
  {
    if Unreserved(c) then [c]
    else if c == SPACE then [PLUS]
    else [PERCENT, HEX[c as int / 16], HEX[c as int % 16]]
  }

  /** The encoding of a whole byte string. */
  function Encoded(s: seq<byte>): (r: seq<byte>)
    ensures |s| <= |r| <= 3 * |s| && NoNul(r)
  {
    if s == [] then [] else EncodeByte(s[0]) + Encoded(s[1..])
  }

  lemma {:induction false} EncodedAppend(a: seq<byte>, b: seq<byte>)
    ensures Encoded(a + b) == Encoded(a) + Encoded(b)
    decreases |a|
  {
    if a != [] {
      assert (a + b)[0] == a[0];
      assert (a + b)[1..] == a[1..] + b;
      EncodedAppend(a[1..], b);
      assert Encoded(a + b) == EncodeByte(a[0]) + (Encoded(a[1..]) + Encoded(b));
    } else {
      assert a + b == b;
    }
  }

  /**
   * How many input bytes the url_encode loop consumes when it has already
   * written `pos` bytes: it stops at the input's terminator or once `pos`
   * reaches `room` (output_size - 4).
   */
  function Consumed(s: seq<byte>, pos: nat, room: nat): (k: nat)
    ensures k <= |s|
  {
    if s == [] || s[0] == 0 || pos >= room then 0
    else 1 + Consumed(s[1..], pos + |EncodeByte(s[0])|, room)
  }

  /** url_encode(input, output, room + 4) read back as a C string. */
  function UrlEncoded(input: seq<byte>, room: nat): seq<byte>
  {
    Encoded(input[..Consumed(input, 0, room)])
  }

  /** One byte of the loop: a nonzero byte consumed while there is room. */
  lemma ConsumedStep(s: seq<byte>, pos: nat, room: nat)
    requires s != [] && s[0] != 0 && pos < room
    ensures Consumed(s, pos, room) == 1 + Consumed(s[1..], pos + |EncodeByte(s[0])|, room)
  {
  }

  /** The loop's count of consumed bytes, carried over one turn. */
  lemma ConsumedTurn(input: seq<byte>, i: nat, pos: nat, next: nat, room: nat)
    requires i < |input| && input[i] != 0 && pos < room && next == pos + |EncodeByte(input[i])|
    ensures Consumed(input[i..], pos, room) == 1 + Consumed(input[i + 1..], next, room)
  {
    var s := input[i..];
    assert s[0] == input[i] && s[1..] == input[i + 1..];
    ConsumedStep(s, pos, room);
  }

  /** Encoding a consumed prefix one byte further. */
  lemma ConsumedHead(s: seq<byte>, pos: nat, room: nat)
    requires Consumed(s, pos, room) > 0
    ensures var k := Consumed(s, pos, room);
            s[..k] == [s[0]] + s[1..][..k - 1]
            && Encoded(s[..k]) == EncodeByte(s[0]) + Encoded(s[1..][..k - 1])
            && k - 1 == Consumed(s[1..], pos + |EncodeByte(s[0])|, room)
  {
    var k := Consumed(s, pos, room);
    assert s[..k] == [s[0]] + s[1..][..k - 1];
    assert s[..k][1..] == s[1..][..k - 1];
  }

  /** The loop consumes a NUL-free prefix of the input. */
  lemma {:induction false} ConsumedNoNul(s: seq<byte>, pos: nat, room: nat)
    ensures NoNul(s[..Consumed(s, pos, room)])
    decreases |s|
  {
    if Consumed(s, pos, room) > 0 {
      ConsumedNoNul(s[1..], pos + |EncodeByte(s[0])|, room);
      ConsumedHead(s, pos, room);
    }
  }

  /** The loop never writes past room + 2 bytes. */
  lemma {:induction false} ConsumedBound(s: seq<byte>, pos: nat, room: nat)
    ensures pos + |Encoded(s[..Consumed(s, pos, room)])| <= Max(pos, room + 2)
    decreases |s|
  {
    if Consumed(s, pos, room) > 0 {
      ConsumedBound(s[1..], pos + |EncodeByte(s[0])|, room);
      ConsumedHead(s, pos, room);
    }
  }

  /** The loop stops at the end of the input, at its terminator, or once the output reaches room. */
  lemma {:induction false} ConsumedStops(s: seq<byte>, pos: nat, room: nat)
    ensures var k := Consumed(s, pos, room);
            k == |s| || s[k] == 0 || pos + |Encoded(s[..k])| >= room
    decreases |s|
  {
    var k := Consumed(s, pos, room);
    if k > 0 {
      var t, next := s[1..], pos + |EncodeByte(s[0])|;
      ConsumedStops(t, next, room);
      ConsumedHead(s, pos, room);
      if k < |s| && s[k] != 0 {
        assert t[k - 1] == s[k];
        assert next + |Encoded(t[..k - 1])| >= room;
        assert pos + |Encoded(s[..k])| == next + |Encoded(t[..k - 1])|;
      }
    } else if s != [] && s[0] != 0 {
      assert Encoded(s[..k]) == [];
    }
  }

  /** A C string whose encoding fits the room is consumed whole. */
  lemma {:induction false} ConsumedAll(s: seq<byte>, pos: nat, room: nat)
    requires NoNul(s) && pos + |Encoded(s)| <= room
    ensures Consumed(s, pos, room) == |s|
    decreases |s|
  {
    if s != [] {
      ConsumedAll(s[1..], pos + |EncodeByte(s[0])|, room);
    }
  }

  /** The url_encode output bound: with room = output_size - 4, at most output_size - 2 bytes and a terminator. */
  lemma UrlEncodedFits(input: seq<byte>, room: nat)
    ensures |UrlEncoded(input, room)| <= room + 2
    ensures var k := Consumed(input, 0, room);
            k == |input| || input[k] == 0 || |UrlEncoded(input, room)| >= room
  {
    ConsumedBound(input, 0, room);
    ConsumedStops(input, 0, room);
  }

  // ---------------------------------------------------------------------
  // Form decoding, the independent reading of the encoding
  // ---------------------------------------------------------------------

  predicate IsHex(h: byte)
  {
    48 <= h <= 57 || 65 <= h <= 70 || 97 <= h <= 102
  }

  function HexVal(h: byte): (v: nat)
    requires IsHex(h)
    ensures v < 16
  {
    if h <= 57 then h as nat - 48 else if h <= 70 then h as nat - 55 else h as nat - 87
  }

  /** application/x-www-form-urlencoded decoding: '+' is a space, %XX a byte. */
  function FormDecode(t: seq<byte>): seq<byte>
  {
    if t == [] then []
    else if t[0] == PLUS then [SPACE] + FormDecode(t[1..])
    else if t[0] == PERCENT && |t| >= 3 && IsHex(t[1]) && IsHex(t[2]) then
      [(HexVal(t[1]) * 16 + HexVal(t[2])) as byte] + FormDecode(t[3..])
    else [t[0]] + FormDecode(t[1..])
  }

  lemma HexDigit(v: nat)
    requires v < 16
    ensures IsHex(HEX[v]) && HexVal(HEX[v]) == v
  {
  }

  /** Decoding one encoded byte gives the byte back. */
  lemma DecodeEncodedByte(c: byte, rest: seq<byte>)
    ensures FormDecode(EncodeByte(c) + rest) == [c] + FormDecode(rest)
  {
    var t := EncodeByte(c) + rest;
    if Unreserved(c) {
      assert t[1..] == rest;
    } else if c == SPACE {
      assert t[1..] == rest;
    } else {
      HexDigit(c as int / 16);
      HexDigit(c as int % 16);
      assert t[3..] == rest;
    }
  }

  /** Form decoding undoes url_encode. */
  lemma {:induction false} FormDecodeEncoded(s: seq<byte>)
    ensures FormDecode(Encoded(s)) == s
  {
    if s != [] {
      DecodeEncodedByte(s[0], Encoded(s[1..]));
      FormDecodeEncoded(s[1..]);
    }
  }

  /** What url_encode wrote decodes to the input bytes it consumed, a prefix of the input. */
  lemma UrlEncodedDecodes(input: seq<byte>, room: nat)
    ensures FormDecode(UrlEncoded(input, room)) == input[..Consumed(input, 0, room)]
  {
    FormDecodeEncoded(input[..Consumed(input, 0, room)]);
  }

  /** Encoding one more byte of the input appends that byte's encoding. */
  lemma EncodedSnoc(s: seq<byte>, i: nat)
    requires i < |s|
    ensures Encoded(s[..i + 1]) == Encoded(s[..i]) + EncodeByte(s[i])
  {
    assert s[..i + 1] == s[..i] + [s[i]];
    EncodedAppend(s[..i], [s[i]]);
    assert [s[i]][1..] == [];
  }

  /** The body of the url_encode loop: writes the encoding of `c` at `pos`, returns the new position. */
  method PutEncoded(output: array<byte>, pos: nat, c: byte) returns (next: nat)
    requires pos + 3 <= output.Length
    modifies output
    ensures next == pos + |EncodeByte(c)|
    ensures output[..next] == old(output[..pos]) + EncodeByte(c)
  {
    if Unreserved(c) {
      output[pos] := c;
      next := pos + 1;
    } else if c == SPACE {
      output[pos] := PLUS;
      next := pos + 1;
    } else {
      output[pos] := PERCENT;
      output[pos + 1] := HEX[c as int / 16];
      output[pos + 2] := HEX[c as int % 16];
      next := pos + 3;
    }
  }

  /** One turn of the url_encode loop: encodes input[i] at `pos` and keeps the loop's invariants. */
  method EncodeTurn(output: array<byte>, input: seq<byte>, i: nat, pos: nat, room: nat, ghost out: seq<byte>)
    returns (next: nat, ghost out': seq<byte>)
    requires output.Length == room + 4
    requires i < |input| && input[i] != 0 && pos < room && pos == |out|
    requires out == Encoded(input[..i]) && output[..pos] == out
    requires Consumed(input, 0, room) == i + Consumed(input[i..], pos, room)
    modifies output
    ensures next == |out'| && next <= room + 2
    ensures out' == Encoded(input[..i + 1]) && output[..next] == out'
    ensures Consumed(input, 0, room) == i + 1 + Consumed(input[i + 1..], next, room)
  {
    EncodedSnoc(input, i);
    out' := out + EncodeByte(input[i]);
    next := PutEncoded(output, pos, input[i]);
    ConsumedTurn(input, i, pos, next, room);
  }

  /**
   * The url_encode loop over a fresh output array of `outputSize` bytes.
   * output_size - 4 is a size_t subtraction, so the caller must pass at
   * least 4 bytes.
   */
  method UrlEncode(input: seq<byte>, outputSize: nat) returns (encoded: seq<byte>)
    requires 4 <= outputSize
    ensures encoded == UrlEncoded(input, outputSize - 4)
  {
    var room := outputSize - 4;
    var output := new byte[outputSize];
    var i := 0;
    var pos := 0;
    ghost var out: seq<byte> := [];
    while i < |input| && input[i] != 0 && pos < room
      invariant 0 <= i <= |input| && pos == |out| && pos <= room + 2
      invariant out == Encoded(input[..i])
      invariant output[..pos] == out
      invariant Consumed(input, 0, room) == i + Consumed(input[i..], pos, room)
      decreases |input| - i
    {
      pos, out := EncodeTurn(output, input, i, pos, room, out);
      i := i + 1;
    }
    output[pos] := 0;
    encoded := output[..pos];
    assert encoded == out;
  }

  // ---------------------------------------------------------------------
  // The requests
  // ---------------------------------------------------------------------

  /** The getUpdates request before truncation: the offset is one past the highest update id seen. */
  function PollText(token: seq<byte>, lastUpdateId: int): seq<byte>
  {
    GET_BOT + token + OFFSET_KEY + Decimal(Wrap64(lastUpdateId + 1)) + POLL_TAIL + HOST + CLOSE_TAIL
  }

  function PollRequest(token: seq<byte>, lastUpdateId: int): seq<byte>
  {
    Truncated(PollText(token, lastUpdateId), REQUEST_SIZE)
  }

  /** A signed decimal between two byte strings reads back as its value, for atol. */
  lemma AtolBetween(head: seq<byte>, n: int, tail: seq<byte>)
    requires LONG_MIN <= n <= LONG_MAX
    requires tail != [] && !IsDigit(tail[0])
    ensures Atol(head + Decimal(n) + tail, |head|) == n
  {
    var buf := head + Decimal(n) + tail;
    var d := Decimal(n);
    assert buf[|head|..|head| + |d|] == d;
    assert buf[|head| + |d|] == tail[0];
    AtolReadsDecimal(buf, |head|, n);
  }

  /** The same for the 64-bit reader the server side is modelled with. */
  lemma Int64Between(head: seq<byte>, n: int, tail: seq<byte>)
    requires -TWO63 < n < TWO63
    requires tail != [] && !IsDigit(tail[0])
    ensures Int64At(head + Decimal(n) + tail, |head|) == n
  {
    var buf := head + Decimal(n) + tail;
    var d := Decimal(n);
    assert buf[|head|..|head| + |d|] == d;
    assert At(buf, |head| + |d|) == tail[0];
    Int64ReadsDecimal(buf, |head|, n);
  }

  lemma Regroup(x: seq<byte>, a: seq<byte>, b: seq<byte>, c: seq<byte>)
    ensures x + a + b + c == x + (a + b + c)
  {
  }

  /** The server reads the offset parameter of a poll request as lastUpdateId + 1. */
  lemma PollRequestOffset(token: seq<byte>, lastUpdateId: int)
    requires -TWO63 <= lastUpdateId < TWO63 - 1
    requires |PollText(token, lastUpdateId)| < REQUEST_SIZE
    ensures Int64At(PollRequest(token, lastUpdateId), |GET_BOT| + |token| + |OFFSET_KEY|) == lastUpdateId + 1
  {
    var pre := GET_BOT + token + OFFSET_KEY;
    var d := Decimal(lastUpdateId + 1);
    assert Wrap64(lastUpdateId + 1) == lastUpdateId + 1;
    assert PollRequest(token, lastUpdateId) == PollText(token, lastUpdateId);
    Regroup(pre + d, POLL_TAIL, HOST, CLOSE_TAIL);
    Int64Between(pre, lastUpdateId + 1, POLL_TAIL + HOST + CLOSE_TAIL);
  }

  /** The sendMessage form body: the chat id and the encoded text, cut to post_body. */
  function SendBody(chatId: int, text: seq<byte>): seq<byte>
  {
    Truncated(CHAT_KEY + Decimal(chatId) + TEXT_KEY + UrlEncoded(text, ENCODED_SIZE - 4), BODY_SIZE)
  }

  /** The request line and headers up to the Content-Length value. */
  function SendHead(token: seq<byte>): seq<byte>
  {
    POST_BOT + token + SEND_LINE + HOST + FORM_HEADERS
  }

  function SendText(token: seq<byte>, chatId: int, text: seq<byte>): seq<byte>
  {
    var body := SendBody(chatId, text);
    SendHead(token) + Decimal(|body|) + CLOSE_TAIL + body
  }

  function SendRequest(token: seq<byte>, chatId: int, text: seq<byte>): seq<byte>
  {
    Truncated(SendText(token, chatId, text), REQUEST_SIZE)
  }

  /** The encoding and the two snprintf calls of telegram_send_message. */
  method FormatSendRequest(token: seq<byte>, chatId: int, text: seq<byte>) returns (request: seq<byte>)
    ensures request == SendRequest(token, chatId, text)
  {
    var encoded := UrlEncode(text, ENCODED_SIZE);
    var body := Truncated(CHAT_KEY + Decimal(chatId) + TEXT_KEY + encoded, BODY_SIZE);
    request := Truncated(SendHead(token) + Decimal(|body|) + CLOSE_TAIL + body, REQUEST_SIZE);
  }

  /** A message text whose encoding fits encoded_text and post_body reaches the body whole. */
  lemma SendBodyWhole(chatId: int, text: seq<byte>)
    requires NoNul(text) && |Encoded(text)| <= ENCODED_SIZE - 4
    requires |CHAT_KEY + Decimal(chatId) + TEXT_KEY + Encoded(text)| < BODY_SIZE
    ensures SendBody(chatId, text) == CHAT_KEY + Decimal(chatId) + TEXT_KEY + Encoded(text)
  {
    ConsumedAll(text, 0, ENCODED_SIZE - 4);
    assert text[..|text|] == text;
  }

  /** A body framed by its decimal length and a separator: the length reads back and the body ends the message. */
  lemma Framed(head: seq<byte>, sep: seq<byte>, body: seq<byte>)
    requires sep != [] && !IsDigit(sep[0]) && |body| <= LONG_MAX
    ensures var r := head + Decimal(|body|) + sep + body;
            |body| <= |r| && r[|r| - |body|..] == body && Atol(r, |head|) == |body|
  {
    var r := head + Decimal(|body|) + sep + body;
    assert r == head + Decimal(|body|) + (sep + body);
    AtolBetween(head, |body|, sep + body);
    assert r[|r| - |body|..] == body;
  }

  /** The encoded text ends the body, and decodes to the text. */
  lemma TextAtEnd(fields: seq<byte>, text: seq<byte>)
    ensures var body := fields + Encoded(text);
            |Encoded(text)| <= |body| && FormDecode(body[|body| - |Encoded(text)|..]) == text
  {
    var body := fields + Encoded(text);
    assert body[|body| - |Encoded(text)|..] == Encoded(text);
    FormDecodeEncoded(text);
  }

  /**
   * When nothing is cut, the Content-Length header states exactly the
   * length of the body that follows the blank line, and the body's last
   * bytes decode to the whole message text.
   */
  lemma SendRequestCarriesText(token: seq<byte>, chatId: int, text: seq<byte>)
    requires NoNul(text) && |Encoded(text)| <= ENCODED_SIZE - 4
    requires |CHAT_KEY + Decimal(chatId) + TEXT_KEY + Encoded(text)| < BODY_SIZE
    requires |SendText(token, chatId, text)| < REQUEST_SIZE
    ensures var r := SendRequest(token, chatId, text);
            var body := SendBody(chatId, text);
            |body| <= |r| && r[|r| - |body|..] == body
            && Atol(r, |SendHead(token)|) == |body|
            && |Encoded(text)| <= |body|
            && FormDecode(body[|body| - |Encoded(text)|..]) == text
  {
    SendBodyWhole(chatId, text);
    var body := SendBody(chatId, text);
    assert SendRequest(token, chatId, text) == SendText(token, chatId, text);
    Framed(SendHead(token), CLOSE_TAIL, body);
    TextAtEnd(CHAT_KEY + Decimal(chatId) + TEXT_KEY, text);
  }
}
