# PicoCalc Omnitool core, modelled in Dafny

The PicoCalc Omnitool firmware runs on a Raspberry Pi Pico 2 W inside a
PicoCalc handheld. Its own logic is a set of small protocol clients and
helpers with fixed-size buffers, driven by network, radio and keyboard
callbacks. This project models that logic and proves what each part
promises its callers.

- **HTTPS clients** (`telegram_api.dfy`, `weather_api.dfy`, with
  `transport.dfy`, `telegram_parse.dfy`, `telegram_request.dfy`,
  `text_scan.dfy`, `bytes.dfy`). The Telegram bot client and the
  OpenWeatherMap client are each one class. The class owns the client data
  the UI reads, the TLS flags and the response array. That one array is both
  the ciphertext staging area the TLS pull callback pops from the front and
  the plaintext accumulator decrypted bytes are appended to.
  - The lwIP and mbedTLS callbacks (DNS answer, connected, data, close,
    error) are methods. What the network and the TLS engine answer is passed
    in as parameters.
  - The response parsers are functions over the bytes of the response array,
    with C-string semantics: a scan stops at a NUL, as `strstr` does, so
    stale bytes past the length are part of the model. The loops the firmware
    runs are methods proved to compute those functions. The getUpdates loop
    has two: the loop as written (`ScanUpdatesAsWritten`) and a corrected
    loop (`ScanUpdates`), which the client uses (see "## Findings").
  - The request side covers `url_encode` (the unreserved set of section 2.3
    of RFC 3986, with space as `+`), the `snprintf`-formatted HTTP requests
    and `parse_int64`.
- **Headline client** (`news_api.dfy`): plain HTTP into a 4096-byte buffer.
  A second fetch is refused while one runs. The scanner copies up to ten raw
  titles, and their source when a `"name"` key follows closely.
- **SNTP client** (`ntp_client.dfy`):
  - the 48-byte client request (section 7.3 of RFC 5905);
  - the big-endian Transmit Timestamp moved from the 1900 epoch to the 1970
    one (section 6 of RFC 5905);
  - the Idle/Requesting/Synced/Error state;
  - the clock extrapolated from the microsecond counter.
- **WiFi configuration** (`wifi_config.dfy`):
  - the table-driven CRC-32 (reflected polynomial 0xEDB88320);
  - magic and CRC validation of the flash record, and stamping on save;
  - the bounded scan list;
  - sort by RSSI, then in-place de-duplication by SSID;
  - the auth-mode mappings.
- **BLE** (`ble_config.dfy`):
  - advertising-data interpretation (AD structures, Bluetooth Core
    Specification Vol 3 Part C section 11);
  - the scan list and its de-duplication by address;
  - the scan and connect guards;
  - the GATT discovery flags;
  - the string helpers.
- **PSRAM bump allocator** (`psram_helper.dfy`): word-aligned, zero-filled
  blocks handed out front to back. The allocator keeps
  `used + remaining == size`.
- **Keyboard** (`keyboard.dfy`):
  - the I2C event-word decoder with its sticky Ctrl state;
  - the LVGL input driver's key translation;
  - the press/release alternation.
- **LCD console** (`lcdspi.dfy`):
  - rectangle clipping to the 320x320 panel;
  - colour conversions;
  - the row-buffer fill and the byte-triple swap, both in place;
  - the text cursor of `display_put_c`.

  SPI traffic is recorded as a log of abstract operations.

Integers are unbounded in Dafny. Where the C code's width matters it is
written out: `int64_t` wrap-around in `parse_int64`, the 64-bit NTP
subtraction and `time_t` cast, the 32-bit `size_t` rounding in
`psram_malloc`, and newlib's 32-bit `strtol`.

## Model

| member | source | states |
|---|---|---|
| Bytes.At | src/telegram_api.c:434-454 | a scan through a C string reads a NUL past the end of the array, and any non-NUL byte it reads is the array's own byte |
| Bytes.StartsAtSplit | src/telegram_api.c:436-437 | an occurrence of a concatenated key is an occurrence of its first part followed, right after it, by the second |
| Bytes.RunBefore | src/telegram_api.c:470-477 | a value followed by its terminator sits in the buffer byte for byte, with the terminator right after it |
| Bytes.StrLen | src/telegram_api.c:261 | strlen counts the non-NUL bytes up to the first NUL, or to the end of the array |
| Bytes.CStrAt | src/telegram_api.c:261 | the C string at a position contains no NUL and is exactly the bytes strlen counts |
| Bytes.StrStr | src/telegram_api.c:376 | strstr returns the first occurrence at or after the start and before the string's NUL; no earlier position matches; none is returned only when the string holds no occurrence |
| Bytes.StrChr | src/telegram_api.c:395 | strchr returns the first position of the byte before the string's NUL, and none when the string does not contain it |
| Bytes.CopyN | src/telegram_api.c:542-544 | strncpy of n bytes followed by a terminator keeps the first min(n, strlen) bytes of the source string and no NUL |
| Bytes.CopyNOfRun | src/telegram_api.c:542-544 | copying exactly the length of a NUL-free run copies that run unchanged |
| TextScan.BodyStart | src/telegram_api.c:376-384 | the body starts four bytes past the first "\r\n\r\n"; there is a body exactly when the separator occurs in the response |
| TextScan.QuotedField | src/news_api.c:205-211 | a quoted value exists exactly when a closing quote follows; it is at most the cap long and contains neither NUL nor a quote |
| TextScan.QuotedFieldReadsValue | src/news_api.c:205-211 | a value written before its closing quote is read back whole when it fits the cap, and cut to the cap otherwise |
| TextScan.QuotedValue | src/telegram_api.c:392-399 | the same round trip, stated for a value followed by its quote |
| TextScan.QuoteAt | src/telegram_api.c:395 | strchr finds the quote that closes a quote-free value |
| TextScan.Truncated | src/telegram_api.c:221-222 | snprintf into a char[size] keeps at most size - 1 characters, a prefix of the text, and the whole text when it fits |
| TextScan.SkipSpace | src/weather_api.c:553 | atol's leading white-space skip stops at the first byte that is not white space |
| TextScan.DigitRun | src/weather_api.c:553 | the digits read never lower the accumulated value |
| TextScan.Clamp32 | src/weather_api.c:553 | an out-of-range value saturates to the 32-bit `long` limits; an in-range one is unchanged |
| TextScan.Atol | src/weather_api.c:553-570 | atol/atoi always give a 32-bit value |
| TextScan.Digits | src/telegram_api.c:644-645 | the decimal digits printed for a natural number are all digits, at least one |
| TextScan.Decimal | src/telegram_api.c:644-645 | a number always prints as at least one character |
| TextScan.HornerSnoc | src/telegram_api.c:617-620 | reading one more digit multiplies the value by ten and adds the digit |
| TextScan.HornerDigits | src/telegram_api.c:617-620 | reading back the printed digits of a number gives the number |
| TextScan.DigitRunReads | src/telegram_api.c:617-620 | a digit run ended by a non-digit or the end of the buffer is read as the value of its digits |
| TextScan.DigitRunReadsDigits | src/telegram_api.c:617-620 | the printed digits of v followed by a non-digit are read back as v |
| TextScan.AtolReadsDecimal | src/weather_api.c:553 | atol reads back exactly what `%ld` printed, for every 32-bit value |
| TextScan.AtolReadsNatural | src/weather_api.c:570 | atoi reads back an unsigned printed value |
| TextScan.AtolReadsNegative | src/weather_api.c:553 | atol reads a minus sign and digits as the negated value |
| Transport.Written | src/telegram_api.c:318-333 | the request is written once, exactly when the handshake completes and the write succeeds |
| Transport.Popped | src/telegram_api.c:155-171 | one pull removes min(want, held) bytes and leaves the array size unchanged |
| Transport.PoppedAll | src/telegram_api.c:155-171 | a series of pulls never grows the held count |
| Transport.WithCiphertext | src/telegram_api.c:305-311 | arriving ciphertext is appended only up to capacity - 1 held bytes |
| Transport.WithPlaintext | src/telegram_api.c:343-353 | a decrypted chunk is stored whole, NUL-terminated, or not at all |
| Transport.Cleared | src/telegram_api.c:664-665 | a fresh request sees an all-zero buffer holding nothing |
| Transport.PopTakesFront | src/telegram_api.c:160-168 | the pulled bytes are the front of what was held, and what stays is the rest, in order; pulling from an empty buffer changes nothing |
| Transport.PoppedAllTakesFront | src/telegram_api.c:155-171 | after any series of pulls the bytes still held are a suffix of those held before |
| Transport.CiphertextAppendBounded | src/telegram_api.c:305-311 | after a receive the held bytes are the old ones followed by as much of the datagram as fits below capacity - 1, all of it when it fits |
| Transport.PlaintextAppendAllOrNothing | src/telegram_api.c:343-353 | a decrypted chunk is appended and NUL-terminated when it is non-empty and fits; otherwise the buffer is unchanged |
| Transport.PullAfterPlaintextReturnsPlaintext | src/telegram_api.c:155-171 | as written, because one array serves both roles, the next pull after a decrypted chunk was stored hands that decrypted text back to the TLS engine, not the new ciphertext |
| Transport.ShiftedImage | src/telegram_api.c:165-167 | the array after memmove is the moved tail followed by the untouched remainder |
| Transport.ResponseBuffer.constructor | src/telegram_api.c:24-25 | a zero-initialised array of the given capacity, holding nothing |
| Transport.ResponseBuffer.Reset | src/telegram_api.c:664-665 | the length is zero and every byte of the array is zero |
| Transport.ResponseBuffer.Forget | src/telegram_api.c:289 | the length is zero and the bytes are kept |
| Transport.ResponseBuffer.Pull | src/telegram_api.c:155-171 | WANT_READ exactly when nothing is held; otherwise the first min(want, held) bytes are returned and removed |
| Transport.ResponseBuffer.Consume | src/telegram_api.c:164-168 | the first k held bytes leave and the rest move to the front |
| Transport.ResponseBuffer.MoveDown | src/telegram_api.c:165-167 | the memmove shifts the held bytes past k down by k and leaves the rest of the array as it was |
| Transport.ResponseBuffer.PullAll | src/telegram_api.c:155-171 | every pull of one TLS call, in order, leaves the buffer as the pulls specify |
| Transport.ResponseBuffer.AppendCiphertext | src/telegram_api.c:305-311 | the buffer becomes the bounded ciphertext append |
| Transport.ResponseBuffer.AppendPlaintext | src/telegram_api.c:343-353 | the buffer becomes the all-or-nothing plaintext append |
| Transport.ResponseBuffer.CopyIn | src/telegram_api.c:350 | memcpy writes the data at the offset and leaves the rest of the array unchanged |
| TelegramParse.Wrap64 | src/telegram_api.c:601-624 | int64_t arithmetic: the result is in the signed 64-bit range, congruent to the exact value modulo 2^64, and equal to it when it is in range |
| TelegramParse.SkipBlanks | src/telegram_api.c:607 | only spaces and tabs are skipped, and the scan stops at the first byte that is neither |
| TelegramParse.Digits64 | src/telegram_api.c:617-620 | the digit loop keeps an int64_t accumulator in the signed 64-bit range |
| TelegramParse.Int64At | src/telegram_api.c:601-624 | parse_int64 always yields an int64_t value |
| TelegramParse.Digits64Exact | src/telegram_api.c:617-620 | while the digits' value stays below 2^63 the 64-bit accumulation is exact |
| TelegramParse.Int64ReadsDecimal | src/telegram_api.c:601-624 | parse_int64 reads back every int64_t printed with `%lld`, except the most negative one |
| TelegramParse.Int64ReadsNatural | src/telegram_api.c:601-624 | unsigned digits below 2^63 read as their value |
| TelegramParse.Int64ReadsNegative | src/telegram_api.c:610-623 | a minus sign and digits read as the negated value |
| TelegramParse.ParseInt64 | src/telegram_api.c:601-624 | the loops of parse_int64 compute the parse_int64 value |
| TelegramParse.SkipBlanksLoop | src/telegram_api.c:607 | the blank-skipping loop stops where SkipBlanks says |
| TelegramParse.DigitLoop | src/telegram_api.c:617-620 | the digit loop computes the wrapped 64-bit value of the digit run |
| TelegramParse.TextEnd | src/telegram_api.c:489-500 | the end of a text value is a quote inside the C string; a backslash pair is skipped whole |
| TelegramParse.ScanTextEnd | src/telegram_api.c:489-500 | the loop stops at a quote exactly when TextEnd finds one, and at that quote |
| TelegramParse.Unescape | src/telegram_api.c:507-525 | the clean-up pass never lengthens the text and introduces no NUL |
| TelegramParse.UnescapeEscape | src/telegram_api.c:507-525 | the clean-up pass undoes JSON escaping of quotes, backslashes, slashes and newlines |
| TelegramParse.TextEndAfterEscape | src/telegram_api.c:489-500 | for an escaped string the scan stops at its closing quote, not at an escaped quote inside it |
| TelegramParse.TextValue | src/telegram_api.c:483-527 | the decoded text is at most 256 bytes and has no NUL |
| TelegramParse.Capped | src/telegram_api.c:501-504 | the copied raw text is the first min(length, 256) bytes of the value |
| TelegramParse.MessageText | src/telegram_api.c:483-527 | the decoded text is at most 256 bytes with no NUL, and empty when the message has no "text" key |
| TelegramParse.MessageTextReadsEscaped | src/telegram_api.c:483-527 | a text written by a JSON encoder is read back exactly when its escaped form fits in 256 bytes |
| TelegramParse.EscapedValueReads | src/telegram_api.c:486-525 | the same round trip for the value that starts after the key |
| TelegramParse.TextValueIsRaw | src/telegram_api.c:500-525 | the decoded text is the clean-up of the raw bytes between the key and the quote the scan finds |
| TelegramParse.LoadText | src/telegram_api.c:483-503 | `char text[257] = {0}` followed by strncpy holds the raw bytes at the front |
| TelegramParse.DecodeText | src/telegram_api.c:507-525 | the in-place clean-up loop, with a write position never past the read position, leaves the unescaped text |
| TelegramParse.DecodeStep | src/telegram_api.c:508-523 | one pass of the clean-up loop keeps the bytes still to be read intact and the bytes written equal to the unescaped prefix |
| TelegramParse.MessageUsername | src/telegram_api.c:469-480 | the username is at most 32 bytes with no NUL |
| TelegramParse.MessageAt | src/telegram_api.c:456-466 | a message is read only when both its message_id and its chat id keys are present, and any message with text is well formed |
| TelegramParse.Fields | src/telegram_api.c:456-546 | a message with text has fields that fit their arrays |
| TelegramParse.ReadText | src/telegram_api.c:483-527 | the text part of the loop body computes MessageText |
| TelegramParse.ReadTextValue | src/telegram_api.c:486-526 | the end scan, the cap and the clean-up compute TextValue |
| TelegramParse.ReadMessage | src/telegram_api.c:456-546 | the loop body reads MessageAt |
| TelegramParse.ReadFields | src/telegram_api.c:459-546 | the fields after both ids were found are those of Fields |
| TelegramParse.ReadDate | src/telegram_api.c:529-535 | the timestamp is the parsed date, 0 when the key is absent |
| TelegramParse.NextUpdate | src/telegram_api.c:434-553 | one pass of the corrected loop makes progress, only appends messages, at most one, and each one it appends is well formed; with 15 messages held the loop is finished; lastUpdateId only grows |
| TelegramParse.NextUpdateMeetsId | src/telegram_api.c:436-445 | a pass leaves lastUpdateId alone or sets it to an update_id found at or after the search position |
| TelegramParse.MessagePart | src/telegram_api.c:447-552 | the rest of a pass never moves backwards and never past the next update_id key, is left without a resume position only when no key follows, never finishes the loop, does not touch lastUpdateId, and appends at most one well-formed message |
| TelegramParse.NextUpdateAsWritten | src/telegram_api.c:434-553 | one pass as written, whose message and '}' searches run past the next update_id key, makes progress |
| TelegramParse.UpdatesAsWritten | src/telegram_api.c:432-553 | the loop as written: when it ends without a NULL search_pos, messages are only appended, at most 15 are held, appended ones are well formed, and lastUpdateId never decreases; with 15 messages already held it changes nothing |
| TelegramParse.Updates | src/telegram_api.c:423-553 | the corrected scan: messages are only ever appended, at most 15 are held, appended ones are well formed, lastUpdateId only grows; with 15 messages held nothing changes |
| TelegramParse.GrownWellFormed | src/telegram_api.c:537-548 | appending well-formed messages in two rounds leaves every appended message well formed |
| TelegramParse.UpdatesAsWrittenSkipsUpdateId | src/telegram_api.c:447-552 | when an update has no message of its own but the next one does, the loop as written stores that message and resumes past the next update_id, leaving lastUpdateId at the first id; the corrected scan counts the skipped id |
| TelegramParse.AsWrittenStoresFirst | src/telegram_api.c:436-552 | as written, a message found past the next key is stored under the first update, and with no key after it the scan ends there |
| TelegramParse.AsWrittenFirstPass | src/telegram_api.c:436-552 | the first pass as written raises lastUpdateId to the first id, stores the message found after the key, and resumes one byte past it |
| TelegramParse.AsWrittenNoKeyLeft | src/telegram_api.c:434-437 | with no update_id key left, the loop as written ends with what it holds |
| TelegramParse.UpdatesResume | src/telegram_api.c:432-553 | after a pass that resumes, the scan is the scan from the resume point |
| TelegramParse.ResumesBefore | src/telegram_api.c:436-552 | a pass whose update is followed by another key resumes at or before any later key |
| TelegramParse.CountsNextKey | src/telegram_api.c:436-552 | when an update's message search would run past the next key, the corrected scan counts the next key's id |
| TelegramParse.UpdatesAsWrittenDereferencesNull | src/telegram_api.c:449-453 | a result array cut off after an update without a message and without a later '}' makes the loop as written call strstr on NULL; the corrected scan records that update's id and stops |
| TelegramParse.LastUpdateIdIsMet | src/telegram_api.c:436-445 | lastUpdateId only ever takes the value of an update_id in the scanned text |
| TelegramParse.FirstUpdateCounted | src/telegram_api.c:436-445 | the first update_id the scan meets raises lastUpdateId to at least its value, even when its update stores no message |
| TelegramParse.FoundByStrStr | src/telegram_api.c:436 | strstr finds a key at or before any occurrence that the string reaches before its NUL |
| TelegramParse.KeysApart | src/telegram_api.c:436-439 | two "update_id": keys never overlap, so the 12 bytes skipped after one hold no other |
| TelegramParse.EveryUpdateIdCounted | src/telegram_api.c:432-553 | unless the scan stops at 15 messages, lastUpdateId ends at least at every update_id in the scanned string |
| TelegramParse.GetUpdatesParsed | src/telegram_api.c:418-557 | with the corrected update scan: a getUpdates body leaves the client in SUCCESS with its error message unchanged, appends only well-formed messages, holds at most 15, and never lowers lastUpdateId |
| TelegramParse.ErrorParsed | src/telegram_api.c:387-407 | an "ok":false body leaves the client in ERROR with its messages and update id unchanged and an error message of at most 127 bytes: "API error" without a description key, the old message when the description is not closed by a quote |
| TelegramParse.Parsed | src/telegram_api.c:371-574 | no header separator is "Invalid response"; an "ok":false body is ERROR; otherwise a getUpdates reply is SUCCESS, and a sendMessage reply is SUCCESS exactly when it holds "ok":true and else ERROR with "Failed to send message"; an error changes no message; a sendMessage reply changes no message; a success keeps the error message; the getUpdates bounds hold |
| TelegramParse.ErrorReplyCarriesDescription | src/telegram_api.c:387-403 | an error reply's description becomes the error message, cut to 127 characters |
| TelegramParse.ErrorParsedCarriesDescription | src/telegram_api.c:392-400 | the same for the error branch alone |
| TelegramParse.MessageStep | src/telegram_api.c:447-552 | the method computes MessagePart: the rest of one pass, bounded by the next update_id key in the corrected loop and unbounded (no key given) in the loop as written |
| TelegramParse.ScanUpdates | src/telegram_api.c:432-553 | the corrected update loop computes Updates |
| TelegramParse.UpdateStep | src/telegram_api.c:436-552 | one pass of the corrected loop, which also looks up the next update_id key, computes NextUpdate |
| TelegramParse.ScanUpdatesAsWritten | src/telegram_api.c:432-553 | the update loop as written computes UpdatesAsWritten, reporting a NULL search_pos as no result |
| TelegramParse.UpdateStepAsWritten | src/telegram_api.c:436-552 | one pass as written (strstr for the update_id, parse_int64, then the unbounded message part) computes NextUpdateAsWritten |
| TelegramParse.ParseResponse | src/telegram_api.c:371-415 | the parser computes Parsed, scanning a getUpdates reply with the corrected loop |
| TelegramParse.ParseUpdates | src/telegram_api.c:418-557 | the parser computes GetUpdatesParsed, with the corrected loop |
| TelegramRequest.EncodeByte | src/telegram_api.c:583-594 | one input byte becomes one to three output bytes, none of them NUL |
| TelegramRequest.Encoded | src/telegram_api.c:582-596 | the encoding of n bytes is between n and 3n bytes long and has no NUL |
| TelegramRequest.EncodedAppend | src/telegram_api.c:582-596 | the encoding of a concatenation is the concatenation of the encodings |
| TelegramRequest.Consumed | src/telegram_api.c:582 | the loop never consumes more bytes than the input has |
| TelegramRequest.ConsumedHead | src/telegram_api.c:582-595 | when the loop consumes anything, it consumes the first byte, encodes it first and carries on from the following position |
| TelegramRequest.ConsumedNoNul | src/telegram_api.c:582 | the loop consumes only a NUL-free prefix of the input |
| TelegramRequest.ConsumedBound | src/telegram_api.c:582-595 | the loop never writes more than room + 2 bytes, room being output_size - 4 |
| TelegramRequest.ConsumedStops | src/telegram_api.c:582 | the loop stops only at the end of the input, at its terminator, or once the output has reached room |
| TelegramRequest.ConsumedAll | src/telegram_api.c:582 | a C string whose encoding fits the room is consumed whole |
| TelegramRequest.UrlEncodedFits | src/telegram_api.c:582-597 | the output and its terminator fit in output_size - 1 bytes, and the loop stops only at the end of the input or once the room is used |
| TelegramRequest.HexVal | src/telegram_api.c:579 | a hex digit's value is below 16 |
| TelegramRequest.HexDigit | src/telegram_api.c:579-593 | each entry of the "0123456789ABCDEF" table is a hex digit with the value of its index |
| TelegramRequest.DecodeEncodedByte | src/telegram_api.c:583-594 | form-decoding one encoded byte gives the byte back and leaves the rest to be decoded |
| TelegramRequest.FormDecodeEncoded | src/telegram_api.c:577-598 | form decoding undoes url_encode for every byte string |
| TelegramRequest.UrlEncodedDecodes | src/telegram_api.c:577-598 | what url_encode wrote decodes to exactly the prefix of the input it consumed |
| TelegramRequest.EncodedSnoc | src/telegram_api.c:582-596 | encoding one more input byte appends that byte's encoding |
| TelegramRequest.PutEncoded | src/telegram_api.c:583-594 | the loop body writes the encoding of one byte at the current position and advances past it, leaving the bytes before it alone |
| TelegramRequest.EncodeTurn | src/telegram_api.c:582-596 | one turn of the loop keeps the output equal to the encoding of the bytes read so far, at most room + 2 bytes long |
| TelegramRequest.UrlEncode | src/telegram_api.c:577-598 | the loop over a fresh output array leaves the encoding of the consumed prefix, terminated |
| TelegramRequest.AtolBetween | src/telegram_api.c:655 | a decimal number between two byte strings reads back as its value |
| TelegramRequest.Int64Between | src/telegram_api.c:696-700 | the same for a 64-bit number |
| TelegramRequest.Regroup | src/telegram_api.c:695-700 | concatenation regroups (a step of the request formatting) |
| TelegramRequest.PollRequestOffset | src/telegram_api.c:695-700 | the getUpdates request asks for offset lastUpdateId + 1, read back from the request text |
| TelegramRequest.FormatSendRequest | src/telegram_api.c:638-659 | the encoding and the two snprintf calls produce the sendMessage request |
| TelegramRequest.SendBodyWhole | src/telegram_api.c:643-646 | a text whose encoding fits encoded_text and post_body reaches the body whole |
| TelegramRequest.Framed | src/telegram_api.c:651-659 | a body framed by its decimal length and the blank line ends the request, and the length reads back as the body's length |
| TelegramRequest.TextAtEnd | src/telegram_api.c:644-646 | the encoded text ends the body and decodes to the text |
| TelegramRequest.SendRequestCarriesText | src/telegram_api.c:638-659 | when nothing is cut, Content-Length states exactly the length of the body after the blank line, and the body's last bytes decode to the whole message text |
| TelegramApi.Failed | src/telegram_api.c:220-222 | an error path sets ERROR with its message and leaves the messages, the update id and the polling flag alone |
| TelegramApi.TelegramClient.constructor | src/telegram_api.c:20-45 | the zero-initialised statics: idle, no messages, an empty zeroed buffer, no request, no connection, TLS not set up |
| TelegramApi.TelegramClient.Init | src/telegram_api.c:63-71 | the bot data is zeroed and both TLS flags cleared; the request, the token and the connection are left as they are |
| TelegramApi.TelegramClient.OnDnsFound | src/telegram_api.c:174-213 | with an address, a connection is open exactly when the pcb was created and the connect call succeeded, and each failure has its own message; without one, "DNS lookup failed" |
| TelegramApi.TelegramClient.StartLookup | src/telegram_api.c:667-679 | a cached address connects at once, a pending lookup changes nothing, and a failed lookup is "DNS lookup failed" |
| TelegramApi.TelegramClient.SendMessage | src/telegram_api.c:627-680 | the token is cut to 127 bytes, the request is the form-encoded POST, the buffer is zeroed, and the state is SENDING unless the lookup answers at once; a request in flight is not refused |
| TelegramApi.TelegramClient.PollUpdates | src/telegram_api.c:683-721 | the token is cut to 127 bytes, the request asks for updates past the last update id, the buffer is zeroed, and the state is RECEIVING unless the lookup answers at once; stored messages are kept |
| TelegramApi.TelegramClient.Prepare | src/telegram_api.c:632-665 | the common start of both requests: token, state, request type and text are set and the response buffer is zeroed |
| TelegramApi.TelegramClient.HandshakeStep | src/telegram_api.c:318-339 | a handshake step pulls ciphertext from the front of the buffer; the flag is set exactly when the handshake completes; the request is written once on success; a fatal result or failed write is an error |
| TelegramApi.TelegramClient.OnConnected | src/telegram_api.c:216-272 | a connection error is "Connection error"; TLS is set up once, and a failed set-up is "SSL init failed"; otherwise one handshake step runs |
| TelegramApi.TelegramClient.OnData | src/telegram_api.c:304-357 | the segment is appended below 8192 bytes; before the handshake is done one handshake step runs, after it the decrypted chunk is appended when it fits |
| TelegramApi.TelegramClient.OnReceiveError | src/telegram_api.c:295-302 | a receive error is "Receive error" and nothing else changes |
| TelegramApi.TelegramClient.OnClose | src/telegram_api.c:277-293 | when the server closes, any held bytes are parsed (a getUpdates reply with the corrected scan) whatever came before; the length and the handshake flag are reset and the connection is gone |
| TelegramApi.TelegramClient.OnTcpError | src/telegram_api.c:361-368 | lwIP has freed the connection; "Network error" |
| NewsApi.Zeroed | src/news_api.c:29-33 | the zeroed data holds ten empty article slots, a count of 0 and IDLE |
| NewsApi.SourceNear | src/news_api.c:214-225 | the source is either the slot's old source or a new one of at most 64 bytes |
| NewsApi.Titled | src/news_api.c:208-225 | the slot's title is the bytes up to the closing quote, cut to 128; the description is untouched; the source is kept or at most 64 bytes |
| NewsApi.NextArticle | src/news_api.c:199-228 | a pass that copies a title moves forward, adds exactly one article in the next slot, with a title of at most 128 bytes, and touches no other slot and no description |
| NewsApi.Articles | src/news_api.c:199-229 | the loop holds at most ten articles, changes only the slots from the old count to the new, never fills a description, and bounds every new title and source |
| NewsApi.ErrorParsed | src/news_api.c:173-192 | an error status sets ERROR, keeps the articles and count, and leaves an error message of at most 127 bytes: "API error" without a message key, the old message when the message is not closed by a quote |
| NewsApi.NewsParsed | src/news_api.c:157-240 | no header separator is "Invalid response"; a body with an error status is ERROR with the count kept; otherwise the result is SUCCESS exactly when an article was found, "No articles found" when none was, and slots past the count are untouched |
| NewsApi.TitleCopiedRaw | src/news_api.c:201-228 | a title written between quotes is copied raw, not unescaped, cut to 128 bytes, and the scan resumes just past its closing quote |
| NewsApi.NextArticleTitle | src/news_api.c:201-228 | with the title key and its closing quote found, the title is the bytes between them, cut to 128, and the scan resumes after the quote |
| NewsApi.FarSourceIgnored | src/news_api.c:215-216 | a "name" key 200 or more bytes after the title start is ignored and the slot keeps its old source |
| NewsApi.ErrorParsedCarriesMessage | src/news_api.c:178-187 | the error branch copies the quoted message, cut to 127 bytes |
| NewsApi.ErrorReplyCarriesMessage | src/news_api.c:162-192 | an error reply becomes ERROR carrying its message, cut to 127 bytes, with the article count unchanged |
| NewsApi.ArticleStep | src/news_api.c:200-228 | one pass of the loop computes NextArticle |
| NewsApi.ScanArticles | src/news_api.c:196-229 | the loop computes Articles |
| NewsApi.ParseNewsResponse | src/news_api.c:157-240 | the parser computes NewsParsed |
| NewsApi.NewsRequest | src/news_api.c:259-265 | the formatted request always fits g_request_buffer |
| NewsApi.Failed | src/news_api.c:165-167 | an error path sets ERROR with its message and leaves the articles and the count alone |
| NewsApi.NewsClient.constructor | src/news_api.c:14-20 | the zero-initialised statics: zeroed data, an all-zero buffer, no request and no connection |
| NewsApi.NewsClient.Init | src/news_api.c:29-33 | the data is zeroed and IDLE; the buffer and the connection are left as they are |
| NewsApi.NewsClient.Clear | src/news_api.c:253 | every byte of the response buffer is zero |
| NewsApi.NewsClient.FetchHeadlines | src/news_api.c:243-282 | nothing at all changes while a fetch is running; otherwise FETCHING with count 0, an empty zeroed buffer, the request, and the lookup: a cached address connects at once, a pending lookup waits, a failure is "DNS lookup failed" |
| NewsApi.NewsClient.OnDnsFound | src/news_api.c:36-68 | with an address a connection is open exactly when the pcb was created and connected, and each failure has its own message; without one, "DNS lookup failed" |
| NewsApi.NewsClient.OnConnected | src/news_api.c:71-100 | a connection error is "Connection error"; otherwise the request is written, or "Failed to send request" |
| NewsApi.NewsClient.OnData | src/news_api.c:128-143 | the segment is appended only up to 4095 held bytes and a terminator follows; the bytes past it are untouched |
| NewsApi.NewsClient.OnReceiveError | src/news_api.c:119-126 | a receive error is "Receive error" and the buffer is untouched |
| NewsApi.NewsClient.OnClose | src/news_api.c:105-117 | when the server closes, held bytes are parsed; the length is not reset |
| NewsApi.NewsClient.OnTcpError | src/news_api.c:147-154 | lwIP has freed the connection; "Network error" |
| WeatherApi.Zeroed | src/weather_api.c:74-82 | the zeroed data is IDLE with no slot filled and no map |
| WeatherApi.Failed | src/weather_api.c:486-488 | an error path sets ERROR with its message and touches nothing else |
| WeatherApi.Near | src/weather_api.c:556-557 | a key counts only when strstr finds it fewer than `window` bytes after the entry, and it is then really there |
| WeatherApi.FloatNear | src/weather_api.c:555-565 | a float field keeps the slot's old value unless its key is fewer than 500 bytes on, and is then atof of the text after the key |
| WeatherApi.HumidityNear | src/weather_api.c:567-571 | the humidity keeps its old value unless its key is fewer than 500 bytes on, and is then a 32-bit atoi value |
| WeatherApi.DescriptionNear | src/weather_api.c:573-584 | the description keeps its old value or is at most 63 bytes without NUL; it is kept when the key is not fewer than 600 bytes on |
| WeatherApi.IconNear | src/weather_api.c:586-592 | the icon keeps its old value unless its key is fewer than 600 bytes on, and is then the first (at most) three bytes of the string after the key |
| WeatherApi.Entry | src/weather_api.c:550-592 | the timestamp is atol after the "dt" key, and the description and icon keep fitting their arrays |
| WeatherApi.DescriptionCopied | src/weather_api.c:574-583 | a description written between quotes after a near key is copied, cut to 63 bytes |
| WeatherApi.IconCopied | src/weather_api.c:587-591 | three non-NUL bytes after a near "icon" key become the icon exactly |
| WeatherApi.NextForecast | src/weather_api.c:545-596 | a pass fills a slot exactly when a "dt" key follows; it fills the next slot only, with the Entry read at that key, and resumes 100 bytes past the key |
| WeatherApi.Forecasts | src/weather_api.c:542-596 | at most sixteen slots are filled; only the slots from the starting count to the final count change, and nothing but slots and count |
| WeatherApi.NotFound | src/weather_api.c:494-511 | a "cod":"404" reply is ERROR with an error message of at most 127 bytes, "City not found" without a message key, and nothing else changed |
| WeatherApi.WithCoordinates | src/weather_api.c:520-530 | only the coordinates change, and not at all without a "coord" key |
| WeatherApi.ListParsed | src/weather_api.c:520-596 | the loop runs exactly when a "list" key exists; without one the reply is "Invalid forecast data" with the slots and count unchanged; with one the state and message are untouched, slots past the count unchanged, and the map left alone |
| WeatherApi.ForecastParsed | src/weather_api.c:479-596 | an early return is ERROR with the slots and count unchanged; a parse through the list keeps the state, the message and the slots past the count; the request, city and map are never touched |
| WeatherApi.ForecastErrors | src/weather_api.c:484-540 | no header separator is "Invalid response"; "cod":"404" wins over "cod":401, which is "Invalid API key"; the slot loop runs exactly when there is a body, neither code and a list |
| WeatherApi.NotFoundCarriesMessage | src/weather_api.c:495-504 | the 404 branch copies the quoted message, cut to 127 bytes |
| WeatherApi.UnknownCityReported | src/weather_api.c:484-511 | an unknown-city reply ends the parse in ERROR carrying the server's message, cut to 127 bytes |
| WeatherApi.EmptyListIsNotAnError | src/weather_api.c:533-596 | a list without any "dt" key fills no slot and leaves the state as it was |
| WeatherApi.FirstEntryReadsFirstKey | src/weather_api.c:533-553 | the first slot holds the entry at the first "dt" key inside the list, with its atol timestamp |
| WeatherApi.ListFirstEntry | src/weather_api.c:533-553 | the same for the part after the error codes |
| WeatherApi.FirstSlotFromFirstKey | src/weather_api.c:545-553 | from an empty count, the first slot is the entry of the first "dt" key |
| WeatherApi.ReadFloat | src/weather_api.c:556-565 | the method computes FloatNear |
| WeatherApi.ReadHumidity | src/weather_api.c:568-571 | the method computes HumidityNear |
| WeatherApi.ReadDescription | src/weather_api.c:574-584 | the method computes DescriptionNear |
| WeatherApi.ReadIcon | src/weather_api.c:587-592 | the method computes IconNear |
| WeatherApi.ReadEntry | src/weather_api.c:550-592 | the method computes Entry |
| WeatherApi.ForecastPass | src/weather_api.c:547-595 | one pass of the loop computes NextForecast |
| WeatherApi.ScanForecasts | src/weather_api.c:545-596 | the loop computes Forecasts |
| WeatherApi.ParseList | src/weather_api.c:520-596 | the method computes ListParsed |
| WeatherApi.ScanList | src/weather_api.c:540-596 | the loop behind a "list" key computes ListParsed |
| WeatherApi.ListMissing | src/weather_api.c:533-539 | without a "list" key the coordinates are taken and the reply is "Invalid forecast data" |
| WeatherApi.ListFound | src/weather_api.c:540-596 | with a "list" key the count restarts at 0 and the loop runs from the end of the key |
| WeatherApi.ParseForecastResponse | src/weather_api.c:479-596 | the method computes ForecastParsed |
| WeatherApi.Wrap32 | src/weather_api.c:636 | uint32_t arithmetic: the value modulo 2^32, equal to it in range and 2^32 more for small negatives |
| WeatherApi.MapParsed | src/weather_api.c:611-649 | no header separator is "Invalid map response"; otherwise SUCCESS with the error message kept, and a map is loaded exactly when the body starts with the PNG signature; without it the old map stays |
| WeatherApi.MapIsHeldBody | src/weather_api.c:636-645 | when the body starts inside the held bytes, the map is exactly the held body, len minus the body offset, and the 64 KiB cap never cuts it |
| WeatherApi.MapSizeWrapsPastHeld | src/weather_api.c:636-640 | as written, when the header end lies past the held bytes, the unsigned subtraction wraps and the size is the full 64 KiB, larger than the whole response array |
| WeatherApi.Emoji | src/weather_api.c:652-678 | the glyph is one of the seven the table uses |
| WeatherApi.EmojiFollowsTable | src/weather_api.c:654-677 | the glyph is the table's entry for the first two characters, and '?' for a code shorter than two characters or unknown |
| WeatherApi.EmojiReadsTwoCharacters | src/weather_api.c:661-675 | codes that agree on their first two characters get the same glyph |
| WeatherApi.CityNames | src/weather_api.c:47-58 | ten predefined cities, each with a non-empty name that fits the name array |
| WeatherApi.ForecastRequestText | src/weather_api.c:400-406 | the formatted forecast request always fits g_request_buffer |
| WeatherApi.ForecastRequestCarriesCity | src/weather_api.c:400-406 | when the request fits, the city sits unchanged, not URL-encoded, right after the path, and the request ends with its header block |
| WeatherApi.Between | src/weather_api.c:400-406 | the middle and the end of a concatenation slice back out |
| WeatherApi.MapRequestText | src/weather_api.c:452-457 | the formatted map request always fits g_request_buffer |
| WeatherApi.Closed | src/weather_api.c:284-306 | nothing held leaves the data alone; otherwise the result is SUCCESS, ERROR or FETCHING_MAP, the last only when a forecast parse chained into the map request; a parsed list with a zero coordinate ends SUCCESS without a map |
| WeatherApi.WeatherClient.constructor | src/weather_api.c:25-45 | the zero-initialised statics: zeroed data and buffer, no request, no host, no key, no connection, TLS not set up |
| WeatherApi.WeatherClient.Init | src/weather_api.c:74-82 | the data is zeroed and both TLS flags cleared; the rest is left as it was |
| WeatherApi.WeatherClient.OnDnsFound | src/weather_api.c:180-219 | with an address a connection is open exactly when the pcb was created and connected, with its own message for each failure; without one, "DNS lookup failed" |
| WeatherApi.WeatherClient.StartLookup | src/weather_api.c:415-424 | a cached address connects at once, a pending lookup waits, a failed lookup is "DNS lookup failed" |
| WeatherApi.WeatherClient.FetchForecast | src/weather_api.c:384-425 | never refused; the key is kept for the map request, FETCHING_FORECAST with no slot filled, the city kept (at most 63 bytes), the request formatted for the API host, the buffer zeroed, then the lookup |
| WeatherApi.WeatherClient.FetchMap | src/weather_api.c:428-476 | FETCHING_MAP with a map request for the tile, formatted for the tile host, the buffer zeroed, then the lookup; the key is kept |
| WeatherApi.WeatherClient.HandshakeStep | src/weather_api.c:331-352 | a handshake step pulls ciphertext from the front of the buffer; the flag is set exactly when the handshake completes; the request is written once on success; a fatal result or failed write is an error |
| WeatherApi.WeatherClient.OnConnected | src/weather_api.c:222-281 | a connection error is "Connection error"; TLS is set up once, and a failed set-up is "SSL init failed"; otherwise one handshake step runs |
| WeatherApi.WeatherClient.OnData | src/weather_api.c:317-367 | the segment is appended below 16384 bytes; before the handshake is done one handshake step runs, after it the decrypted chunk is appended when it fits |
| WeatherApi.WeatherClient.OnReceiveError | src/weather_api.c:308-315 | a receive error is "Receive error" and the buffer is untouched |
| WeatherApi.WeatherClient.OnClose | src/weather_api.c:284-306 | when the server closes, held bytes go to the parser of the current request; a forecast that chains into the map request zeroes the buffer and looks up the tile host, otherwise the length is reset; the handshake flag is cleared |
| WeatherApi.WeatherClient.ForecastClosed | src/weather_api.c:290-296 | a parsed forecast starts the map request exactly when it chains to the map; otherwise the connection stays closed and the buffer untouched |
| WeatherApi.WeatherClient.OnTcpError | src/weather_api.c:374-381 | lwIP has freed the connection; "Network error" |
| WeatherApi.WeatherClient.Cleanup | src/weather_api.c:699-707 | the map is dropped: size 0 and not loaded; nothing else changes |
| WifiConfig.CrcTableIsReflected | src/wifi_config.c:9-42 | every entry of the literal 256-entry table is its index shifted through eight reflected steps of the polynomial 0xEDB88320, so the table is the standard CRC-32 table |
| WifiConfig.CalculateCrc32 | src/wifi_config.c:45-51 | the loop computes the table-driven reflected CRC-32 (initial register all ones, result complemented), whose table is proved to be the bitwise table by CrcTableIsReflected |
| WifiConfig.Crc32Empty | src/wifi_config.c:45-51 | the checksum of no bytes is 0 |
| WifiConfig.CrcRegisterAppend | src/wifi_config.c:47-49 | the CRC register is incremental: a followed by b is b fed after a |
| WifiConfig.LE32 | include/wifi_config.h:21-25 | a 32-bit field is four bytes in flash |
| WifiConfig.ReadLE32 | src/wifi_config.c:59-67 | a field read from flash is a 32-bit value |
| WifiConfig.ByteSplit | include/wifi_config.h:21 | splitting off the low byte of a value and recombining it is exact |
| WifiConfig.ReadLE32OfLE32 | include/wifi_config.h:21-25 | a 32-bit field written little-endian reads back as itself |
| WifiConfig.LE32OfReadLE32 | include/wifi_config.h:21-25 | four flash bytes read as a field and written back give the same bytes |
| WifiConfig.Image | include/wifi_config.h:20-26 | a record's flash image is 112 bytes: magic, 33 + 65 character bytes, two padding bytes, auth mode and CRC |
| WifiConfig.Decode | src/wifi_config.c:74 | the memcpy of 112 flash bytes always gives a well-formed record |
| WifiConfig.DecodeImage | src/wifi_config.c:74 | reading back the image of a record gives the record |
| WifiConfig.ImageOfDecode | src/wifi_config.c:74 | the image of a decoded record is the flash bytes it came from |
| WifiConfig.LoadConfig | src/wifi_config.c:54-77 | a flash image is accepted exactly when the magic matches and the CRC of its first 108 bytes equals the stored CRC, and then it is copied out whole |
| WifiConfig.StampConfig | src/wifi_config.c:93-97 | the stamped copy carries the magic and keeps the SSID, password and auth mode |
| WifiConfig.SaveThenLoad | src/wifi_config.c:91-129 | the image of a stamped record passes the load's validation and loads back that record, so the read-back check of the save succeeds |
| WifiConfig.DedupSnoc | src/wifi_config.c:226-242 | one more entry is kept exactly when its SSID is not kept already |
| WifiConfig.DedupNext | src/wifi_config.c:226-242 | the pass over one more input entry keeps it exactly when its SSID is new |
| WifiConfig.DedupShape | src/wifi_config.c:218-246 | de-duplication never grows the list, keeps every SSID once and only input entries, and every input SSID is still listed |
| WifiConfig.DedupSorted | src/wifi_config.c:218-246 | after sorting, de-duplication keeps the strongest-first order |
| WifiConfig.DedupStrongest | src/wifi_config.c:224-243 | after sorting, for every input SSID the kept entry is at least as strong as any input entry with that SSID |
| WifiConfig.DedupKeepsStrongest | src/wifi_config.c:218-246 | both of the above together: sorted order kept, and each SSID's strongest reading kept |
| WifiConfig.WifiScanState.constructor | include/wifi_config.h:36-41 | an empty scan state: no results, neither flag set |
| WifiConfig.WifiScanState.StartScan | src/wifi_config.c:164-188 | a scan already running is refused with the error flag set and the list, count and completion flag untouched; otherwise the state is zeroed (every result slot, the count, the completion flag) and the call succeeds exactly when the driver accepts, the error flag otherwise |
| WifiConfig.WifiScanState.OnScanResult | src/wifi_config.c:144-161 | a result is appended exactly when there is one, there is room, and its SSID is non-empty; the entry is the event's SSID cut to its length (at most the 32-byte field) with its auth mode and RSSI, added after the old results; otherwise the results and count are unchanged; the completion flags are untouched |
| WifiConfig.WifiScanState.SsidAmongFirst | src/wifi_config.c:228-234 | the check loop reports a duplicate exactly when a kept entry has the same SSID under strcmp |
| WifiConfig.WifiScanState.SortScanResults | src/wifi_config.c:218-246 | after the sort and the compaction pass, the list is the de-duplication of the sorted results |
| WifiConfig.WifiScanState.CompactDuplicates | src/wifi_config.c:225-245 | the compaction pass leaves the de-duplication of the list it started with |
| WifiConfig.WifiScanState.CompactInPlace | src/wifi_config.c:225-243 | the in-place loop leaves the de-duplicated list at the front and returns its length |
| WifiConfig.WifiScanState.CompactStep | src/wifi_config.c:227-242 | one turn keeps the entries ahead of the read position intact and extends the kept prefix by that entry exactly when its SSID is new |
| WifiConfig.SortedScanProperties | src/wifi_config.c:218-246 | the sorted list is strongest first, lists each SSID once, adds nothing, and still lists every SSID of the scan with its strongest reading |
| WifiConfig.ConnectAuth | src/wifi_config.c:277-294 | every scan auth code maps to one of the four connect modes |
| WifiConfig.AuthModeName | src/wifi_config.c:297-305 | the name is one of the five strings |
| WifiConfig.ScanAuthNames | src/wifi_config.c:277-305 | every scanned code names a known mode: codes 0-1 are Open, 2-3 WPA, 4-6 WPA2, 7 and above WPA/WPA2 |
| WifiConfig.AuthModeNameInjective | src/wifi_config.c:297-305 | the known names are distinct, so a name identifies its mode |
| BleConfig.StructureAt | src/ble_config.c:237-243 | the AD iterator's current structure: its data is the length octet minus the type octet |
| BleConfig.NextOffset | src/ble_config.c:237-239 | stepping the AD iterator moves strictly forward and stays inside the report, so the walk ends |
| BleConfig.ApplyStructure | src/ble_config.c:245-268 | the switch on one AD type never changes the size of the caller's name buffer |
| BleConfig.ParseStructures | src/ble_config.c:237-269 | folding the switch over all structures keeps the name buffer's size |
| BleConfig.ParseAdvertisementData | src/ble_config.c:231-272 | the iterator loop yields exactly the fold of the switch over the report's AD structures, from an unknown SPS type and no name |
| BleConfig.ApplyAdStructure | src/ble_config.c:245-268 | one loop body: the name case copies a fitting local name with its NUL, the 128-bit UUID-list cases run the UUID scan, other types change nothing |
| BleConfig.ScanUuids | src/ble_config.c:258-266 | the inner loop over whole 16-byte UUIDs gives the result of the memcmp chain applied chunk by chunk |
| BleConfig.ParseFoundName | src/ble_config.c:246-271 | found_name is true exactly when some local-name structure has 0 < length < buffer size |
| BleConfig.ParseKeepsName | src/ble_config.c:245-268 | without a fitting local name the name buffer is left exactly as the caller passed it |
| BleConfig.ParseLastName | src/ble_config.c:248-251 | the buffer ends up holding the last fitting local name followed by its NUL terminator |
| BleConfig.UuidScanDetects | src/ble_config.c:258-266 | the UUID scan ends on a known service exactly when some whole 16-byte chunk equals the Nordic NUS or u-blox SPS service UUID |
| BleConfig.ParseSpsDetected | src/ble_config.c:255-267 | a device is classified as SPS exactly when one of its 128-bit service lists carries one of the two services |
| BleConfig.UuidScanKeeps | src/ble_config.c:258-266 | a UUID list with no NUS or u-blox chunk from the current one on leaves the SPS type as it was |
| BleConfig.UuidScanLastChunk | src/ble_config.c:258-266 | the memcmp chain overwrites the SPS type at every known chunk, so the last known 16-byte chunk of a list decides it, whatever came before |
| BleConfig.ParseKeepsSps | src/ble_config.c:237-268 | structures that are not 128-bit lists carrying a known service leave the SPS type as it was |
| BleConfig.ParseLastSps | src/ble_config.c:237-268 | the SPS type ends as the service of the last known chunk of the last 128-bit list that holds one, across all AD structures |
| BleConfig.DedupSnoc | src/ble_config.c:200-221 | de-duplication of a list plus one entry adds that entry only when its address is not yet kept |
| BleConfig.DedupNext | src/ble_config.c:201-220 | one more read_idx step extends the kept prefix by the entry exactly when its address is new |
| BleConfig.DedupShape | src/ble_config.c:199-223 | de-duplication never grows the list, leaves every address once, adds no entry and loses no address |
| BleConfig.DedupSorted | src/ble_config.c:197-223 | compacting a strongest-first list keeps it strongest first |
| BleConfig.DedupStrongest | src/ble_config.c:199 | after sorting, every address keeps an entry at least as strong as any reading of it |
| BleConfig.DedupKeepsStrongest | src/ble_config.c:186-225 | order and strongest reading survive de-duplication together |
| BleConfig.EmptyNameBuffer | src/ble_config.c:438 | the handler's name buffer is 33 zero bytes |
| BleConfig.NamedReportHasName | src/ble_config.c:438-443 | a report passes the non-empty-name filter only if parsing found a fitting local name |
| BleConfig.BleManager.constructor | src/ble_config.c:28-32 | all module state starts zeroed: not initialized, not scanning, no results, no connection |
| BleConfig.BleManager.ClearScanState | src/ble_config.c:147 | the memset zeroes every result slot, the count and the scan flags; its frame names only those fields, so nothing else changes |
| BleConfig.BleManager.ClearConnectionState | src/ble_config.c:480 | the memset zeroes handle, address, type, SPS type, flags and value handles |
| BleConfig.BleManager.Init | src/ble_config.c:68-87 | a second call changes no field and no stored result; the first clears scan and connection state and sets initialized |
| BleConfig.BleManager.StartScan | src/ble_config.c:133-158 | succeeds exactly when initialized and not already scanning; then every result slot is zeroed, the count is 0 and a scan is active; a refusal changes nothing; its frame names only the scan state and the scanning flag, so the connection state is untouched |
| BleConfig.BleManager.StopScan | src/ble_config.c:160-172 | a running scan stops and is marked complete; otherwise nothing changes; its frame names only the scanning flag and the two scan flags |
| BleConfig.BleManager.OnAdvertisingReport | src/ble_config.c:427-459 | while scanning with room left, a report with a non-empty parsed name appends one entry (address, type, name cut to 32 bytes, RSSI, SPS type and flag); otherwise the list is unchanged |
| BleConfig.BleManager.AddressAmongFirst | src/ble_config.c:205-212 | the check_idx loop finds a match exactly when one of the first write_idx entries has the same 6-byte address |
| BleConfig.BleManager.SortScanResults | src/ble_config.c:193-225 | after the sort and the compaction the list is the de-duplication of the strongest-first order |
| BleConfig.BleManager.CompactDuplicates | src/ble_config.c:200-223 | the compaction leaves exactly the first entry of each address, in order, and count is write_idx |
| BleConfig.BleManager.CompactInPlace | src/ble_config.c:200-221 | the in-place read/write loop leaves the de-duplicated list in the first write_idx slots |
| BleConfig.BleManager.CompactStep | src/ble_config.c:202-220 | one iteration keeps the read entry exactly when its address is new, without disturbing unread entries |
| BleConfig.BleManager.Connect | src/ble_config.c:278-312 | refused before init or while connected, with every field unchanged; otherwise a running scan is stopped and marked complete, the target recorded and the connection and discovery flags cleared; true only if the controller accepted; the handle, SPS type, value handles and results are never touched |
| BleConfig.BleManager.OnConnectionComplete | src/ble_config.c:464-473 | the link is marked up with its handle, and its frame names only those two fields, so everything else is untouched |
| BleConfig.BleManager.OnDisconnectionComplete | src/ble_config.c:477-482 | the whole connection state is zeroed; its frame names only connection fields, so the scan flags, the scanning flag and the results are kept |
| BleConfig.BleManager.OnServiceQueryResult | src/ble_config.c:495-508 | a service whose UUID is NUS or u-blox SPS sets the SPS type to match; any other leaves it; no other field can change |
| BleConfig.BleManager.OnQueryComplete | src/ble_config.c:510-535 | first completion with a known SPS type marks the service found; the next marks the characteristics found; each flag is set once; no other field can change |
| BleConfig.BleManager.OnCharacteristicQueryResult | src/ble_config.c:537-562 | the TX and RX value handles are taken only from the characteristics of the detected service type; no other field can change |
| BleConfig.BleManager.SpsSendData | src/ble_config.c:358-400 | since no handler sets notifications_enabled, the link is never ready and every send is refused |
| BleConfig.SortedScanProperties | src/ble_config.c:193-225 | for any strongest-first permutation: the final list is strongest first, each address once, nothing added, every scanned address listed with its strongest reading |
| BleConfig.SpsTypeName | src/ble_config.c:582-591 | the name is one of "Nordic NUS", "u-blox SPS", "Unknown" |
| BleConfig.SpsTypeNameInjective | src/ble_config.c:582-591 | distinct types get distinct names |
| BleConfig.HexDigit | src/ble_config.c:594 | a %02X digit is 0-9 or A-F |
| BleConfig.HexDigitValue | src/ble_config.c:594 | each digit reads back as its value |
| BleConfig.AddressText | src/ble_config.c:594-596 | the full text of a 6-byte address is 17 characters |
| BleConfig.AddressToString | src/ble_config.c:593-597 | snprintf into len bytes keeps min(17, len - 1) characters, none when len is 0 |
| BleConfig.ParseAddressText | src/ble_config.c:594-596 | reading six two-digit fields gives six bytes |
| BleConfig.AddressTextRoundTrip | src/ble_config.c:594-596 | the text names the address exactly: reading it back gives the bytes in array order |
| LcdSpi.Clamp | lcdspi/lcdspi.c:351-358 | a clamped coordinate lies on the panel, and one already on it is unchanged |
| LcdSpi.Normalise | lcdspi/lcdspi.c:341-358 | the boundary check always yields an ordered rectangle inside the 320x320 panel |
| LcdSpi.NormaliseIdempotent | lcdspi/lcdspi.c:341-358 | a rectangle already on the panel passes unchanged, so checking twice equals checking once |
| LcdSpi.NormaliseSymmetric | lcdspi/lcdspi.c:341-350 | the order in which the two corners are given does not matter |
| LcdSpi.Rgb | lcdspi/lcdspi.h:46 | the RGB macro yields a 24-bit colour |
| LcdSpi.ColourBytes | lcdspi/lcdspi.c:364-366 | a colour splits into exactly three bytes |
| LcdSpi.ColourBytesOfRgb | lcdspi/lcdspi.h:46 | splitting a colour built by RGB gives back its red, green and blue components, each masked to 8 bits |
| LcdSpi.Expand5 | lcdspi/lcdspi.c:184-186 | a 5-bit component widens to one byte |
| LcdSpi.Expand6 | lcdspi/lcdspi.c:185 | a 6-bit component widens to one byte |
| LcdSpi.Expand5Properties | lcdspi/lcdspi.c:184-186 | the component becomes the top bits; 0 stays 0 and 31 becomes 255 |
| LcdSpi.Expand6Properties | lcdspi/lcdspi.c:185 | the component becomes the top bits; 0 stays 0 and 63 becomes 255 |
| LcdSpi.Rgb565To888 | lcdspi/lcdspi.c:177-186 | an RGB565 pixel gives three bytes |
| LcdSpi.Rgb888To565 | lcdspi/lcdspi.c:180-182 | cutting three bytes to 5, 6 and 5 bits gives a 16-bit pixel |
| LcdSpi.Rgb565RoundTrip | lcdspi/lcdspi.c:180-186 | the expansion loses nothing: cutting the bytes back to 5, 6 and 5 bits gives the original pixel |
| LcdSpi.Rgb888Stream | lcdspi/lcdspi.c:176-187 | a run of pixels gives three bytes per pixel |
| LcdSpi.ExpandPixels | lcdspi/lcdspi.c:176-187 | the DMA conversion loop fills the first 3n bytes of the buffer with the pixel stream and leaves the rest untouched |
| LcdSpi.SwapTriples | lcdspi/lcdspi.c:134-141 | the swap keeps the buffer length |
| LcdSpi.SwapTriplesInvolution | lcdspi/lcdspi.c:134-141 | swapping twice gives back the bytes read from the panel |
| LcdSpi.SwapTriplesInPlace | lcdspi/lcdspi.c:127-141 | the in-place loop exchanges bytes 0 and 2 of each of the first N / 3 triples and changes nothing else |
| LcdSpi.StreamAt | lcdspi/lcdspi.c:176-187 | bytes 3i to 3i + 2 of the converted stream are the expansion of pixel i |
| LcdSpi.Le16Pixels | lcdspi/lcdspi.c:168-177 | the uint16_t view of a byte row has one 16-bit pixel per pair of bytes |
| LcdSpi.ScrolledRowAsWritten | lcdspi/lcdspi.c:414-433 | a row moved as written keeps its length |
| LcdSpi.Packed | lcdspi/lcdspi.c:414-433 | packing a row gives one 16-bit pixel per three bytes |
| LcdSpi.ScrolledRow | lcdspi/lcdspi.c:414-433 | a row moved by the packed copy keeps its length |
| LcdSpi.PackedAt | lcdspi/lcdspi.c:176-187 | packing pixel i of a drawn row gives back pixel i |
| LcdSpi.ScrolledRowKeepsDrawnRow | lcdspi/lcdspi.c:414-433 | the packed copy draws any row the driver drew back unchanged |
| LcdSpi.RedPixel | lcdspi/lcdspi.c:176-187 | RGB565 0xF800 is sent as FF 00 00 |
| LcdSpi.BlueGreenPixel | lcdspi/lcdspi.c:176-187 | RGB565 0x00FF is sent as 00 1C FF |
| LcdSpi.AsWrittenFirstPixel | lcdspi/lcdspi.c:168-187 | the copy as written draws the row's first two bytes, FF 00, as the pixel 00 1C FF |
| LcdSpi.ScrolledRowAsWrittenGarbles | lcdspi/lcdspi.c:414-433 | a row starting with a pure red pixel is redrawn as written starting with blue, while the packed copy keeps it |
| LcdSpi.Triples | lcdspi/lcdspi.c:367-371 | n colour triples are 3n bytes |
| LcdSpi.RectOpsShape | lcdspi/lcdspi.c:322-379 | a single point is drawn only on the panel; otherwise one region command, then one clipped row of at most 960 bytes of the colour's bytes, sent once per row |
| LcdSpi.Lcd.constructor | lcdspi/lcdspi.c:18-66 | the console starts at the top-left with no output, a zero row buffer and the font's header |
| LcdSpi.Lcd.FillRow | lcdspi/lcdspi.c:361-371 | the fill loop puts `count` copies of the colour triple at the front of lcd_buffer and leaves the rest |
| LcdSpi.Lcd.DrawRect | lcdspi/lcdspi.c:322-379 | draw_rect_spi sends exactly the operations of the clipped rectangle and leaves the cursor and colours alone |
| LcdSpi.Lcd.PrintChar | lcdspi/lcdspi.c:386-412 | a font character is drawn as a glyph at the cursor, anything else as a background block; the cursor moves one font width right |
| LcdSpi.Lcd.NewLine | lcdspi/lcdspi.c:458-465 | the cursor goes to the left edge of the next line; past the bottom the screen scrolls by the overflow and the cursor stays on the last line that fits |
| LcdSpi.Lcd.Backspace | lcdspi/lcdspi.c:446-454 | one column left, or from the first column to the last column of the line above (never above the top) |
| LcdSpi.Lcd.Tab | lcdspi/lcdspi.c:466-470 | the cursor and output are those of the fewest spaces, at least one, that leave the cursor on an even column, each space printed as display_put_c prints it (wrapping at the right edge) |
| LcdSpi.Lcd.TabFromOddColumn | lcdspi/lcdspi.c:466-470 | from an odd column with room for a space, a tab is exactly that space |
| LcdSpi.Lcd.TabFromEvenColumn | lcdspi/lcdspi.c:466-470 | from an even column with room for two, a tab is two spaces on the same line, ending two columns on |
| LcdSpi.Lcd.TabAtRightEdge | lcdspi/lcdspi.c:457-470 | where a font space would pass the right edge, a tab wraps to the next line and stops at column 2 |
| LcdSpi.Lcd.PutC | lcdspi/lcdspi.c:435-473 | the new cursor and output for each case, as Displayed states them: CR, LF, BS, TAB, a font character with CR LF first when it would pass the right edge, and a block for anything else |
| LcdSpi.Lcd.PutChar | lcdspi/lcdspi.c:478-503 | the cursor and output are exactly those of display_put_c for the character (Displayed); the counter is reset to 1 by CR, counts printable characters and is otherwise kept |
| I2cKbd.DecodeWord | i2ckbd/i2ckbd.c:39-56 | decoding a 16-bit word that the bus delivered: 0 returns 0; 0x7E03 and 0x7E02 return -1 and clear or set Ctrl; every code lies in -1..255 |
| I2cKbd.DecodeKeyPress | i2ckbd/i2ckbd.c:43-54 | a word with low byte 1 returns its high byte, or a control code 1..26 (code + 'a' - 1 is the letter) for 'a'..'z' while Ctrl is held; any other non-zero word that is not a Ctrl word returns -1; none of these words changes Ctrl |
| I2cKbd.I2cKeyboard.constructor | i2ckbd/i2ckbd.c:5-19 | the statics start uninitialised with Ctrl released |
| I2cKbd.I2cKeyboard.Init | i2ckbd/i2ckbd.c:7-15 | marks the driver initialised and leaves Ctrl alone |
| I2cKbd.I2cKeyboard.Read | i2ckbd/i2ckbd.c:17-57 | -1 with Ctrl unchanged before init or when either transfer reports PICO_ERROR_GENERIC or PICO_ERROR_TIMEOUT; otherwise the code and the new Ctrl state are those DecodeWord gives |
| Keypad.GetKey | src/lv_port_indev_picocalc_kb.c:245-253 | a negative reading becomes 0 and anything else passes through, so the result is never negative |
| Keypad.TranslateKey | src/lv_port_indev_picocalc_kb.c:120-233 | the seventeen unmapped codes give 0, the eleven control codes give LVGL control keys, and every other code maps to itself |
| Keypad.TranslateKeyClasses | src/lv_port_indev_picocalc_kb.c:120-233 | for a positive code: the result is 0 exactly for the seventeen unmapped codes (F1-F10, Caps, Brk, Insert, Ctrl, Alt, both Shifts); the eleven control codes map to UP, DOWN, LEFT, RIGHT, ESC, NEXT, DEL, BACKSPACE, HOME, END and ENTER; every other code maps to itself |
| Keypad.KeypadReader.constructor | src/lv_port_indev_picocalc_kb.c:101-102 | no key and no release pending |
| Keypad.KeypadReader.Read | src/lv_port_indev_picocalc_kb.c:99-243 | a pending release is reported as RELEASED with the last key without reading the keyboard, and clears the flag; otherwise a positive reading is reported as PRESSED with the translated key, which is remembered, and a release becomes pending; no key reports RELEASED with key 0 and leaves both statics; PRESSED is reported exactly when a release is then pending; the keyboard driver stays (un)initialised as it was, and its Ctrl state is untouched on the pending-release path and otherwise is what read_i2c_kbd leaves (DecodeWord's when initialised and both transfers succeed, else unchanged); the pending-release path keeps the last key |
| NtpClient.RequestPacket | src/ntp_client.c:112-116 | the request datagram is 48 bytes: leap indicator 0, version 4, mode 3 (client) in the first byte, every other byte zero |
| NtpClient.NtohlInvolution | src/ntp_client.c:135-141 | swapping the byte order twice gives back the original word |
| NtpClient.NtohlOfHostLoad | src/ntp_client.c:135-141 | swapping a little-endian load of four bytes gives the big-endian (network order) value of the same bytes |
| NtpClient.Ntohl | src/ntp_client.c:135-141 | byte i of the result is byte 3 - i of the word |
| NtpClient.TransmitSeconds | src/ntp_client.c:150-154 | the transmit timestamp's seconds, read from bytes 40-43 in network order, is a 32-bit value |
| NtpClient.UnixSeconds | src/ntp_client.c:157 | the 64-bit subtraction of the 1900-to-1970 offset followed by the cast to `time_t` yields exactly ntp time minus 2208988800, negative before 1970 |
| NtpClient.NtpClientState.constructor | src/ntp_client.c:33-38 | the client starts idle, unsynced, with no callback, no socket and nothing sent |
| NtpClient.NtpClientState.Init | src/ntp_client.c:46-52 | state idle, sync time and counter zero, callback cleared; socket and sent datagrams untouched |
| NtpClient.NtpClientState.SetCallback | src/ntp_client.c:262-265 | only the presence of the callback changes |
| NtpClient.NtpClientState.Fail | src/ntp_client.c:62-66 | every failure path: state ERROR, and `false` is reported exactly when a callback is set |
| NtpClient.NtpClientState.SendRequest | src/ntp_client.c:71-132 | the socket is created once and kept; a request packet is sent exactly when the socket exists and a buffer was obtained; the state becomes REQUESTING when the send succeeds, otherwise ERROR with a `false` report |
| NtpClient.NtpClientState.OnDnsFound | src/ntp_client.c:55-68 | a failed lookup is an error with a `false` report, no datagram sent and the socket untouched; a resolved one runs ntp_send_request: the socket exists afterwards exactly when it did or udp_new and udp_bind succeeded, the packet is sent once a pbuf is allocated, and the client is REQUESTING when every step succeeds, otherwise ERROR with a `false` report |
| NtpClient.NtpClientState.RequestServer | src/ntp_client.c:191-215 | a request while one is in flight changes nothing; otherwise a pending lookup leaves it REQUESTING, a lookup error fails with a `false` report, both with the socket untouched, and a cached address runs ntp_send_request with the same outcomes as a resolved lookup |
| NtpClient.NtpClientState.OnReceive | src/ntp_client.c:144-182 | a datagram shorter than 48 bytes is ignored; otherwise the sync time is the transmit seconds minus the 1970 offset and the sync counter is the current microsecond count; the state is SYNCED with a `true` report when the date converts, else ERROR with a `false` report |
| NtpClient.NtpClientState.TimestampMonotone | src/ntp_client.c:247-259 | while the microsecond counter moves forward from the sync point, the reported Unix timestamp never decreases |
| NtpClient.NtpClientState.TimestampAdvances | src/ntp_client.c:247-259 | once synced, k million microseconds later the timestamp is exactly k seconds larger |
| NtpClient.NtpClientState.Timestamp | src/ntp_client.c:247-259 | 0 unless SYNCED with a nonzero sync counter; once synced never below the sync time, and, while the counter has not wrapped, the sync time plus the whole seconds elapsed |
| PsramHelper.AlignUp | src/psram_helper.c:55 | `(size + 3) & ~3` in 32-bit `size_t`: always a multiple of 4 below 2^32 |
| PsramHelper.AlignUpRounds | src/psram_helper.c:55 | below the top of the `size_t` range the rounded size is the least multiple of 4 that is at least `size`, so it lies in [size, size + 4) |
| PsramHelper.AlignUpWrapsNearLimit | src/psram_helper.c:55 | as written, the three largest `size_t` requests wrap to a rounded size of 0, so (with Malloc's contract) an initialised allocator hands out a non-NULL 0-byte block for them instead of NULL |
| PsramHelper.ContiguousExtend | src/psram_helper.c:63-65 | appending a block that starts at the current bump address keeps the blocks back to back |
| PsramHelper.ContiguousDisjoint | src/psram_helper.c:63-65 | back-to-back blocks stay inside [start, end) and no two overlap |
| PsramHelper.PsramAllocator.constructor | src/psram_helper.c:11 | the zero-initialised global is uninitialised with no blocks |
| PsramHelper.PsramAllocator.Init | src/psram_helper.c:13-24 | idempotent: a second call changes nothing; the first sets current to the base and remaining to 8 MiB; always returns true; keeps `(current - base) + remaining == PSRAM_SIZE` |
| PsramHelper.PsramAllocator.Malloc | src/psram_helper.c:47-74 | NULL with nothing changed when uninitialised or when the rounded size exceeds `remaining`; otherwise returns the old bump address, moves current and remaining by the rounded size, records the block, zeroes exactly its bytes and keeps the accounting invariant |
| PsramHelper.PsramAllocator.Memset | src/psram_helper.c:71 | the loop zeroes exactly [offset, offset + n) and leaves every other byte |
| PsramHelper.PsramAllocator.GetFree | src/psram_helper.c:76-79 | 0 when uninitialised, otherwise `PSRAM_SIZE - (current - base)`, which is `remaining` |
| PsramHelper.PsramAllocator.GetStats | src/psram_helper.c:81-90 | total is 8 MiB; used is 0 when uninitialised and otherwise the bytes handed out, never more than the total |
| PsramHelper.PsramAllocator.BlocksDisjoint | src/psram_helper.c:63-65 | every block handed out lies inside [base, base + 8 MiB) and successive blocks do not overlap |

## Left out

- Floating point. `atof` values are kept as the text they would be read from (`WeatherApi.Float`), not as numbers. The Web-Mercator tile computation and the nonzero-coordinate test that chains a forecast into a map request are inputs (`WeatherApi.Chain`). `printf` float formatting is not modelled.
- The map buffer's `malloc` and its "Out of memory" path in `weather_api_fetch_map`: the buffer is taken as always present.
- Calendar conversion: `gmtime`'s success is an input of `NtpClient.NtpClientState.OnReceive` (`gmtimeOk`), and the broken-down time is not computed.
- TLS internals: the handshake, record decryption, entropy and DRBG setup are an oracle (`Transport.TlsCall`: the pull sizes, the handshake result, the plaintext, whether the write succeeded).
  - Certificate verification is switched off in the source (`MBEDTLS_SSL_VERIFY_NONE`). The model does not check certificates either.
  - A partial `mbedtls_ssl_write` counts as success in the source. The model records the whole request as written.
- lwIP: DNS, TCP and UDP calls and pbufs are events and parameters. Whether a connection is open is a flag (`pcbOpen`). Freeing pbufs is not modelled.
- The getter functions that copy client data out to the UI (`telegram_get_data`, `news_api_get_data`, `weather_api_get_data`, `ble_get_scan_results` and the like) are plain reads of the modelled state.
- The UI (LVGL widget trees, screens, the main loop) and build configuration are not part of this model.
- Flash erase and program, interrupt masking, retry with sleep and the XIP read are hardware. `WifiConfig.LoadConfig` takes the flash image as bytes.
- `wifi_wait_for_scan` (a blocking wait on the clock) and the CYW43 connect and disconnect calls are left out.
- The CYW43 auth constants and the LVGL key codes are defined in headers that are not part of this model. Their numeric values are written out as constants.
- BTstack:
  - The AD iterator's bounds follow the Bluetooth Core Specification.
  - The UUID strings converted by `sscanf_bd_addr` become opaque 16-byte parameters (`BleConfig.ServiceUuids`, `BleConfig.CharacteristicUuids`).
  - GAP and GATT requests are flags or parameters.
  - The Core1 run loop and the mutexes are concurrency and are not modelled.
- `qsort` is a library call with no stable order. `WifiConfig.WifiScanState.SortScanResults` and `BleConfig.BleManager.SortScanResults` take the sorted permutation as a parameter (any strongest-first permutation of the list). What follows it, the in-place compaction, is modelled as written.
- The font (`font1.h`) is not part of this model. Its width, height, first character and character count are constructor parameters of `LcdSpi.Lcd`. The glyph bitmaps and `draw_bitmap_spi` are recorded as one `Glyph` operation.
- SPI, DMA and GPIO transfers and panel init sequences are hardware. The row loop of `scroll_lcd_spi` (`read_buffer_spi` then `draw_buffer_spi` per row, then a background rectangle) is recorded in the console as one Scroll operation. Its per-row copy is modelled on its own, as ScrolledRowAsWritten and ScrolledRow. Of `read_buffer_spi` and `draw_buffer_spi`, only the clipping, the byte swap and the RGB565 conversion are modelled.
- The PSRAM write/readback self-test in `psram_init` is hardware. The I2C transfers of `read_i2c_kbd` are inputs (their success and the two bytes read).
- Transport.ResponseBuffer.Consume: `ssl_recv_callback` calls `memmove` only when fewer bytes are taken than are held. The model always moves the remaining `len - k` bytes, which moves nothing when `k == len`.
- Narrow integer fields are modelled as unbounded `int`. The cursor fields `current_x` and `current_y` are `short` in lcdspi/lcdspi.c:20, and `LcdSpi.Lcd.x` and `y` are `int`. A run of characters outside the font moves x right without a wrap, as in the source, and the 16-bit wrap-around such a run would reach after about 4000 characters is not modelled. The `rssi` fields are `int8_t` in include/wifi_config.h:32 and include/ble_config.h:36. The model takes RSSI values from the driver events as `int` and does not restrict them to -128..127.
- TelegramParse.GetUpdatesParsed: scans the update array with the corrected loop (`Updates`), not the loop as written, which can skip an update_id and can read through a NULL search_pos (both in "## Findings"). The loop as written is `TelegramParse.UpdatesAsWritten`, with its bounds proved, but the client state is not defined over it.
- TelegramParse.Parsed: its getUpdates branch is `GetUpdatesParsed`, so it is parse_telegram_response with the corrected update loop.
- TelegramParse.ParseResponse: computes `Parsed`, so a getUpdates reply goes through the corrected loop.
- TelegramParse.ParseUpdates: runs the corrected loop `ScanUpdates`; the loop as written is `ScanUpdatesAsWritten`.
- TelegramParse.ScanUpdates: the corrected loop, whose passes stop at the next update_id key; src/telegram_api.c:432-553 does not look for that key.
- TelegramParse.UpdateStep: a pass of the corrected loop; its extra strstr for the next update_id key is not in src/telegram_api.c:436-552. The pass as written is `UpdateStepAsWritten`.
- TelegramParse.MessageStep: given the next key, it bounds the message and '}' searches by it, which the source does not; given no key it is the pass as written.
- TelegramApi.TelegramClient.OnClose: parses with `Parsed`, so after a getUpdates reply the client holds what the corrected loop computes. On the inputs listed in "## Findings" this differs from the firmware: it records update_ids the firmware skips, and it stops where the firmware would read through NULL.
- WifiConfig.CalculateCrc32: proved to compute the table-driven register. Each table entry is proved equal to eight bitwise shift steps of its index (`CrcTableIsReflected`). The lemma that each table-driven byte step equals eight bitwise steps on the register with the byte folded in is not proved.
- WeatherApi.Emoji: its own contract only bounds the glyph set. The full table is stated by `WeatherApi.EmojiFollowsTable`.

## Findings

| source | as written | input that shows it | evidently intended | confidence | as-written member | corrected member |
|---|---|---|---|---|---|---|
| src/telegram_api.c:449-453 | an update without a `"message":{` sets `search_pos` to `strstr(search_pos, "}")`, which may be NULL; the loop then `continue`s, and line 436 calls `strstr(NULL, ...)` | a getUpdates body whose result array ends with `"update_id":5` and no later `}` or `"message":{` (a response cut off by the buffer cap) | stop scanning when no closing brace follows | not executed | TelegramParse.UpdatesAsWrittenDereferencesNull | TelegramParse.Updates |
| src/telegram_api.c:447-552 | the `"message":{` search runs from the update_id to the end of the text, so it can find a later update's message; the pass then resumes one byte past that message (line 552), beyond the later update's `"update_id":`, whose id never reaches `last_update_id` | `"update_id":5,"update_id":7,"message":{"message_id":1,"chat":{"id":2},"text":"hi"}` stores the message and leaves `last_update_id` at 5, so the next poll asks for offset 6 and is handed update 7 again | look for the message, and resume, only before the next `"update_id":` key, so every update's id is counted | not executed | TelegramParse.UpdatesAsWrittenSkipsUpdateId | TelegramParse.EveryUpdateIdCounted |
| lcdspi/lcdspi.c:414-433 | each scrolled row is read by `read_buffer_spi` as three bytes per pixel into `scrollbuff[LCD_WIDTH * 3]`; `draw_buffer_spi` reads the same buffer as `uint16_t` RGB565 pixels (line 170), so it takes the first two bytes of the row as pixel 0 | a row whose first pixel is pure red (FF 00 00) is redrawn with a first pixel of 00 1C FF, blue, assuming the panel reads back (after the swap) exactly the bytes that were sent; a panel that returns 6-bit components in 18-bit mode (FC 00 00) gives 00 1C E7 instead, still not red; every moved row is garbled either way | pack each read pixel to RGB565 before drawing, so that a drawn row moves unchanged | not executed | LcdSpi.ScrolledRowAsWrittenGarbles | LcdSpi.ScrolledRowKeepsDrawnRow |
