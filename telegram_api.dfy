/**
 * The Telegram client engine of src/telegram_api.c as one object: the bot
 * data the UI reads, the request being sent, the TLS flags, and the 8192-byte
 * response buffer that is both the ciphertext staging area and the
 * plaintext accumulator. The lwIP and mbedTLS callbacks are its methods; what
 * the network and the TLS engine answer is passed in as parameters.
 */
module TelegramApi {
  import opened Bytes
  import opened Transport
  import opened TextScan
  import opened TelegramParse
  import opened TelegramRequest

  /** g_response_buffer is char[8192]. */
  const RESPONSE_SIZE: nat := 8192
  /** mbedtls_ssl_read is given sizeof(decrypt_buf) - 1 bytes of room. */
  const DECRYPT_MAX: nat := 1023

  /** Connection failed */
  const CONNECTION_FAILED: seq<byte> := [67, 111, 110, 110, 101, 99, 116, 105, 111, 110, 32, 102, 97, 105, 108, 101, 100]
  /** Out of TCP connections */
  const OUT_OF_CONNECTIONS: seq<byte> := [79, 117, 116, 32, 111, 102, 32, 84, 67, 80, 32, 99, 111, 110, 110, 101, 99, 116, 105, 111, 110, 115]
  /** DNS lookup failed */
  const DNS_FAILED: seq<byte> := [68, 78, 83, 32, 108, 111, 111, 107, 117, 112, 32, 102, 97, 105, 108, 101, 100]
  /** Connection error */
  const CONNECTION_ERROR: seq<byte> := [67, 111, 110, 110, 101, 99, 116, 105, 111, 110, 32, 101, 114, 114, 111, 114]
  /** SSL init failed */
  const SSL_INIT_FAILED: seq<byte> := [83, 83, 76, 32, 105, 110, 105, 116, 32, 102, 97, 105, 108, 101, 100]
  /** TLS handshake failed */
  const HANDSHAKE_FAILED: seq<byte> := [84, 76, 83, 32, 104, 97, 110, 100, 115, 104, 97, 107, 101, 32, 102, 97, 105, 108, 101, 100]
  /** Failed to send request */
  const REQUEST_NOT_SENT: seq<byte> := [70, 97, 105, 108, 101, 100, 32, 116, 111, 32, 115, 101, 110, 100, 32, 114, 101, 113, 117, 101, 115, 116]
  /** Receive error */
  const RECEIVE_ERROR: seq<byte> := [82, 101, 99, 101, 105, 118, 101, 32, 101, 114, 114, 111, 114]
  /** Network error */
  const NETWORK_ERROR: seq<byte> := [78, 101, 116, 119, 111, 114, 107, 32, 101, 114, 114, 111, 114]

  /** The bot data after an error path: ERROR with its message. */
  function Failed(d: TelegramData, message: seq<byte>): (r: TelegramData)
    ensures r.state == Error && r.errorMessage == message
    ensures r.messages == d.messages && r.lastUpdateId == d.lastUpdateId && r.pollingActive == d.pollingActive
  {
    d.(state := Error, errorMessage := message)
  }

  /** What telegram_dns_found does to the bot data once an address is known. */
  function Connecting(d: TelegramData, pcbOk: bool, connectOk: bool): TelegramData
  {
    if !pcbOk then Failed(d, OUT_OF_CONNECTIONS)
    else if !connectOk then Failed(d, CONNECTION_FAILED)
    else d
  }

  /** What one handshake step does to the bot data: a fatal result or a failed request write is an error. */
  function AfterHandshake(d: TelegramData, tls: TlsCall): TelegramData
  {
    match tls.handshake
    case Fatal => Failed(d, HANDSHAKE_FAILED)
    case Done => if tls.writeOk then d else Failed(d, REQUEST_NOT_SENT)
    case _ => d
  }

  class TelegramClient {
    /** g_response_buffer and g_response_len. */
    const resp: ResponseBuffer
    /** g_telegram_data. */
    var data: TelegramData
    /** g_current_request_type. */
    var requestType: RequestType
    /** The C string in g_request_buffer. */
    var request: seq<byte>
    /** The C string in g_bot_token. */
    var botToken: seq<byte>
    var sslInitialized: bool
    var handshakeDone: bool
    /** g_tcp_pcb != NULL. */
    var pcbOpen: bool
    /** Every request handed to mbedtls_ssl_write, in order. */
    var sent: seq<seq<byte>>

    /**
     * The buffer keeps its shape, at most 15 well-formed messages are held,
     * and the error message fits error_message.
     */
    ghost predicate Valid()
      reads this, resp, resp.buffer
    {
      resp.Valid() && resp.capacity == RESPONSE_SIZE
      && |data.messages| <= MAX_TELEGRAM_MESSAGES
      && (forall i :: 0 <= i < |data.messages| ==> WellFormed(data.messages[i]))
      && |data.errorMessage| <= ERROR_MAX
      && |botToken| <= TOKEN_MAX
    }

    /** The zero-initialised statics followed by telegram_api_init. */
    constructor ()
      ensures Valid() && fresh(resp) && fresh(resp.buffer)
      ensures data == TelegramData([], Idle, [], 0, false)
      ensures resp.Image() == Cleared(RESPONSE_SIZE)
      ensures requestType == GetUpdatesRequest && request == [] && botToken == [] && sent == []
      ensures !sslInitialized && !handshakeDone && !pcbOpen
    {
      resp := new ResponseBuffer(RESPONSE_SIZE);
      data := TelegramData([], Idle, [], 0, false);
      requestType := GetUpdatesRequest;
      request := [];
      botToken := [];
      sslInitialized := false;
      handshakeDone := false;
      pcbOpen := false;
      sent := [];
    }

    /**
     * telegram_api_init: the bot data is zeroed and both TLS flags cleared;
     * the response buffer, the request and the connection are left as they are.
     */
    method Init()
      requires Valid()
      modifies this
      ensures Valid()
      ensures data == TelegramData([], Idle, [], 0, false)
      ensures !sslInitialized && !handshakeDone
      ensures requestType == old(requestType) && request == old(request) && botToken == old(botToken)
      ensures pcbOpen == old(pcbOpen) && sent == old(sent)
    {
      data := TelegramData([], Idle, [], 0, false);
      sslInitialized := false;
      handshakeDone := false;
    }

    /**
     * telegram_dns_found: with an address, any open connection is aborted and
     * a new one is created and connected; without one, "DNS lookup failed".
     */
    method OnDnsFound(resolved: bool, pcbOk: bool, connectOk: bool)
      requires Valid()
      modifies `data, `pcbOpen
      ensures Valid()
      ensures resolved ==> data == Connecting(old(data), pcbOk, connectOk) && pcbOpen == (pcbOk && connectOk)
      ensures !resolved ==> data == Failed(old(data), DNS_FAILED) && pcbOpen == old(pcbOpen)
    {
      if resolved {
        pcbOpen := false;
        if pcbOk {
          if connectOk {
            pcbOpen := true;
          } else {
            data := Failed(data, CONNECTION_FAILED);
          }
        } else {
          data := Failed(data, OUT_OF_CONNECTIONS);
        }
      } else {
        data := Failed(data, DNS_FAILED);
      }
    }

    /** The dns_gethostbyname call that ends both request functions. */
    method StartLookup(lookup: Lookup, pcbOk: bool, connectOk: bool)
      requires Valid()
      modifies `data, `pcbOpen
      ensures Valid()
      ensures lookup == Cached ==> data == Connecting(old(data), pcbOk, connectOk) && pcbOpen == (pcbOk && connectOk)
      ensures lookup == InProgress ==> data == old(data) && pcbOpen == old(pcbOpen)
      ensures lookup == LookupFailed ==> data == Failed(old(data), DNS_FAILED) && pcbOpen == old(pcbOpen)
    {
      if lookup == Cached {
        OnDnsFound(true, pcbOk, connectOk);
      } else if lookup == LookupFailed {
        data := Failed(data, DNS_FAILED);
      }
    }

    /**
     * telegram_send_message, given the token and text as C strings: SENDING, the form-encoded POST request, the
     * response buffer zeroed, then the lookup. A request already in flight is
     * not refused.
     */
    method SendMessage(token: seq<byte>, chatId: int, text: seq<byte>, lookup: Lookup, pcbOk: bool, connectOk: bool)
      requires Valid() && NoNul(token) && NoNul(text)
      modifies this, resp, resp.buffer
      ensures Valid()
      ensures botToken == token[..Min(|token|, TOKEN_MAX)]
      ensures requestType == SendMessageRequest && request == SendRequest(token, chatId, text)
      ensures resp.Image() == Cleared(RESPONSE_SIZE)
      ensures var sending := old(data).(state := Sending);
              (lookup == Cached ==> data == Connecting(sending, pcbOk, connectOk) && pcbOpen == (pcbOk && connectOk))
              && (lookup == InProgress ==> data == sending && pcbOpen == old(pcbOpen))
              && (lookup == LookupFailed ==> data == Failed(sending, DNS_FAILED) && pcbOpen == old(pcbOpen))
      ensures sslInitialized == old(sslInitialized) && handshakeDone == old(handshakeDone) && sent == old(sent)
    {
      var req := FormatSendRequest(token, chatId, text);
      Prepare(token, Sending, SendMessageRequest, req);
      StartLookup(lookup, pcbOk, connectOk);
    }

    /**
     * telegram_poll_updates, given the token as a C string: RECEIVING, the getUpdates request whose offset is
     * one past the last update id, the response buffer zeroed, then the
     * lookup. The stored messages are not cleared.
     */
    method PollUpdates(token: seq<byte>, lookup: Lookup, pcbOk: bool, connectOk: bool)
      requires Valid() && NoNul(token)
      modifies this, resp, resp.buffer
      ensures Valid()
      ensures botToken == token[..Min(|token|, TOKEN_MAX)]
      ensures requestType == GetUpdatesRequest && request == PollRequest(token, old(data.lastUpdateId))
      ensures resp.Image() == Cleared(RESPONSE_SIZE)
      ensures var receiving := old(data).(state := Receiving);
              (lookup == Cached ==> data == Connecting(receiving, pcbOk, connectOk) && pcbOpen == (pcbOk && connectOk))
              && (lookup == InProgress ==> data == receiving && pcbOpen == old(pcbOpen))
              && (lookup == LookupFailed ==> data == Failed(receiving, DNS_FAILED) && pcbOpen == old(pcbOpen))
      ensures sslInitialized == old(sslInitialized) && handshakeDone == old(handshakeDone) && sent == old(sent)
    {
      Prepare(token, Receiving, GetUpdatesRequest, PollRequest(token, data.lastUpdateId));
      StartLookup(lookup, pcbOk, connectOk);
    }

    /** The common start of both requests: token, state, request type and text, and the zeroed buffer. */
    method Prepare(token: seq<byte>, state: TelegramState, rt: RequestType, req: seq<byte>)
      requires Valid()
      modifies `botToken, `data, `requestType, `request, resp, resp.buffer
      ensures Valid()
      ensures botToken == token[..Min(|token|, TOKEN_MAX)] && data == old(data).(state := state)
      ensures requestType == rt && request == req && resp.Image() == Cleared(RESPONSE_SIZE)
    {
      botToken := token[..Min(|token|, TOKEN_MAX)];
      data := data.(state := state);
      requestType := rt;
      request := req;
      resp.Reset();
    }

    /**
     * One mbedtls_ssl_handshake call while the handshake is not done: the
     * engine pulls ciphertext from the front of the buffer; Done sets the
     * flag and writes the request; WantRead and WantWrite change nothing
     * else; any other result is "TLS handshake failed".
     */
    method HandshakeStep(tls: TlsCall)
      requires Valid() && !handshakeDone
      modifies this, resp, resp.buffer
      ensures Valid()
      ensures resp.Image() == PoppedAll(old(resp.Image()), tls.pulls)
      ensures handshakeDone <==> tls.handshake == Done
      ensures data == AfterHandshake(old(data), tls) && sent == old(sent) + Written(tls, request)
      ensures requestType == old(requestType) && request == old(request) && botToken == old(botToken)
      ensures sslInitialized == old(sslInitialized) && pcbOpen == old(pcbOpen)
    {
      resp.PullAll(tls.pulls);
      match tls.handshake
      case Done =>
        handshakeDone := true;
        if tls.writeOk {
          sent := sent + [request];
        } else {
          data := Failed(data, REQUEST_NOT_SENT);
        }
      case Fatal =>
        data := Failed(data, HANDSHAKE_FAILED);
      case _ =>
    }

    /**
     * tcp_client_connected: a connection error is reported; otherwise TLS is
     * initialised once, the session is reset and one handshake step runs.
     */
    method OnConnected(connectOk: bool, sslInitOk: bool, tls: TlsCall)
      requires Valid()
      modifies this, resp, resp.buffer
      ensures Valid()
      ensures !connectOk ==> data == Failed(old(data), CONNECTION_ERROR) && sslInitialized == old(sslInitialized)
      ensures !connectOk || (!old(sslInitialized) && !sslInitOk) ==>
                resp.Image() == old(resp.Image()) && handshakeDone == old(handshakeDone) && sent == old(sent)
      ensures connectOk && !old(sslInitialized) && !sslInitOk ==> data == Failed(old(data), SSL_INIT_FAILED) && !sslInitialized
      ensures connectOk && (old(sslInitialized) || sslInitOk) ==>
                sslInitialized
                && resp.Image() == PoppedAll(old(resp.Image()), tls.pulls)
                && (handshakeDone <==> tls.handshake == Done)
                && data == AfterHandshake(old(data), tls) && sent == old(sent) + Written(tls, request)
      ensures requestType == old(requestType) && request == old(request) && botToken == old(botToken)
      ensures pcbOpen == old(pcbOpen)
    {
      if !connectOk {
        data := Failed(data, CONNECTION_ERROR);
        return;
      }
      if !sslInitialized {
        if !sslInitOk {
          data := Failed(data, SSL_INIT_FAILED);
          return;
        }
        sslInitialized := true;
      }
      handshakeDone := false;
      HandshakeStep(tls);
    }

    /**
     * tcp_client_recv with data: the segment is appended for the TLS engine
     * (cut so the length stays below 8192); before the handshake is done one
     * handshake step runs, after it one mbedtls_ssl_read whose plaintext is
     * appended to the same buffer when it fits.
     */
    method OnData(bytes: seq<byte>, tls: TlsCall)
      requires Valid() && |tls.plaintext| <= DECRYPT_MAX
      modifies this, resp, resp.buffer
      ensures Valid()
      ensures var staged := WithCiphertext(old(resp.Image()), bytes, RESPONSE_SIZE);
              if old(handshakeDone) then
                resp.Image() == WithPlaintext(PoppedAll(staged, tls.pulls), tls.plaintext, RESPONSE_SIZE)
                && handshakeDone && data == old(data) && sent == old(sent)
              else
                resp.Image() == PoppedAll(staged, tls.pulls)
                && (handshakeDone <==> tls.handshake == Done)
                && data == AfterHandshake(old(data), tls) && sent == old(sent) + Written(tls, request)
      ensures requestType == old(requestType) && request == old(request) && botToken == old(botToken)
      ensures sslInitialized == old(sslInitialized) && pcbOpen == old(pcbOpen)
    {
      resp.AppendCiphertext(bytes);
      if !handshakeDone {
        HandshakeStep(tls);
      } else {
        resp.PullAll(tls.pulls);
        resp.AppendPlaintext(tls.plaintext);
      }
    }

    /** tcp_client_recv with an error: "Receive error"; the buffer is untouched. */
    method OnReceiveError()
      requires Valid()
      modifies this
      ensures Valid()
      ensures data == Failed(old(data), RECEIVE_ERROR)
      ensures requestType == old(requestType) && request == old(request) && botToken == old(botToken)
      ensures sslInitialized == old(sslInitialized) && handshakeDone == old(handshakeDone)
      ensures pcbOpen == old(pcbOpen) && sent == old(sent)
    {
      data := Failed(data, RECEIVE_ERROR);
    }

    /**
     * tcp_client_recv with no segment (the server closed): the connection is
     * closed, the response is parsed when any bytes are held, whatever
     * happened before (a getUpdates reply with the corrected update scan),
     * and the length and the handshake flag are reset.
     */
    method OnClose()
      requires Valid()
      modifies this, resp
      ensures Valid()
      ensures data == if old(resp.len) > 0 then Parsed(old(data), old(requestType), old(resp.buffer[..])) else old(data)
      ensures resp.Image() == Staging(old(resp.buffer[..]), 0)
      ensures !handshakeDone && !pcbOpen
      ensures requestType == old(requestType) && request == old(request) && botToken == old(botToken)
      ensures sslInitialized == old(sslInitialized) && sent == old(sent)
    {
      pcbOpen := false;
      if resp.len > 0 {
        data := ParseResponse(data, requestType, resp.buffer[..]);
      }
      resp.Forget();
      handshakeDone := false;
    }

    /** tcp_client_err: lwIP has freed the connection; "Network error". */
    method OnTcpError()
      requires Valid()
      modifies this
      ensures Valid()
      ensures data == Failed(old(data), NETWORK_ERROR) && !pcbOpen
      ensures requestType == old(requestType) && request == old(request) && botToken == old(botToken)
      ensures sslInitialized == old(sslInitialized) && handshakeDone == old(handshakeDone) && sent == old(sent)
    {
      data := Failed(data, NETWORK_ERROR);
      pcbOpen := false;
    }
  }
}
