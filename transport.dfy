/**
 * The transport side shared by the HTTPS clients (src/telegram_api.c,
 * src/weather_api.c): the response buffer that is at once the staging area
 * the TLS engine pulls ciphertext from (ssl_recv_callback pops its front)
 * and the accumulator decrypted bytes are appended to, and the outcomes of
 * the network and TLS calls, which the model takes as parameters.
 */
module Transport {
  import opened Bytes

  /** What dns_gethostbyname answered. */
  datatype Lookup = Cached | InProgress | LookupFailed

  /** What one mbedtls_ssl_handshake call returned. */
  datatype Handshake = Done | WantRead | WantWrite | Fatal

  /**
   * One call into the TLS engine during a receive event: the sizes it asked
   * the pull callback for, in order, the handshake result (when the
   * handshake is not done yet) or the plaintext mbedtls_ssl_read produced
   * (empty when it returned 0 or an error code), and whether the request
   * write succeeded when the handshake completes.
   */
  datatype TlsCall = TlsCall(pulls: seq<nat>, handshake: Handshake, plaintext: seq<byte>, writeOk: bool)

  /** The request written by a handshake step: once, when the handshake completes and the write succeeds. */
  function Written(tls: TlsCall, request: seq<byte>): (r: seq<seq<byte>>)
    ensures |r| <= 1
    ensures r == [request] <==> tls.handshake == Done && tls.writeOk
  {
    if tls.handshake == Done && tls.writeOk then [request] else []
  }

  /** The whole response array and the count of bytes held in it. */
  datatype Staging = Staging(bytes: seq<byte>, len: nat)

  /**
   * The shape every reachable buffer has: the array's size, a length that
   * leaves room for a terminator, and a last byte that is always NUL (no
   * append ever reaches it with data), so C-string scans stop inside it.
   */
  ghost predicate Fits(s: Staging, cap: nat)
  {
    2 <= cap && |s.bytes| == cap && s.len < cap && s.bytes[cap - 1] == 0
  }

  /** The bytes held, oldest first. */
  function Held(s: Staging): seq<byte>
    requires s.len <= |s.bytes|
  {
    s.bytes[..s.len]
  }

  /**
   * ssl_recv_callback asked for `want` bytes: k = min(want, len) bytes leave
   * the front, the rest is moved down, and the tail of the array keeps its
   * old bytes.
   */
  function Popped(s: Staging, want: nat): (r: Staging)
    requires s.len <= |s.bytes|
    ensures |r.bytes| == |s.bytes| && r.len == s.len - Min(want, s.len)
  {
    var k := Min(want, s.len);
    Staging(s.bytes[k..s.len] + s.bytes[s.len - k..], s.len - k)
  }

  /** The pulls of one TLS call, in order. */
  function PoppedAll(s: Staging, wants: seq<nat>): (r: Staging)
    requires s.len <= |s.bytes|
    ensures |r.bytes| == |s.bytes| && r.len <= s.len
    decreases |wants|
  {
    if wants == [] then s else PoppedAll(Popped(s, wants[0]), wants[1..])
  }

  /**
   * A receive event's bytes appended for the TLS engine, truncated so that
   * the length never exceeds cap - 1.
   */
  function WithCiphertext(s: Staging, data: seq<byte>, cap: nat): (r: Staging)
    requires s.len < cap == |s.bytes|
    ensures |r.bytes| == cap
  {
    var n := Min(|data|, cap - 1 - s.len);
    Staging(s.bytes[..s.len] + data[..n] + s.bytes[s.len + n..], s.len + n)
  }

  /**
   * Decrypted bytes appended all or nothing: only a non-empty chunk that
   * leaves room for the terminator is stored, and a NUL follows it.
   */
  function WithPlaintext(s: Staging, data: seq<byte>, cap: nat): (r: Staging)
    requires s.len < cap == |s.bytes|
    ensures |r.bytes| == cap
  {
    if 0 < |data| && s.len + |data| < cap then
      Staging(s.bytes[..s.len] + data + [0] + s.bytes[s.len + |data| + 1..], s.len + |data|)
    else s
  }

  /** The whole array zeroed and the length reset (memset at a new request). */
  function Cleared(cap: nat): (r: Staging)
    ensures |r.bytes| == cap && r.len == 0
  {
    Staging(seq(cap, _ => 0), 0)
  }

  /**
   * The staging pop: an empty buffer is left alone, and otherwise the bytes
   * handed out are the first k held and the bytes still held are exactly the
   * rest, in order.
   */
  lemma PopTakesFront(s: Staging, want: nat, cap: nat)
    requires Fits(s, cap)
    ensures Fits(Popped(s, want), cap)
    ensures s.len == 0 ==> Popped(s, want) == s
    ensures Held(s) == Held(s)[..Min(want, s.len)] + Held(Popped(s, want))
  {
    var k := Min(want, s.len);
    var r := Popped(s, want);
    assert r.bytes[cap - 1] == s.bytes[cap - 1];
    assert Held(r) == Held(s)[k..];
  }

  /** A sequence of pulls takes bytes off the front only. */
  lemma {:induction false} PoppedAllTakesFront(s: Staging, wants: seq<nat>, cap: nat)
    requires Fits(s, cap)
    ensures Fits(PoppedAll(s, wants), cap)
    ensures Held(PoppedAll(s, wants)) == Held(s)[s.len - PoppedAll(s, wants).len..]
    decreases |wants|
  {
    if wants != [] {
      var s1 := Popped(s, wants[0]);
      PopTakesFront(s, wants[0], cap);
      PoppedAllTakesFront(s1, wants[1..], cap);
      var r := PoppedAll(s1, wants[1..]);
      assert Held(r) == Held(s1)[s1.len - r.len..];
      assert Held(s1) == Held(s)[s.len - s1.len..];
    }
  }

  /** A ciphertext append keeps what was held, adds a prefix of the data and never fills the last byte. */
  lemma CiphertextAppendBounded(s: Staging, data: seq<byte>, cap: nat)
    requires Fits(s, cap)
    ensures Fits(WithCiphertext(s, data, cap), cap)
    ensures WithCiphertext(s, data, cap).len <= cap - 1
    ensures Held(WithCiphertext(s, data, cap)) == Held(s) + data[..Min(|data|, cap - 1 - s.len)]
    ensures s.len + |data| <= cap - 1 ==> Held(WithCiphertext(s, data, cap)) == Held(s) + data
  {
    var r := WithCiphertext(s, data, cap);
    var n := Min(|data|, cap - 1 - s.len);
    assert r.bytes[cap - 1] == s.bytes[cap - 1];
    assert Held(r) == Held(s) + data[..n];
  }

  /** A plaintext append is all or nothing and leaves the held bytes NUL-terminated when it happens. */
  lemma PlaintextAppendAllOrNothing(s: Staging, data: seq<byte>, cap: nat)
    requires Fits(s, cap)
    ensures Fits(WithPlaintext(s, data, cap), cap)
    ensures var r := WithPlaintext(s, data, cap);
            (Held(r) == Held(s) + data && r.bytes[r.len] == 0 && 0 < |data| && s.len + |data| < cap)
            || (r == s && (|data| == 0 || s.len + |data| >= cap))
  {
    var r := WithPlaintext(s, data, cap);
    if 0 < |data| && s.len + |data| < cap {
      assert r.bytes[cap - 1] == 0;
      assert Held(r) == Held(s) + data;
    }
  }

  /**
   * The one buffer serves both roles, so after a decrypted chunk has been
   * stored the next pull hands those decrypted bytes, not the newly arrived
   * ciphertext, back to the TLS engine.
   */
  lemma PullAfterPlaintextReturnsPlaintext(s: Staging, plain: seq<byte>, cipher: seq<byte>, want: nat, cap: nat)
    requires Fits(s, cap) && s.len == 0
    requires 0 < |plain| < cap && 0 < want <= |plain|
    ensures var t := WithCiphertext(WithPlaintext(s, plain, cap), cipher, cap);
            Held(t)[..Min(want, t.len)] == plain[..want]
  {
    var p := WithPlaintext(s, plain, cap);
    PlaintextAppendAllOrNothing(s, plain, cap);
    assert Held(p) == plain;
    CiphertextAppendBounded(p, cipher, cap);
    var t := WithCiphertext(p, cipher, cap);
    assert Held(t)[..|plain|] == plain;
  }

  /** The array after memmove(buf, buf + k, len - k). */
  lemma ShiftedImage(a: seq<byte>, b: seq<byte>, k: nat, len: nat)
    requires k <= len <= |a| == |b|
    requires forall j :: 0 <= j < len - k ==> b[j] == a[j + k]
    requires forall j :: len - k <= j < |b| ==> b[j] == a[j]
    ensures b == a[k..len] + a[len - k..]
  {
  }

  /**
   * g_response_buffer with g_response_len: a fixed array of `capacity`
   * bytes whose front `len` bytes are held.
   */
  class ResponseBuffer {
    const capacity: nat
    const buffer: array<byte>
    var len: nat

    ghost predicate Valid()
      reads this, buffer
    {
      Fits(Image(), capacity)
    }

    function Image(): Staging
      reads this, buffer
    {
      Staging(buffer[..], len)
    }

    /** A statically zero-initialised buffer. */
    constructor (cap: nat)
      requires 2 <= cap
      ensures Valid() && capacity == cap && Image() == Cleared(cap) && fresh(buffer)
    {
      capacity := cap;
      buffer := new byte[cap](_ => 0);
      len := 0;
      new;
      assert buffer[..] == seq(cap, _ => 0);
    }

    /** g_response_len = 0 followed by memset of the whole array. */
    method Reset()
      requires Valid()
      modifies this, buffer
      ensures Valid() && Image() == Cleared(capacity)
    {
      len := 0;
      var i := 0;
      while i < buffer.Length
        invariant 0 <= i <= buffer.Length && len == 0
        invariant forall j :: 0 <= j < i ==> buffer[j] == 0
      {
        buffer[i] := 0;
        i := i + 1;
      }
      assert buffer[..] == seq(capacity, _ => 0);
    }

    /** g_response_len = 0 when the connection closes; the bytes stay. */
    method Forget()
      requires Valid()
      modifies this
      ensures Valid() && Image() == Staging(old(buffer[..]), 0)
    {
      len := 0;
    }

    /**
     * ssl_recv_callback: `wantRead` (MBEDTLS_ERR_SSL_WANT_READ) exactly when
     * nothing is held; otherwise the first min(want, len) held bytes, shifted
     * out with memmove.
     */
    method Pull(want: nat) returns (wantRead: bool, got: seq<byte>)
      requires Valid()
      modifies this, buffer
      ensures Valid() && Image() == Popped(old(Image()), want)
      ensures wantRead <==> old(len) == 0
      ensures got == old(buffer[..len])[..Min(want, old(len))]
    {
      wantRead := len == 0;
      var k := Min(want, len);
      got := buffer[..k];
      Consume(k);
    }

    /** memmove(buffer, buffer + k, len - k) and len -= k: the first k held bytes leave. */
    method Consume(k: nat)
      requires Valid() && k <= len
      modifies this, buffer
      ensures Valid() && Image() == Popped(old(Image()), k)
    {
      PopTakesFront(Image(), k, capacity);
      MoveDown(k);
      len := len - k;
    }

    /** The memmove alone: the held bytes past the first k move to the front. */
    method MoveDown(k: nat)
      requires k <= len <= buffer.Length
      modifies buffer
      ensures buffer[..] == old(buffer[..])[k..len] + old(buffer[..])[len - k..]
    {
      var i := 0;
      while i < len - k
        invariant 0 <= i <= len - k
        invariant forall j :: 0 <= j < i ==> buffer[j] == old(buffer[j + k])
        invariant forall j :: i <= j < buffer.Length ==> buffer[j] == old(buffer[j])
      {
        buffer[i] := buffer[i + k];
        i := i + 1;
      }
      ShiftedImage(old(buffer[..]), buffer[..], k, len);
    }

    /** Every pull one TLS call makes, in order. */
    method PullAll(wants: seq<nat>)
      requires Valid()
      modifies this, buffer
      ensures Valid() && Image() == PoppedAll(old(Image()), wants)
    {
      var i := 0;
      while i < |wants|
        invariant 0 <= i <= |wants| && Valid()
        invariant PoppedAll(old(Image()), wants) == PoppedAll(Image(), wants[i..])
      {
        assert wants[i..][1..] == wants[i + 1..];
        var _, _ := Pull(wants[i]);
        i := i + 1;
      }
    }

    /** The ciphertext copy of a receive event (pbuf_copy_partial), truncated to capacity - 1. */
    method AppendCiphertext(data: seq<byte>)
      requires Valid()
      modifies this, buffer
      ensures Valid() && Image() == WithCiphertext(old(Image()), data, capacity)
    {
      CiphertextAppendBounded(Image(), data, capacity);
      var n := Min(|data|, capacity - 1 - len);
      CopyIn(len, data[..n]);
      len := len + n;
    }

    /** The decrypted chunk of a receive event, stored only when it fits, then NUL-terminated. */
    method AppendPlaintext(data: seq<byte>)
      requires Valid()
      modifies this, buffer
      ensures Valid() && Image() == WithPlaintext(old(Image()), data, capacity)
    {
      PlaintextAppendAllOrNothing(Image(), data, capacity);
      if 0 < |data| && len + |data| < capacity {
        CopyIn(len, data + [0]);
        len := len + |data|;
      }
    }

    /** memcpy(buffer + at, data, |data|). */
    method CopyIn(at: nat, data: seq<byte>)
      requires at + |data| <= buffer.Length
      modifies buffer
      ensures buffer[..] == old(buffer[..at]) + data + old(buffer[at + |data|..])
    {
      var i := 0;
      while i < |data|
        invariant 0 <= i <= |data|
        invariant forall j :: 0 <= j < i ==> buffer[at + j] == data[j]
        invariant forall j :: 0 <= j < buffer.Length && !(at <= j < at + i) ==> buffer[j] == old(buffer[j])
      {
        buffer[at + i] := data[i];
        i := i + 1;
      }
      assert buffer[..] == old(buffer[..at]) + data + old(buffer[at + |data|..]);
    }
  }
}
