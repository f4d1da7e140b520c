/**
 * The SNTP client of ntp_client.c: one 48-byte client request per sync,
 * the server's Transmit Timestamp taken from the reply and moved from the
 * 1900 epoch to the 1970 one (section 6 of RFC 5905), and the wall clock
 * extrapolated from the microsecond counter afterwards.
 */
module NtpClient {
  import opened Bytes

  const NTP_PACKET_SIZE: int := 48
  /** Seconds from 1900-01-01 to 1970-01-01. */
  const NTP_DELTA: int := 2208988800
  /** LI = 0 (no warning), VN = 4, Mode = 3 (client): section 7.3 of RFC 5905. */
  const LI_VN_MODE_CLIENT: byte := 0x23
  /** Offset of the Transmit Timestamp's seconds field in the packet. */
  const TX_TS_SEC_OFFSET: int := 40
  const US_PER_SECOND: int := 1000000
  const U64_MODULUS: int := 0x1_0000_0000_0000_0000

  datatype NtpState = Idle | Requesting | Synced | Error

  /** The request packet: zeroed, then the first byte set. */
  function RequestPacket(): (p: seq<byte>)
    ensures |p| == NTP_PACKET_SIZE
    ensures p[0] as int / 64 == 0 && p[0] as int / 8 % 8 == 4 && p[0] as int % 8 == 3
    ensures forall i :: 1 <= i < NTP_PACKET_SIZE ==> p[i] == 0
  {
    [LI_VN_MODE_CLIENT] + seq(NTP_PACKET_SIZE - 1, _ => 0)
  }

  /** ntohl_custom: reverses the byte order of a 32-bit word. */
  function Ntohl(n: bv32): (r: bv32)
    ensures r & 0xFF == n >> 24
    ensures (r >> 8) & 0xFF == (n >> 16) & 0xFF
    ensures (r >> 16) & 0xFF == (n >> 8) & 0xFF
    ensures r >> 24 == n & 0xFF
  {
    ((n & 0x000000FF) << 24) | ((n & 0x0000FF00) << 8)
      | ((n & 0x00FF0000) >> 8) | ((n & 0xFF000000) >> 24)
  }

  lemma NtohlInvolution(n: bv32)
    ensures Ntohl(Ntohl(n)) == n
  {
  }

  /** A 32-bit word loaded from four bytes in the RP2040's little-endian order. */
  function LoadHost32(b0: bv32, b1: bv32, b2: bv32, b3: bv32): bv32
  {
    b0 | (b1 << 8) | (b2 << 16) | (b3 << 24)
  }

  /** The same four bytes read in network (big-endian) order. */
  function LoadNetwork32(b0: bv32, b1: bv32, b2: bv32, b3: bv32): bv32
  {
    (b0 << 24) | (b1 << 16) | (b2 << 8) | b3
  }

  /** Swapping the host-order load yields the network-order value. */
  lemma NtohlOfHostLoad(b0: bv32, b1: bv32, b2: bv32, b3: bv32)
    requires b0 < 256 && b1 < 256 && b2 < 256 && b3 < 256
    ensures Ntohl(LoadHost32(b0, b1, b2, b3)) == LoadNetwork32(b0, b1, b2, b3)
  {
  }

  /** The Transmit Timestamp's seconds, big-endian at offset 40. */
  function TransmitSeconds(packet: seq<byte>): (s: int)
    requires |packet| >= NTP_PACKET_SIZE
    ensures 0 <= s < 0x1_0000_0000
  {
    var o := TX_TS_SEC_OFFSET;
    packet[o] as int * 0x100_0000 + packet[o + 1] as int * 0x1_0000
      + packet[o + 2] as int * 0x100 + packet[o + 3] as int
  }

  /**
   * (time_t)(ntp_time - NTP_DELTA): the 64-bit subtraction wraps, and the
   * cast back to a signed 64-bit time_t undoes the wrap, so the result is
   * the exact difference; times before 1970 come out negative.
   */
  function UnixSeconds(ntpTime: int): (t: int)
    requires 0 <= ntpTime < 0x1_0000_0000
    ensures t + NTP_DELTA == ntpTime
  {
    var wrapped := (ntpTime - NTP_DELTA) % U64_MODULUS;
    if wrapped >= U64_MODULUS / 2 then wrapped - U64_MODULUS else wrapped
  }

  /** Whether a callback is registered, and what it has been told so far. */
  datatype SendOutcome = SendOutcome(udpNewOk: bool, bindOk: bool, pbufOk: bool, sendOk: bool)

  /** What dns_gethostbyname reports at request time. */
  datatype DnsAnswer = DnsCached | DnsInProgress | DnsFailed

  class NtpClientState {
    var state: NtpState
    var syncTime: int
    var syncUs: int
    var hasCallback: bool
    /** The arguments of every callback invocation, oldest first. */
    var callbackLog: seq<bool>
    var pcbCreated: bool
    /** Every datagram handed to udp_sendto. */
    var sent: seq<seq<byte>>

    predicate Valid()
      reads this
    {
      0 <= syncUs < U64_MODULUS
    }

    /** The statically initialised globals. */
    constructor ()
      ensures Valid() && state == Idle && syncTime == 0 && syncUs == 0
      ensures !hasCallback && callbackLog == [] && !pcbCreated && sent == []
    {
      state := Idle;
      syncTime := 0;
      syncUs := 0;
      hasCallback := false;
      callbackLog := [];
      pcbCreated := false;
      sent := [];
    }

    /** ntp_client_init. */
    method Init()
      modifies this
      ensures Valid() && state == Idle && syncTime == 0 && syncUs == 0 && !hasCallback
      ensures callbackLog == old(callbackLog) && pcbCreated == old(pcbCreated) && sent == old(sent)
    {
      state := Idle;
      syncTime := 0;
      syncUs := 0;
      hasCallback := false;
    }

    /** ntp_client_set_callback (NULL unregisters). */
    method SetCallback(present: bool)
      modifies this
      ensures hasCallback == present
      ensures state == old(state) && syncTime == old(syncTime) && syncUs == old(syncUs)
      ensures callbackLog == old(callbackLog) && pcbCreated == old(pcbCreated) && sent == old(sent)
    {
      hasCallback := present;
    }

    /** Every failure path: ERROR, and the callback told `false` if there is one. */
    method Fail()
      modifies this
      ensures state == Error
      ensures callbackLog == old(callbackLog) + (if hasCallback then [false] else [])
      ensures hasCallback == old(hasCallback) && syncTime == old(syncTime) && syncUs == old(syncUs)
      ensures pcbCreated == old(pcbCreated) && sent == old(sent)
    {
      state := Error;
      if hasCallback {
        callbackLog := callbackLog + [false];
      }
    }

    /**
     * ntp_send_request: the UDP endpoint is created and bound once; then a
     * fresh request is sent. Each lwIP step's success is given by `o`.
     */
    method SendRequest(o: SendOutcome)
      modifies this
      ensures hasCallback == old(hasCallback) && syncTime == old(syncTime) && syncUs == old(syncUs)
      ensures var created := old(pcbCreated) || (o.udpNewOk && o.bindOk);
              var ok := created && o.pbufOk && o.sendOk;
              pcbCreated == created
              && (ok ==> state == Requesting && callbackLog == old(callbackLog))
              && (!ok ==> state == Error
                          && callbackLog == old(callbackLog) + (if hasCallback then [false] else []))
              && sent == old(sent) + (if created && o.pbufOk then [RequestPacket()] else [])
    {
      if !pcbCreated {
        if !o.udpNewOk {
          Fail();
          return;
        }
        if !o.bindOk {
          Fail();
          return;
        }
        pcbCreated := true;
      }
      if !o.pbufOk {
        Fail();
        return;
      }
      sent := sent + [RequestPacket()];
      if o.sendOk {
        state := Requesting;
      } else {
        Fail();
      }
    }

    /** ntp_dns_found: send on success, fail otherwise. */
    method OnDnsFound(resolved: bool, o: SendOutcome)
      modifies this
      ensures !resolved ==> state == Error && sent == old(sent) && pcbCreated == old(pcbCreated)
                            && callbackLog == old(callbackLog) + (if hasCallback then [false] else [])
      ensures resolved ==>
                var created := old(pcbCreated) || (o.udpNewOk && o.bindOk);
                var ok := created && o.pbufOk && o.sendOk;
                pcbCreated == created
                && (ok ==> state == Requesting && callbackLog == old(callbackLog))
                && (!ok ==> state == Error
                            && callbackLog == old(callbackLog) + (if hasCallback then [false] else []))
                && sent == old(sent) + (if created && o.pbufOk then [RequestPacket()] else [])
      ensures hasCallback == old(hasCallback) && syncTime == old(syncTime) && syncUs == old(syncUs)
    {
      if resolved {
        SendRequest(o);
      } else {
        Fail();
      }
    }

    /**
     * ntp_client_request_server: ignored while a request is in flight;
     * otherwise REQUESTING and a DNS lookup, which may answer at once.
     */
    method RequestServer(dns: DnsAnswer, o: SendOutcome)
      modifies this
      ensures old(state) == Requesting ==>
                state == Requesting && sent == old(sent) && callbackLog == old(callbackLog)
                && pcbCreated == old(pcbCreated)
      ensures old(state) != Requesting && dns == DnsInProgress ==>
                state == Requesting && sent == old(sent) && callbackLog == old(callbackLog)
                && pcbCreated == old(pcbCreated)
      ensures old(state) != Requesting && dns == DnsFailed ==>
                state == Error && sent == old(sent) && pcbCreated == old(pcbCreated)
                && callbackLog == old(callbackLog) + (if hasCallback then [false] else [])
      ensures old(state) != Requesting && dns == DnsCached ==>
                var created := old(pcbCreated) || (o.udpNewOk && o.bindOk);
                var ok := created && o.pbufOk && o.sendOk;
                pcbCreated == created
                && (ok ==> state == Requesting && callbackLog == old(callbackLog))
                && (!ok ==> state == Error
                            && callbackLog == old(callbackLog) + (if hasCallback then [false] else []))
                && sent == old(sent) + (if created && o.pbufOk then [RequestPacket()] else [])
      ensures hasCallback == old(hasCallback) && syncTime == old(syncTime) && syncUs == old(syncUs)
    {
      if state == Requesting {
        return;
      }
      state := Requesting;
      match dns
      case DnsCached => SendRequest(o);
      case DnsInProgress =>
      case DnsFailed => Fail();
    }

    /**
     * ntp_recv_callback. Short datagrams are ignored. Otherwise the sync
     * point is recorded; `gmtimeOk` says whether the C library could turn
     * the time into a calendar date.
     */
    method OnReceive(payload: seq<byte>, nowUs: int, gmtimeOk: bool)
      requires 0 <= nowUs < U64_MODULUS
      modifies this
      ensures |payload| < NTP_PACKET_SIZE ==>
                state == old(state) && syncTime == old(syncTime) && syncUs == old(syncUs)
                && callbackLog == old(callbackLog) && Valid() == old(Valid())
      ensures |payload| >= NTP_PACKET_SIZE ==>
                Valid() && syncTime + NTP_DELTA == TransmitSeconds(payload) && syncUs == nowUs
                && state == (if gmtimeOk then Synced else Error)
                && callbackLog == old(callbackLog) + (if hasCallback then [gmtimeOk] else [])
      ensures hasCallback == old(hasCallback) && pcbCreated == old(pcbCreated) && sent == old(sent)
    {
      if |payload| >= NTP_PACKET_SIZE {
        var ntpTime := TransmitSeconds(payload);
        syncTime := UnixSeconds(ntpTime);
        syncUs := nowUs;
        if gmtimeOk {
          state := Synced;
          if hasCallback {
            callbackLog := callbackLog + [true];
          }
        } else {
          Fail();
        }
      }
    }

    /**
     * ntp_client_get_timestamp: 0 until synced; afterwards the sync time
     * plus the whole seconds elapsed on the (wrapping 64-bit) microsecond counter.
     */
    function Timestamp(nowUs: int): (r: int)
      reads this
      ensures state != Synced || syncUs == 0 ==> r == 0
      ensures state == Synced && syncUs != 0 ==> syncTime <= r
      ensures Valid() && state == Synced && syncUs != 0 && syncUs <= nowUs < U64_MODULUS ==>
                r - syncTime == (nowUs - syncUs) / US_PER_SECOND
    {
      if state != Synced || syncUs == 0 then 0
      else syncTime + ((nowUs - syncUs) % U64_MODULUS) / US_PER_SECOND
    }

    /** The clock never runs backwards while the counter moves forwards. */
    lemma TimestampMonotone(now1: int, now2: int)
      requires Valid() && syncUs <= now1 <= now2 < U64_MODULUS
      ensures Timestamp(now1) <= Timestamp(now2)
    {
      if state == Synced && syncUs != 0 {
        assert (now1 - syncUs) % U64_MODULUS == now1 - syncUs;
        assert (now2 - syncUs) % U64_MODULUS == now2 - syncUs;
        DivMonotone(now1 - syncUs, now2 - syncUs);
      }
    }

    /** k seconds further on the counter, the clock reads exactly k seconds more. */
    lemma TimestampAdvances(nowUs: int, k: nat)
      requires Valid() && state == Synced && syncUs != 0
      requires syncUs <= nowUs && nowUs + k * US_PER_SECOND < U64_MODULUS
      ensures Timestamp(nowUs + k * US_PER_SECOND) == Timestamp(nowUs) + k
    {
      var e := nowUs - syncUs;
      assert e % U64_MODULUS == e;
      assert (e + k * US_PER_SECOND) % U64_MODULUS == e + k * US_PER_SECOND;
      assert (e + k * US_PER_SECOND) / US_PER_SECOND == e / US_PER_SECOND + k;
    }
  }

  lemma DivMonotone(a: int, b: int)
    requires 0 <= a <= b
    ensures a / US_PER_SECOND <= b / US_PER_SECOND
  {
  }
}
