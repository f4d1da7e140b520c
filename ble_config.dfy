/**
 * The BLE side of ble_config.c: the scan list (advertising reports, the
 * strongest-first de-duplication by device address), the interpretation of
 * advertising data (AD structures, Bluetooth Core Specification Vol 3 Part C
 * section 11), the scan and connect guards, the GATT discovery flags and the
 * two string helpers.
 */
module BleConfig {
  import opened Bytes

  const MAX_BLE_SCAN_RESULTS: int := 20
  const BLE_DEVICE_NAME_MAX_LEN: int := 32
  const BD_ADDR_LEN: int := 6
  const UUID128_LEN: int := 16

  /** A zeroed 6-byte device address. */
  const ZERO_ADDRESS: seq<byte> := [0, 0, 0, 0, 0, 0]

  /** AD type codes from the Bluetooth SIG's Assigned Numbers. */
  const AD_INCOMPLETE_LIST_128: byte := 0x06
  const AD_COMPLETE_LIST_128: byte := 0x07
  const AD_SHORTENED_LOCAL_NAME: byte := 0x08
  const AD_COMPLETE_LOCAL_NAME: byte := 0x09

  datatype SpsType = SpsUnknown | SpsNordicNus | SpsUbloxSps

  /**
   * The two 16-byte service UUID arrays the firmware compares against: the
   * bytes init_service_uuids leaves in them. That conversion (BTstack's
   * sscanf_bd_addr followed by reverse_128) is not part of this model, so
   * the arrays are opaque here and only their lengths matter.
   */
  datatype ServiceUuids = ServiceUuids(nus: seq<byte>, ublox: seq<byte>)

  predicate ValidUuids(u: ServiceUuids)
  {
    |u.nus| == UUID128_LEN && |u.ublox| == UUID128_LEN
  }

  // ---------------------------------------------------------------------
  // Advertising data
  // ---------------------------------------------------------------------

  /** One AD structure: its type octet and the data after it. */
  datatype AdStructure = AdStructure(adType: byte, data: seq<byte>)

  /**
   * The AD iterator: a structure at `off` is a length octet L > 0 followed
   * by L octets (type, then data) that fit inside the report; iteration ends
   * at a zero length, at a structure that would overrun, or at the end.
   */
  predicate HasStructureAt(adv: seq<byte>, off: nat)
  {
    off + 1 < |adv| && adv[off] != 0 && off + 1 + adv[off] as int <= |adv|
  }

  function StructureAt(adv: seq<byte>, off: nat): (s: AdStructure)
    requires HasStructureAt(adv, off)
    ensures |s.data| == adv[off] as int - 1
  {
    AdStructure(adv[off + 1], adv[off + 2 .. off + 1 + adv[off] as int])
  }

  function NextOffset(adv: seq<byte>, off: nat): (n: nat)
    requires HasStructureAt(adv, off)
    ensures off < n <= |adv|
  {
    off + 1 + adv[off] as int
  }

  /** The AD structures of a report, from offset `off` on. */
  function Structures(adv: seq<byte>, off: nat): (ss: seq<AdStructure>)
    decreases |adv| - off
  {
    if HasStructureAt(adv, off) then [StructureAt(adv, off)] + Structures(adv, NextOffset(adv, off))
    else []
  }

  /** What parse_advertisement_data has produced so far. */
  datatype AdParse = AdParse(foundName: bool, name: seq<byte>, sps: SpsType)

  /** A local-name structure that fits the name buffer of `bufLen` bytes. */
  predicate FittingName(s: AdStructure, bufLen: int)
  {
    (s.adType == AD_COMPLETE_LOCAL_NAME || s.adType == AD_SHORTENED_LOCAL_NAME)
    && 0 < |s.data| < bufLen
  }

  predicate IsUuidList(s: AdStructure)
  {
    s.adType == AD_INCOMPLETE_LIST_128 || s.adType == AD_COMPLETE_LIST_128
  }

  /** The `c`-th whole 16-byte UUID of a UUID list is one of the two services. */
  predicate KnownUuidChunk(data: seq<byte>, c: nat, u: ServiceUuids)
  {
    UUID128_LEN * c + UUID128_LEN <= |data|
    && (data[UUID128_LEN * c .. UUID128_LEN * c + UUID128_LEN] == u.nus
        || data[UUID128_LEN * c .. UUID128_LEN * c + UUID128_LEN] == u.ublox)
  }

  /** The memcmp chain for one 16-byte UUID. */
  function ClassifyUuid(sps: SpsType, chunk: seq<byte>, u: ServiceUuids): SpsType
  {
    if chunk == u.nus then SpsNordicNus
    else if chunk == u.ublox then SpsUbloxSps
    else sps
  }

  /** The inner loop over the whole 16-byte UUIDs of a list, from chunk `c` on. */
  function UuidScan(sps: SpsType, data: seq<byte>, c: nat, u: ServiceUuids): SpsType
    decreases |data| - UUID128_LEN * c
  {
    if UUID128_LEN * c + UUID128_LEN > |data| then sps
    else UuidScan(ClassifyUuid(sps, data[UUID128_LEN * c .. UUID128_LEN * c + UUID128_LEN], u), data, c + 1, u)
  }

  /** The switch on the AD type for one structure. */
  function ApplyStructure(st: AdParse, s: AdStructure, u: ServiceUuids): (r: AdParse)
    ensures |r.name| == |st.name|
  {
    if s.adType == AD_COMPLETE_LOCAL_NAME || s.adType == AD_SHORTENED_LOCAL_NAME then
      if 0 < |s.data| < |st.name| then
        AdParse(true, s.data + [0] + st.name[|s.data| + 1..], st.sps)
      else st
    else if IsUuidList(s) then st.(sps := UuidScan(st.sps, s.data, 0, u))
    else st
  }

  /** Folding the switch over the structures, first to last. */
  function ParseStructures(st: AdParse, ss: seq<AdStructure>, u: ServiceUuids): (r: AdParse)
    decreases |ss|
    ensures |r.name| == |st.name|
  {
    if |ss| == 0 then st else ParseStructures(ApplyStructure(st, ss[0], u), ss[1..], u)
  }

  /** parse_advertisement_data's result for a report and a caller's name buffer. */
  function ParseAdvertisement(adv: seq<byte>, nameBuf: seq<byte>, u: ServiceUuids): AdParse
  {
    ParseStructures(AdParse(false, nameBuf, SpsUnknown), Structures(adv, 0), u)
  }

  /**
   * parse_advertisement_data: walks the AD structures; a local name that
   * fits is copied into the name buffer and NUL-terminated; every whole
   * 16-byte UUID of a 128-bit service list is compared with the two services.
   */
  method ParseAdvertisementData(adv: seq<byte>, nameBuf: seq<byte>, u: ServiceUuids)
    returns (found: bool, name: seq<byte>, sps: SpsType)
    ensures AdParse(found, name, sps) == ParseAdvertisement(adv, nameBuf, u)
  {
    found := false;
    name := nameBuf;
    sps := SpsUnknown;
    var off: nat := 0;
    while HasStructureAt(adv, off)
      invariant off <= |adv|
      invariant ParseAdvertisement(adv, nameBuf, u)
                == ParseStructures(AdParse(found, name, sps), Structures(adv, off), u)
      decreases |adv| - off
    {
      found, name, sps := ApplyAdStructure(found, name, sps, StructureAt(adv, off), u);
      off := NextOffset(adv, off);
    }
  }

  /** The body of the AD loop: the switch on one structure's type. */
  method ApplyAdStructure(found: bool, name: seq<byte>, sps: SpsType, s: AdStructure, u: ServiceUuids)
    returns (found': bool, name': seq<byte>, sps': SpsType)
    ensures AdParse(found', name', sps') == ApplyStructure(AdParse(found, name, sps), s, u)
  {
    found', name', sps' := found, name, sps;
    var dataType := s.adType;
    var dataLen := |s.data|;
    if dataType == AD_COMPLETE_LOCAL_NAME || dataType == AD_SHORTENED_LOCAL_NAME {
      if dataLen > 0 && dataLen < |name| {
        name' := s.data + [0] + name[dataLen + 1..];
        found' := true;
      }
    } else if dataType == AD_INCOMPLETE_LIST_128 || dataType == AD_COMPLETE_LIST_128 {
      sps' := ScanUuids(sps, s.data, u);
    }
  }

  /** The inner loop over the whole 16-byte UUIDs of a 128-bit service list. */
  method ScanUuids(sps: SpsType, data: seq<byte>, u: ServiceUuids) returns (r: SpsType)
    ensures r == UuidScan(sps, data, 0, u)
  {
    r := sps;
    var i := 0;
    while i + UUID128_LEN <= |data|
      invariant i % UUID128_LEN == 0 && 0 <= i <= |data| + UUID128_LEN
      invariant UuidScan(sps, data, 0, u) == UuidScan(r, data, i / UUID128_LEN, u)
      decreases |data| - i
    {
      r := ClassifyUuid(r, data[i .. i + UUID128_LEN], u);
      i := i + UUID128_LEN;
    }
  }

  /**
   * A name is reported exactly when some local-name structure fits the
   * buffer (0 < data length < buffer size).
   */
  lemma {:induction false} ParseFoundName(st: AdParse, ss: seq<AdStructure>, u: ServiceUuids)
    ensures ParseStructures(st, ss, u).foundName
            <==> st.foundName || exists i :: 0 <= i < |ss| && FittingName(ss[i], |st.name|)
    decreases |ss|
  {
    if |ss| > 0 {
      var st1 := ApplyStructure(st, ss[0], u);
      ParseFoundName(st1, ss[1..], u);
      if exists i :: 0 <= i < |ss[1..]| && FittingName(ss[1..][i], |st1.name|) {
        var i :| 0 <= i < |ss[1..]| && FittingName(ss[1..][i], |st1.name|);
        assert FittingName(ss[i + 1], |st.name|);
      }
      if exists i :: 0 <= i < |ss| && FittingName(ss[i], |st.name|) {
        var i :| 0 <= i < |ss| && FittingName(ss[i], |st.name|);
        if i > 0 {
          assert FittingName(ss[1..][i - 1], |st1.name|);
        }
      }
    }
  }

  /** Structures that are not fitting names leave the name buffer alone. */
  lemma {:induction false} ParseKeepsName(st: AdParse, ss: seq<AdStructure>, u: ServiceUuids)
    requires forall j :: 0 <= j < |ss| ==> !FittingName(ss[j], |st.name|)
    ensures ParseStructures(st, ss, u).name == st.name
    decreases |ss|
  {
    if |ss| > 0 {
      assert !FittingName(ss[0], |st.name|);
      var st1 := ApplyStructure(st, ss[0], u);
      assert st1.name == st.name;
      forall j | 0 <= j < |ss[1..]|
        ensures !FittingName(ss[1..][j], |st1.name|)
      {
        assert ss[1..][j] == ss[j + 1];
      }
      ParseKeepsName(st1, ss[1..], u);
    }
  }

  /**
   * The name buffer ends up holding the last fitting local name, followed by
   * its terminating NUL.
   */
  lemma {:induction false} ParseLastName(st: AdParse, ss: seq<AdStructure>, u: ServiceUuids, i: nat)
    requires i < |ss| && FittingName(ss[i], |st.name|)
    requires forall j :: i < j < |ss| ==> !FittingName(ss[j], |st.name|)
    ensures var r := ParseStructures(st, ss, u);
            |ss[i].data| < |r.name| && r.name[..|ss[i].data|] == ss[i].data && r.name[|ss[i].data|] == 0
    decreases |ss|
  {
    var st1 := ApplyStructure(st, ss[0], u);
    if i == 0 {
      forall j | 0 <= j < |ss[1..]|
        ensures !FittingName(ss[1..][j], |st1.name|)
      {
        assert ss[1..][j] == ss[j + 1];
      }
      ParseKeepsName(st1, ss[1..], u);
    } else {
      assert ss[1..][i - 1] == ss[i];
      forall j | i - 1 < j < |ss[1..]|
        ensures !FittingName(ss[1..][j], |st1.name|)
      {
        assert ss[1..][j] == ss[j + 1];
      }
      ParseLastName(st1, ss[1..], u, i - 1);
    }
  }

  /** The UUID loop ends on a known service exactly when one of the chunks is known (or one was before). */
  lemma {:induction false} UuidScanDetects(sps: SpsType, data: seq<byte>, c: nat, u: ServiceUuids)
    ensures UuidScan(sps, data, c, u) != SpsUnknown
            <==> sps != SpsUnknown || exists k: nat :: c <= k && KnownUuidChunk(data, k, u)
    decreases |data| - UUID128_LEN * c
  {
    if UUID128_LEN * c + UUID128_LEN <= |data| {
      var chunk := data[UUID128_LEN * c .. UUID128_LEN * c + UUID128_LEN];
      UuidScanDetects(ClassifyUuid(sps, chunk, u), data, c + 1, u);
      if KnownUuidChunk(data, c, u) {
        assert ClassifyUuid(sps, chunk, u) != SpsUnknown;
      }
      if exists k: nat :: c <= k && KnownUuidChunk(data, k, u) {
        var k: nat :| c <= k && KnownUuidChunk(data, k, u);
        if k != c {
          assert c + 1 <= k;
        }
      }
    }
  }

  /** Some structure of the report lists one of the two services. */
  ghost predicate ListsKnownService(ss: seq<AdStructure>, u: ServiceUuids)
  {
    exists i, k: nat :: 0 <= i < |ss| && IsUuidList(ss[i]) && KnownUuidChunk(ss[i].data, k, u)
  }

  /**
   * The device is classified as an SPS device exactly when one of its
   * 128-bit service lists carries the Nordic UART or the u-blox SPS service.
   */
  lemma {:induction false} ParseSpsDetected(st: AdParse, ss: seq<AdStructure>, u: ServiceUuids)
    ensures ParseStructures(st, ss, u).sps != SpsUnknown
            <==> st.sps != SpsUnknown || ListsKnownService(ss, u)
    decreases |ss|
  {
    if |ss| > 0 {
      var st1 := ApplyStructure(st, ss[0], u);
      ParseSpsDetected(st1, ss[1..], u);
      if IsUuidList(ss[0]) {
        UuidScanDetects(st.sps, ss[0].data, 0, u);
      }
      assert st1.sps != SpsUnknown
        <==> (st.sps != SpsUnknown || (IsUuidList(ss[0]) && exists k: nat :: KnownUuidChunk(ss[0].data, k, u)));
      if ListsKnownService(ss[1..], u) {
        var i, k: nat :| 0 <= i < |ss[1..]| && IsUuidList(ss[1..][i]) && KnownUuidChunk(ss[1..][i].data, k, u);
        assert ss[1..][i] == ss[i + 1];
        assert ListsKnownService(ss, u);
      }
      if ListsKnownService(ss, u) {
        var i, k: nat :| 0 <= i < |ss| && IsUuidList(ss[i]) && KnownUuidChunk(ss[i].data, k, u);
        if i > 0 {
          assert ss[1..][i - 1] == ss[i];
          assert ListsKnownService(ss[1..], u);
        }
      }
    }
  }

  /** A structure is a 128-bit service list holding one of the two services. */
  ghost predicate HasKnownChunk(s: AdStructure, u: ServiceUuids)
  {
    IsUuidList(s) && exists k: nat :: KnownUuidChunk(s.data, k, u)
  }

  /** Without a known chunk from `c` on, the UUID loop leaves the SPS type as it was. */
  lemma {:induction false} UuidScanKeeps(sps: SpsType, data: seq<byte>, c: nat, u: ServiceUuids)
    requires forall j: nat :: c <= j ==> !KnownUuidChunk(data, j, u)
    ensures UuidScan(sps, data, c, u) == sps
    decreases |data| - UUID128_LEN * c
  {
    if UUID128_LEN * c + UUID128_LEN <= |data| {
      assert !KnownUuidChunk(data, c, u);
      UuidScanKeeps(sps, data, c + 1, u);
    }
  }

  /**
   * The UUID loop overwrites the SPS type at every known chunk, so the last
   * known chunk decides it, whatever the type was before.
   */
  lemma {:induction false} UuidScanLastChunk(sps: SpsType, data: seq<byte>, c: nat, u: ServiceUuids, k: nat)
    requires c <= k && KnownUuidChunk(data, k, u)
    requires forall j: nat :: k < j ==> !KnownUuidChunk(data, j, u)
    ensures UuidScan(sps, data, c, u)
            == ClassifyUuid(SpsUnknown, data[UUID128_LEN * k .. UUID128_LEN * k + UUID128_LEN], u)
    ensures UuidScan(sps, data, c, u) != SpsUnknown
    decreases k - c
  {
    var chunk := data[UUID128_LEN * c .. UUID128_LEN * c + UUID128_LEN];
    if c < k {
      UuidScanLastChunk(ClassifyUuid(sps, chunk, u), data, c + 1, u, k);
    } else {
      UuidScanKeeps(ClassifyUuid(sps, chunk, u), data, c + 1, u);
    }
  }

  /** Structures without a known service leave the SPS type as it was. */
  lemma {:induction false} ParseKeepsSps(st: AdParse, ss: seq<AdStructure>, u: ServiceUuids)
    requires forall j :: 0 <= j < |ss| ==> !HasKnownChunk(ss[j], u)
    ensures ParseStructures(st, ss, u).sps == st.sps
    decreases |ss|
  {
    if |ss| > 0 {
      assert !HasKnownChunk(ss[0], u);
      if IsUuidList(ss[0]) {
        UuidScanKeeps(st.sps, ss[0].data, 0, u);
      }
      var st1 := ApplyStructure(st, ss[0], u);
      assert st1.sps == st.sps;
      forall j | 0 <= j < |ss[1..]|
        ensures !HasKnownChunk(ss[1..][j], u)
      {
        assert ss[1..][j] == ss[j + 1];
      }
      ParseKeepsSps(st1, ss[1..], u);
    }
  }

  /**
   * The SPS type ends up decided by the last known 16-byte chunk (k) of the
   * last 128-bit service list (i) that holds one: NUS or u-blox SPS as that
   * chunk says, whatever earlier lists or chunks said.
   */
  lemma {:induction false} ParseLastSps(st: AdParse, ss: seq<AdStructure>, u: ServiceUuids, i: nat, k: nat)
    requires i < |ss| && IsUuidList(ss[i]) && KnownUuidChunk(ss[i].data, k, u)
    requires forall j: nat :: k < j ==> !KnownUuidChunk(ss[i].data, j, u)
    requires forall j :: i < j < |ss| ==> !HasKnownChunk(ss[j], u)
    ensures ParseStructures(st, ss, u).sps
            == ClassifyUuid(SpsUnknown, ss[i].data[UUID128_LEN * k .. UUID128_LEN * k + UUID128_LEN], u)
    decreases |ss|
  {
    var st1 := ApplyStructure(st, ss[0], u);
    forall j | 0 <= j < |ss[1..]|
      ensures ss[1..][j] == ss[j + 1]
    {
    }
    if i == 0 {
      UuidScanLastChunk(st.sps, ss[0].data, 0, u, k);
      ParseKeepsSps(st1, ss[1..], u);
    } else {
      ParseLastSps(st1, ss[1..], u, i - 1, k);
    }
  }

  // ---------------------------------------------------------------------
  // The scan list
  // ---------------------------------------------------------------------

  /** ble_device_result_t: address (6 bytes), address type, name, RSSI (int8) and the SPS classification. */
  datatype BleDevice = BleDevice(address: seq<byte>, addressType: byte, name: seq<byte>,
                                 rssi: int, spsType: SpsType, hasSpsService: bool)

  predicate HasAddress(d: seq<BleDevice>, key: seq<byte>)
  {
    exists j :: 0 <= j < |d| && d[j].address == key
  }

  /** Strongest first, as rssi_compare orders them. */
  predicate RssiNonIncreasing(s: seq<BleDevice>)
  {
    forall i, j :: 0 <= i < j < |s| ==> s[i].rssi >= s[j].rssi
  }

  predicate DistinctAddresses(s: seq<BleDevice>)
  {
    forall i, j :: 0 <= i < j < |s| ==> s[i].address != s[j].address
  }

  /** Some entry of `d` has the address of `r` and is at least as strong. */
  predicate KeptAtLeastAsStrong(d: seq<BleDevice>, r: BleDevice)
  {
    exists j :: 0 <= j < |d| && d[j].address == r.address && d[j].rssi >= r.rssi
  }

  /** The de-duplication pass: each address's first occurrence survives, in order. */
  function DedupByAddress(s: seq<BleDevice>): seq<BleDevice>
    decreases |s|
  {
    if |s| == 0 then []
    else
      var d := DedupByAddress(s[..|s| - 1]);
      if HasAddress(d, s[|s| - 1].address) then d else d + [s[|s| - 1]]
  }

  lemma DedupSnoc(p: seq<BleDevice>, x: BleDevice)
    ensures DedupByAddress(p + [x]) == if HasAddress(DedupByAddress(p), x.address) then DedupByAddress(p)
                                    else DedupByAddress(p) + [x]
  {
    assert (p + [x])[..|p|] == p;
  }

  /** The pass over one more input entry. */
  lemma DedupNext(input: seq<BleDevice>, i: nat, kept: seq<BleDevice>)
    requires i < |input| && kept == DedupByAddress(input[..i])
    ensures DedupByAddress(input[..i + 1]) == if HasAddress(kept, input[i].address) then kept else kept + [input[i]]
  {
    assert input[..i + 1] == input[..i] + [input[i]];
    DedupSnoc(input[..i], input[i]);
  }

  lemma {:induction false} DedupShape(s: seq<BleDevice>)
    ensures |DedupByAddress(s)| <= |s|
    ensures DistinctAddresses(DedupByAddress(s))
    ensures forall y :: y in DedupByAddress(s) ==> y in s
    ensures forall i :: 0 <= i < |s| ==> HasAddress(DedupByAddress(s), s[i].address)
    decreases |s|
  {
    if |s| > 0 {
      var p := s[..|s| - 1];
      DedupShape(p);
      forall i | 0 <= i < |s|
        ensures HasAddress(DedupByAddress(s), s[i].address)
      {
        if i < |s| - 1 {
          assert s[i] == p[i];
          var d := DedupByAddress(p);
          var j :| 0 <= j < |d| && d[j].address == p[i].address;
          assert DedupByAddress(s)[j] == d[j];
        } else {
          var d := DedupByAddress(p);
          if !HasAddress(d, s[i].address) {
            assert DedupByAddress(s)[|d|] == s[i];
          }
        }
      }
    }
  }

  /** After sorting, de-duplication keeps the strongest-first order. */
  lemma {:induction false} DedupSorted(s: seq<BleDevice>)
    requires RssiNonIncreasing(s)
    ensures RssiNonIncreasing(DedupByAddress(s))
    decreases |s|
  {
    if |s| > 0 {
      var p := s[..|s| - 1];
      var x := s[|s| - 1];
      DedupSorted(p);
      DedupShape(p);
      var d := DedupByAddress(p);
      if !HasAddress(d, x.address) {
        var ds := DedupByAddress(s);
        assert ds == d + [x];
        forall i, j | 0 <= i < j < |ds|
          ensures ds[i].rssi >= ds[j].rssi
        {
          if j == |d| {
            assert d[i] in p;
            var k :| 0 <= k < |p| && p[k] == d[i];
            assert s[k] == p[k];
          } else {
            assert ds[i] == d[i] && ds[j] == d[j];
          }
        }
      }
    }
  }

  /**
   * After sorting, for every address in the input de-duplication keeps an
   * entry at least as strong as any input entry with that address.
   */
  lemma {:induction false} DedupStrongest(s: seq<BleDevice>)
    requires RssiNonIncreasing(s)
    ensures forall i :: 0 <= i < |s| ==> KeptAtLeastAsStrong(DedupByAddress(s), s[i])
    decreases |s|
  {
    if |s| > 0 {
      var p := s[..|s| - 1];
      var x := s[|s| - 1];
      DedupStrongest(p);
      DedupShape(p);
      var d := DedupByAddress(p);
      var ds := DedupByAddress(s);
      assert |d| <= |ds| && forall j :: 0 <= j < |d| ==> ds[j] == d[j];
      forall i | 0 <= i < |s|
        ensures KeptAtLeastAsStrong(ds, s[i])
      {
        if i < |s| - 1 {
          assert s[i] == p[i];
          assert KeptAtLeastAsStrong(d, p[i]);
          var j :| 0 <= j < |d| && d[j].address == p[i].address && d[j].rssi >= p[i].rssi;
          assert ds[j] == d[j];
        } else if HasAddress(d, x.address) {
          var j :| 0 <= j < |d| && d[j].address == x.address;
          assert d[j] in p;
          var k :| 0 <= k < |p| && p[k] == d[j];
          assert s[k] == p[k];
          assert ds[j] == d[j] && d[j].rssi >= x.rssi;
        } else {
          assert ds[|d|] == x;
        }
      }
    }
  }

  /**
   * After sorting, de-duplication keeps the order, and for every address in the
   * input it keeps an entry at least as strong as any input entry with that
   * address (the strongest one).
   */
  lemma DedupKeepsStrongest(s: seq<BleDevice>)
    requires RssiNonIncreasing(s)
    ensures RssiNonIncreasing(DedupByAddress(s))
    ensures forall i :: 0 <= i < |s| ==> KeptAtLeastAsStrong(DedupByAddress(s), s[i])
  {
    DedupSorted(s);
    DedupStrongest(s);
  }

  /** The name buffer of the advertising-report handler: 33 zero bytes. */
  function EmptyNameBuffer(): (b: seq<byte>)
    ensures |b| == BLE_DEVICE_NAME_MAX_LEN + 1 && forall i :: 0 <= i < |b| ==> b[i] == 0
  {
    seq(BLE_DEVICE_NAME_MAX_LEN + 1, _ => 0)
  }

  /**
   * The handler lists a device only when the name buffer's C string is
   * non-empty, and that can only happen after a fitting local name.
   */
  lemma NamedReportHasName(adv: seq<byte>, u: ServiceUuids)
    ensures var p := ParseAdvertisement(adv, EmptyNameBuffer(), u);
            p.name[0] != 0 ==> p.foundName
  {
    var ss := Structures(adv, 0);
    var st := AdParse(false, EmptyNameBuffer(), SpsUnknown);
    ParseFoundName(st, ss, u);
    if !ParseStructures(st, ss, u).foundName {
      ParseKeepsName(st, ss, u);
    }
  }

  /** An advertising report as BTstack delivers it. */
  datatype AdvReport = AdvReport(address: seq<byte>, addressType: byte, rssi: int, data: seq<byte>)

  /** The scan state, the connection state and the two module flags of ble_config.c. */
  class BleManager {
    var initialized: bool
    var scanning: bool

    // ble_scan_state_t
    var results: array<BleDevice>
    var count: int
    var scanComplete: bool
    var scanError: bool
    var scanActive: bool

    // ble_connection_state_t (the GATT service and characteristic records are left out)
    var connectionHandle: int
    var deviceAddress: seq<byte>
    var addressType: byte
    var connSpsType: SpsType
    var connected: bool
    var serviceDiscovered: bool
    var characteristicsDiscovered: bool
    var txValueHandle: int
    var rxValueHandle: int
    var notificationsEnabled: bool

    /**
     * The list fits its array; discovery flags come in order and only for
     * an SPS device; nothing ever enables notifications.
     */
    predicate Valid()
      reads this
    {
      results.Length == MAX_BLE_SCAN_RESULTS && 0 <= count <= MAX_BLE_SCAN_RESULTS
      && (serviceDiscovered ==> connSpsType != SpsUnknown)
      && (characteristicsDiscovered ==> serviceDiscovered)
      && !notificationsEnabled
    }

    function Results(): seq<BleDevice>
      reads this, results
      requires Valid()
    {
      results[..count]
    }

    /** The connection state is all zero. */
    predicate ConnectionCleared()
      reads this
    {
      connectionHandle == 0 && deviceAddress == ZERO_ADDRESS && addressType == 0
      && connSpsType == SpsUnknown && !connected && !serviceDiscovered
      && !characteristicsDiscovered && txValueHandle == 0 && rxValueHandle == 0
      && !notificationsEnabled
    }

    constructor ()
      ensures Valid() && !initialized && !scanning && count == 0
      ensures !scanComplete && !scanError && !scanActive && ConnectionCleared()
    {
      initialized := false;
      scanning := false;
      results := new BleDevice[MAX_BLE_SCAN_RESULTS](_ => ZeroDevice());
      count := 0;
      scanComplete := false;
      scanError := false;
      scanActive := false;
      connectionHandle := 0;
      deviceAddress := ZERO_ADDRESS;
      addressType := 0;
      connSpsType := SpsUnknown;
      connected := false;
      serviceDiscovered := false;
      characteristicsDiscovered := false;
      txValueHandle := 0;
      rxValueHandle := 0;
      notificationsEnabled := false;
    }

    /** memset of the scan state. */
    method ClearScanState()
      requires Valid()
      modifies results, `count, `scanComplete, `scanError, `scanActive
      ensures Valid() && results == old(results) && count == 0
      ensures !scanComplete && !scanError && !scanActive
      ensures forall i :: 0 <= i < results.Length ==> results[i] == ZeroDevice()
      ensures initialized == old(initialized) && scanning == old(scanning)
      ensures connected == old(connected) && connSpsType == old(connSpsType)
      ensures serviceDiscovered == old(serviceDiscovered)
      ensures characteristicsDiscovered == old(characteristicsDiscovered)
      ensures deviceAddress == old(deviceAddress) && connectionHandle == old(connectionHandle)
      ensures addressType == old(addressType) && notificationsEnabled == old(notificationsEnabled)
      ensures txValueHandle == old(txValueHandle) && rxValueHandle == old(rxValueHandle)
    {
      forall i | 0 <= i < results.Length {
        results[i] := ZeroDevice();
      }
      count := 0;
      scanComplete := false;
      scanError := false;
      scanActive := false;
    }

    /** memset of the connection state. */
    method ClearConnectionState()
      modifies `connectionHandle, `deviceAddress, `addressType, `connSpsType, `connected
      modifies `serviceDiscovered, `characteristicsDiscovered, `txValueHandle, `rxValueHandle
      modifies `notificationsEnabled
      ensures ConnectionCleared()
    {
      connectionHandle := 0;
      deviceAddress := ZERO_ADDRESS;
      addressType := 0;
      connSpsType := SpsUnknown;
      connected := false;
      serviceDiscovered := false;
      characteristicsDiscovered := false;
      txValueHandle := 0;
      rxValueHandle := 0;
      notificationsEnabled := false;
    }

    /** ble_init: once only; clears both states. */
    method Init()
      requires Valid()
      modifies this, results
      ensures Valid() && initialized && results == old(results)
      ensures old(initialized) ==> unchanged(this) && results[..] == old(results[..])
      ensures !old(initialized) ==> count == 0 && ConnectionCleared()
                                    && !scanComplete && !scanError && !scanActive
      ensures scanning == old(scanning)
    {
      if initialized {
        return;
      }
      ClearScanState();
      ClearConnectionState();
      initialized := true;
    }

    /**
     * ble_start_scan: refused before ble_init and while scanning; otherwise
     * the list is emptied and a scan is under way.
     */
    method StartScan() returns (ok: bool)
      requires Valid()
      modifies results, `count, `scanComplete, `scanError, `scanActive, `scanning
      ensures Valid() && results == old(results) && initialized == old(initialized)
      ensures ok <==> old(initialized) && !old(scanning)
      ensures !ok ==> scanning == old(scanning) && count == old(count)
                      && scanActive == old(scanActive) && scanComplete == old(scanComplete)
                      && scanError == old(scanError) && results[..] == old(results[..])
      ensures ok ==> scanning && scanActive && count == 0 && !scanComplete && !scanError
                     && forall i :: 0 <= i < results.Length ==> results[i] == ZeroDevice()
      ensures connected == old(connected) && serviceDiscovered == old(serviceDiscovered)
      ensures characteristicsDiscovered == old(characteristicsDiscovered)
      ensures connSpsType == old(connSpsType) && notificationsEnabled == old(notificationsEnabled)
      ensures deviceAddress == old(deviceAddress) && addressType == old(addressType)
      ensures connectionHandle == old(connectionHandle)
      ensures txValueHandle == old(txValueHandle) && rxValueHandle == old(rxValueHandle)
    {
      if !initialized {
        return false;
      }
      if scanning {
        return false;
      }
      ClearScanState();
      scanActive := true;
      scanning := true;
      return true;
    }

    /** ble_stop_scan: only a running scan is stopped, and then marked complete. */
    method StopScan()
      requires Valid()
      modifies `scanning, `scanComplete, `scanActive
      ensures Valid() && !scanning && results == old(results) && count == old(count)
      ensures old(scanning) ==> scanComplete && !scanActive
      ensures !old(scanning) ==> scanComplete == old(scanComplete) && scanActive == old(scanActive)
      ensures initialized == old(initialized) && scanError == old(scanError)
      ensures connected == old(connected) && connSpsType == old(connSpsType)
      ensures serviceDiscovered == old(serviceDiscovered)
      ensures characteristicsDiscovered == old(characteristicsDiscovered)
      ensures deviceAddress == old(deviceAddress) && addressType == old(addressType)
      ensures connectionHandle == old(connectionHandle)
      ensures txValueHandle == old(txValueHandle) && rxValueHandle == old(rxValueHandle)
    {
      if scanning {
        scanning := false;
        scanComplete := true;
        scanActive := false;
      }
    }

    /**
     * GAP_EVENT_ADVERTISING_REPORT: while scanning and with room left, the
     * report's data is parsed into a zeroed 33-byte name buffer; a device
     * whose name is non-empty is appended with its name cut to 32 bytes.
     */
    method OnAdvertisingReport(r: AdvReport, u: ServiceUuids)
      requires Valid()
      modifies results, `count
      ensures Valid() && results == old(results)
      ensures var p := ParseAdvertisement(r.data, EmptyNameBuffer(), u);
              if old(scanning) && old(count) < MAX_BLE_SCAN_RESULTS && p.name[0] != 0 then
                count == old(count) + 1
                && Results() == old(Results())
                   + [BleDevice(r.address, r.addressType, CopyN(p.name, 0, BLE_DEVICE_NAME_MAX_LEN),
                                r.rssi, p.sps, p.sps != SpsUnknown)]
              else count == old(count) && results[..] == old(results[..])
    {
      if !scanning || count >= MAX_BLE_SCAN_RESULTS {
        return;
      }
      var found, name, sps := ParseAdvertisementData(r.data, EmptyNameBuffer(), u);
      if name[0] != 0 {
        var dev := BleDevice(r.address, r.addressType, CopyN(name, 0, BLE_DEVICE_NAME_MAX_LEN),
                             r.rssi, sps, sps != SpsUnknown);
        results[count] := dev;
        count := count + 1;
      }
    }

    /** The check_idx scan of the compaction loop: memcmp of 6-byte addresses. */
    method AddressAmongFirst(key: seq<byte>, n: int) returns (found: bool)
      requires Valid() && 0 <= n <= count
      ensures found <==> HasAddress(results[..n], key)
    {
      found := false;
      var checkIdx := 0;
      while checkIdx < n
        invariant 0 <= checkIdx <= n
        invariant forall j :: 0 <= j < checkIdx ==> results[j].address != key
      {
        if key == results[checkIdx].address {
          assert results[..n][checkIdx] == results[checkIdx];
          found := true;
          return;
        }
        checkIdx := checkIdx + 1;
      }
      assert forall j :: 0 <= j < n ==> results[..n][j] == results[j];
    }

    /**
     * ble_sort_scan_results. `sorted` is the order qsort leaves the list in
     * (strongest first); the compaction then keeps each address's first entry.
     */
    method SortScanResults(sorted: seq<BleDevice>)
      requires Valid()
      requires |sorted| == count && multiset(sorted) == multiset(results[..count])
      requires RssiNonIncreasing(sorted)
      modifies results, `count
      ensures Valid() && results == old(results)
      ensures Results() == DedupByAddress(sorted)
    {
      if count == 0 {
        return;
      }
      forall i | 0 <= i < count {
        results[i] := sorted[i];
      }
      assert results[..count] == sorted;
      CompactDuplicates();
    }

    /** The write_idx/read_idx loop: drops every entry whose address is already kept. */
    method CompactDuplicates()
      requires Valid()
      modifies results, `count
      ensures Valid() && results == old(results)
      ensures Results() == DedupByAddress(old(Results()))
    {
      var writeIdx := CompactInPlace();
      count := writeIdx;
    }

    /** The compaction loop itself, returning write_idx. */
    method CompactInPlace() returns (writeIdx: int)
      requires Valid()
      modifies results
      ensures 0 <= writeIdx <= count
      ensures results[..writeIdx] == DedupByAddress(old(results[..count]))
    {
      ghost var input := results[..count];
      writeIdx := 0;
      var readIdx := 0;
      while readIdx < count
        invariant 0 <= writeIdx <= readIdx <= count
        invariant results[..writeIdx] == DedupByAddress(input[..readIdx])
        invariant forall k :: readIdx <= k < count ==> results[k] == input[k]
      {
        writeIdx := CompactStep(input, writeIdx, readIdx);
        readIdx := readIdx + 1;
      }
      assert input[..count] == input;
    }

    /** One turn of the compaction loop: entry `readIdx` is kept unless its address already is. */
    method CompactStep(ghost input: seq<BleDevice>, writeIdx: int, readIdx: int) returns (next: int)
      requires Valid() && count == |input|
      requires 0 <= writeIdx <= readIdx < count
      requires results[..writeIdx] == DedupByAddress(input[..readIdx])
      requires forall k :: readIdx <= k < count ==> results[k] == input[k]
      modifies results
      ensures writeIdx <= next <= readIdx + 1
      ensures results[..next] == DedupByAddress(input[..readIdx + 1])
      ensures forall k :: readIdx + 1 <= k < count ==> results[k] == input[k]
    {
      var x := results[readIdx];
      ghost var kept := results[..writeIdx];
      var isDuplicate := AddressAmongFirst(x.address, writeIdx);
      DedupNext(input, readIdx, kept);
      next := writeIdx;
      if !isDuplicate {
        if writeIdx != readIdx {
          results[writeIdx] := x;
        }
        assert results[writeIdx] == x;
        assert results[..writeIdx + 1] == kept + [x];
        next := writeIdx + 1;
      }
    }

    /**
     * ble_connect: refused before ble_init and while connected; otherwise a
     * running scan is stopped, the target is recorded, the discovery flags
     * are cleared and the connection requested (`gapOk`: the controller
     * accepted the request).
     */
    method Connect(address: seq<byte>, addrType: byte, gapOk: bool) returns (ok: bool)
      requires Valid()
      modifies `scanning, `scanComplete, `scanActive
      modifies `deviceAddress, `addressType, `connected, `serviceDiscovered, `characteristicsDiscovered
      ensures Valid() && results == old(results) && count == old(count)
      ensures ok <==> old(initialized) && !old(connected) && gapOk
      ensures !old(initialized) || old(connected) ==>
                scanning == old(scanning) && deviceAddress == old(deviceAddress)
                && addressType == old(addressType) && connected == old(connected)
                && scanComplete == old(scanComplete) && scanActive == old(scanActive)
                && serviceDiscovered == old(serviceDiscovered)
                && characteristicsDiscovered == old(characteristicsDiscovered)
      ensures old(initialized) && !old(connected) && !old(scanning) ==>
                scanComplete == old(scanComplete) && scanActive == old(scanActive)
      ensures scanError == old(scanError) && results[..] == old(results[..])
      ensures connectionHandle == old(connectionHandle) && notificationsEnabled == old(notificationsEnabled)
      ensures txValueHandle == old(txValueHandle) && rxValueHandle == old(rxValueHandle)
      ensures old(initialized) && !old(connected) ==>
                !scanning && (old(scanning) ==> scanComplete && !scanActive)
                && deviceAddress == address && addressType == addrType
                && !connected && !serviceDiscovered && !characteristicsDiscovered
      ensures connSpsType == old(connSpsType) && initialized == old(initialized)
    {
      if !initialized {
        return false;
      }
      if connected {
        return false;
      }
      if scanning {
        StopScan();
      }
      deviceAddress := address;
      addressType := addrType;
      connected := false;
      serviceDiscovered := false;
      characteristicsDiscovered := false;
      return gapOk;
    }

    /** HCI_SUBEVENT_LE_CONNECTION_COMPLETE: the link is up (service discovery is then requested). */
    method OnConnectionComplete(handle: int)
      requires Valid()
      modifies `connectionHandle, `connected
      ensures Valid() && connected && connectionHandle == handle
      ensures initialized == old(initialized) && scanning == old(scanning)
      ensures scanComplete == old(scanComplete) && scanError == old(scanError) && scanActive == old(scanActive)
      ensures addressType == old(addressType) && notificationsEnabled == old(notificationsEnabled)
      ensures txValueHandle == old(txValueHandle) && rxValueHandle == old(rxValueHandle)
      ensures connSpsType == old(connSpsType) && serviceDiscovered == old(serviceDiscovered)
      ensures characteristicsDiscovered == old(characteristicsDiscovered)
      ensures deviceAddress == old(deviceAddress) && results == old(results) && count == old(count)
    {
      connectionHandle := handle;
      connected := true;
    }

    /** HCI_EVENT_DISCONNECTION_COMPLETE: the whole connection state is zeroed. */
    method OnDisconnectionComplete()
      requires Valid()
      modifies `connectionHandle, `deviceAddress, `addressType, `connSpsType, `connected
      modifies `serviceDiscovered, `characteristicsDiscovered, `txValueHandle, `rxValueHandle
      modifies `notificationsEnabled
      ensures Valid() && ConnectionCleared()
      ensures results == old(results) && count == old(count) && scanning == old(scanning)
      ensures initialized == old(initialized) && results[..] == old(results[..])
      ensures scanComplete == old(scanComplete) && scanError == old(scanError) && scanActive == old(scanActive)
    {
      ClearConnectionState();
    }

    /** GATT_EVENT_SERVICE_QUERY_RESULT: a primary service of the peer, by its UUID. */
    method OnServiceQueryResult(uuid: seq<byte>, u: ServiceUuids)
      requires Valid()
      modifies `connSpsType
      ensures initialized == old(initialized) && scanning == old(scanning)
      ensures deviceAddress == old(deviceAddress) && connectionHandle == old(connectionHandle)
      ensures addressType == old(addressType) && notificationsEnabled == old(notificationsEnabled)
      ensures Valid()
      ensures connSpsType == (if uuid == u.nus then SpsNordicNus
                              else if uuid == u.ublox then SpsUbloxSps else old(connSpsType))
      ensures serviceDiscovered == old(serviceDiscovered)
      ensures characteristicsDiscovered == old(characteristicsDiscovered)
      ensures connected == old(connected) && results == old(results) && count == old(count)
      ensures txValueHandle == old(txValueHandle) && rxValueHandle == old(rxValueHandle)
    {
      if uuid == u.nus {
        connSpsType := SpsNordicNus;
      } else if uuid == u.ublox {
        connSpsType := SpsUbloxSps;
      }
    }

    /**
     * GATT_EVENT_QUERY_COMPLETE: the end of the service query marks the
     * service found (only for an SPS device); the end of the following
     * characteristic query marks the characteristics found. One flag per
     * event, each set once.
     */
    method OnQueryComplete()
      requires Valid()
      modifies `serviceDiscovered, `characteristicsDiscovered
      ensures initialized == old(initialized) && scanning == old(scanning)
      ensures deviceAddress == old(deviceAddress) && connectionHandle == old(connectionHandle)
      ensures addressType == old(addressType) && notificationsEnabled == old(notificationsEnabled)
      ensures Valid()
      ensures connSpsType != SpsUnknown && !old(serviceDiscovered) ==>
                serviceDiscovered && characteristicsDiscovered == old(characteristicsDiscovered)
      ensures !(connSpsType != SpsUnknown && !old(serviceDiscovered)) ==>
                serviceDiscovered == old(serviceDiscovered)
                && characteristicsDiscovered == (old(characteristicsDiscovered) || old(serviceDiscovered))
      ensures connSpsType == old(connSpsType) && connected == old(connected)
      ensures txValueHandle == old(txValueHandle) && rxValueHandle == old(rxValueHandle)
      ensures results == old(results) && count == old(count)
    {
      if connSpsType != SpsUnknown && !serviceDiscovered {
        serviceDiscovered := true;
      } else if serviceDiscovered && !characteristicsDiscovered {
        characteristicsDiscovered := true;
      }
    }

    /**
     * GATT_EVENT_CHARACTERISTIC_QUERY_RESULT: the TX (notify) and RX (write)
     * characteristics of the detected service record their value handles.
     */
    method OnCharacteristicQueryResult(uuid: seq<byte>, valueHandle: int, c: CharacteristicUuids)
      requires Valid()
      modifies `txValueHandle, `rxValueHandle
      ensures initialized == old(initialized) && scanning == old(scanning)
      ensures deviceAddress == old(deviceAddress) && connectionHandle == old(connectionHandle)
      ensures addressType == old(addressType) && notificationsEnabled == old(notificationsEnabled)
      ensures Valid()
      ensures var tx := (connSpsType == SpsNordicNus && uuid == c.nusTx)
                        || (connSpsType == SpsUbloxSps && uuid == c.ubloxFifo);
              var rx := !tx && ((connSpsType == SpsNordicNus && uuid == c.nusRx)
                                || (connSpsType == SpsUbloxSps && uuid == c.ubloxCredits));
              txValueHandle == (if tx then valueHandle else old(txValueHandle))
              && rxValueHandle == (if rx then valueHandle else old(rxValueHandle))
      ensures connSpsType == old(connSpsType) && serviceDiscovered == old(serviceDiscovered)
      ensures characteristicsDiscovered == old(characteristicsDiscovered)
      ensures connected == old(connected) && results == old(results) && count == old(count)
    {
      if connSpsType == SpsNordicNus {
        if uuid == c.nusTx {
          txValueHandle := valueHandle;
        } else if uuid == c.nusRx {
          rxValueHandle := valueHandle;
        }
      } else if connSpsType == SpsUbloxSps {
        if uuid == c.ubloxFifo {
          txValueHandle := valueHandle;
        } else if uuid == c.ubloxCredits {
          rxValueHandle := valueHandle;
        }
      }
    }

    /** ble_is_sps_ready. */
    predicate SpsReady()
      reads this
    {
      connected && serviceDiscovered && characteristicsDiscovered && notificationsEnabled
    }

    /**
     * ble_sps_send_data: refused unless the link is ready and the RX handle
     * is known. Since no handler ever enables notifications, it is never ready.
     */
    method SpsSendData(writeOk: bool) returns (ok: bool)
      requires Valid()
      ensures !SpsReady() && !ok
    {
      if !SpsReady() {
        return false;
      }
      if rxValueHandle == 0 {
        return false;
      }
      return writeOk;
    }
  }

  /** The zeroed result entry. */
  function ZeroDevice(): BleDevice
  {
    BleDevice(ZERO_ADDRESS, 0, [], 0, SpsUnknown, false)
  }

  /** The four characteristic UUIDs, opaque 16-byte constants like the service ones. */
  datatype CharacteristicUuids = CharacteristicUuids(nusRx: seq<byte>, nusTx: seq<byte>,
                                                     ubloxFifo: seq<byte>, ubloxCredits: seq<byte>)

  /**
   * The whole of ble_sort_scan_results in one statement: the list is
   * strongest first, every address appears once, nothing is added, and every
   * address of the scan is still listed with its strongest reading.
   */
  lemma SortedScanProperties(before: seq<BleDevice>, sorted: seq<BleDevice>)
    requires multiset(sorted) == multiset(before) && RssiNonIncreasing(sorted)
    ensures var after := DedupByAddress(sorted);
      RssiNonIncreasing(after) && DistinctAddresses(after) && |after| <= |before|
      && (forall y :: y in after ==> y in before)
      && (forall i :: 0 <= i < |before| ==> KeptAtLeastAsStrong(after, before[i]))
  {
    DedupShape(sorted);
    DedupKeepsStrongest(sorted);
    assert |sorted| == |multiset(sorted)| == |before|;
    forall y | y in DedupByAddress(sorted)
      ensures y in before
    {
      assert y in multiset(sorted);
    }
    forall i | 0 <= i < |before|
      ensures KeptAtLeastAsStrong(DedupByAddress(sorted), before[i])
    {
      assert before[i] in multiset(sorted);
      var k :| 0 <= k < |sorted| && sorted[k] == before[i];
    }
  }

  // ---------------------------------------------------------------------
  // String helpers
  // ---------------------------------------------------------------------

  /** ble_sps_type_to_string. */
  function SpsTypeName(t: SpsType): (name: string)
    ensures name in {"Nordic NUS", "u-blox SPS", "Unknown"}
  {
    match t
    case SpsNordicNus => "Nordic NUS"
    case SpsUbloxSps => "u-blox SPS"
    case SpsUnknown => "Unknown"
  }

  /** Each type has its own name. */
  lemma SpsTypeNameInjective(a: SpsType, b: SpsType)
    ensures SpsTypeName(a) == SpsTypeName(b) <==> a == b
  {
  }

  /** %02X: one upper-case hexadecimal digit. */
  function HexDigit(n: int): (c: char)
    requires 0 <= n < 16
    ensures '0' <= c <= '9' || 'A' <= c <= 'F'
  {
    if n < 10 then ('0' as int + n) as char else ('A' as int + n - 10) as char
  }

  lemma HexDigitValue(n: int)
    requires 0 <= n < 16
    ensures HexValue(HexDigit(n)) == n
  {
  }

  /**
   * The full "%02X:%02X:%02X:%02X:%02X:%02X" text of a 6-byte address:
   * column 3k holds the high digit of byte k, column 3k+1 its low digit,
   * column 3k+2 a colon.
   */
  function AddressText(a: seq<byte>): (s: string)
    requires |a| == BD_ADDR_LEN
    ensures |s| == 17
  {
    seq(17, i requires 0 <= i < 17 =>
      if i % 3 == 2 then ':'
      else if i % 3 == 0 then HexDigit(a[i / 3] as int / 16)
      else HexDigit(a[i / 3] as int % 16))
  }

  /**
   * ble_address_to_string: snprintf into a buffer of `len` bytes keeps at
   * most len - 1 characters (and writes nothing when len is 0).
   */
  function AddressToString(a: seq<byte>, len: nat): (s: string)
    requires |a| == BD_ADDR_LEN
    ensures |s| == Min(17, Max(len - 1, 0))
  {
    var t := AddressText(a);
    if len == 0 then [] else t[..Min(17, len - 1)]
  }

  function HexValue(c: char): int
  {
    if '0' <= c <= '9' then c as int - '0' as int
    else if 'A' <= c <= 'F' then c as int - 'A' as int + 10
    else 0
  }

  /** Reading the text back, two digits per byte at columns 0, 3, ..., 15. */
  function ParseAddressText(s: string): (a: seq<byte>)
    requires |s| == 17
    ensures |a| == BD_ADDR_LEN
  {
    seq(BD_ADDR_LEN, k requires 0 <= k < BD_ADDR_LEN =>
      ((16 * HexValue(s[3 * k]) + HexValue(s[3 * k + 1])) % 256) as byte)
  }

  /** The text names the address exactly: six two-digit fields in array order. */
  lemma AddressTextRoundTrip(a: seq<byte>)
    requires |a| == BD_ADDR_LEN
    ensures ParseAddressText(AddressText(a)) == a
  {
    var s := AddressText(a);
    forall k | 0 <= k < BD_ADDR_LEN
      ensures ParseAddressText(s)[k] == a[k]
    {
      var hi, lo := a[k] as int / 16, a[k] as int % 16;
      assert (3 * k) % 3 == 0 && (3 * k) / 3 == k && (3 * k + 1) % 3 == 1 && (3 * k + 1) / 3 == k;
      assert s[3 * k] == HexDigit(hi) && s[3 * k + 1] == HexDigit(lo);
      HexDigitValue(hi);
      HexDigitValue(lo);
      assert 16 * hi + lo == a[k] as int;
    }
  }
}
