/**
 * The WiFi configuration helpers of wifi_config.c: the table-driven CRC-32
 * (reflected polynomial 0xEDB88320, as in IEEE 802.3), the flash record's
 * magic+CRC validation and stamping, the bounded scan-result list with its
 * sort-by-RSSI and in-place de-duplication, and the auth-mode mappings.
 */
module WifiConfig {
  import opened Bytes

  // ---------------------------------------------------------------------
  // CRC-32
  // ---------------------------------------------------------------------

  const CRC_POLY: bv32 := 0xEDB88320
  const CRC_INIT: bv32 := 0xFFFFFFFF

  /**
   * The firmware's literal 256-entry lookup table, written as 32 rows of
   * eight entries exactly as they appear in the source.
   */
  function CrcTable(i: bv8): bv32
  {
    var col := i & 7;
    match i >> 3
    case 0 => CrcRow0(col)
    case 1 => CrcRow1(col)
    case 2 => CrcRow2(col)
    case 3 => CrcRow3(col)
    case 4 => CrcRow4(col)
    case 5 => CrcRow5(col)
    case 6 => CrcRow6(col)
    case 7 => CrcRow7(col)
    case 8 => CrcRow8(col)
    case 9 => CrcRow9(col)
    case 10 => CrcRow10(col)
    case 11 => CrcRow11(col)
    case 12 => CrcRow12(col)
    case 13 => CrcRow13(col)
    case 14 => CrcRow14(col)
    case 15 => CrcRow15(col)
    case 16 => CrcRow16(col)
    case 17 => CrcRow17(col)
    case 18 => CrcRow18(col)
    case 19 => CrcRow19(col)
    case 20 => CrcRow20(col)
    case 21 => CrcRow21(col)
    case 22 => CrcRow22(col)
    case 23 => CrcRow23(col)
    case 24 => CrcRow24(col)
    case 25 => CrcRow25(col)
    case 26 => CrcRow26(col)
    case 27 => CrcRow27(col)
    case 28 => CrcRow28(col)
    case 29 => CrcRow29(col)
    case 30 => CrcRow30(col)
    case 31 => CrcRow31(col)
  }

  function CrcRow0(c: bv8): bv32
  {
    match c
    case 0 => 0x00000000
    case 1 => 0x77073096
    case 2 => 0xee0e612c
    case 3 => 0x990951ba
    case 4 => 0x076dc419
    case 5 => 0x706af48f
    case 6 => 0xe963a535
    case _ => 0x9e6495a3
  }

  function CrcRow1(c: bv8): bv32
  {
    match c
    case 0 => 0x0edb8832
    case 1 => 0x79dcb8a4
    case 2 => 0xe0d5e91e
    case 3 => 0x97d2d988
    case 4 => 0x09b64c2b
    case 5 => 0x7eb17cbd
    case 6 => 0xe7b82d07
    case _ => 0x90bf1d91
  }

  function CrcRow2(c: bv8): bv32
  {
    match c
    case 0 => 0x1db71064
    case 1 => 0x6ab020f2
    case 2 => 0xf3b97148
    case 3 => 0x84be41de
    case 4 => 0x1adad47d
    case 5 => 0x6ddde4eb
    case 6 => 0xf4d4b551
    case _ => 0x83d385c7
  }

  function CrcRow3(c: bv8): bv32
  {
    match c
    case 0 => 0x136c9856
    case 1 => 0x646ba8c0
    case 2 => 0xfd62f97a
    case 3 => 0x8a65c9ec
    case 4 => 0x14015c4f
    case 5 => 0x63066cd9
    case 6 => 0xfa0f3d63
    case _ => 0x8d080df5
  }

  function CrcRow4(c: bv8): bv32
  {
    match c
    case 0 => 0x3b6e20c8
    case 1 => 0x4c69105e
    case 2 => 0xd56041e4
    case 3 => 0xa2677172
    case 4 => 0x3c03e4d1
    case 5 => 0x4b04d447
    case 6 => 0xd20d85fd
    case _ => 0xa50ab56b
  }

  function CrcRow5(c: bv8): bv32
  {
    match c
    case 0 => 0x35b5a8fa
    case 1 => 0x42b2986c
    case 2 => 0xdbbbc9d6
    case 3 => 0xacbcf940
    case 4 => 0x32d86ce3
    case 5 => 0x45df5c75
    case 6 => 0xdcd60dcf
    case _ => 0xabd13d59
  }

  function CrcRow6(c: bv8): bv32
  {
    match c
    case 0 => 0x26d930ac
    case 1 => 0x51de003a
    case 2 => 0xc8d75180
    case 3 => 0xbfd06116
    case 4 => 0x21b4f4b5
    case 5 => 0x56b3c423
    case 6 => 0xcfba9599
    case _ => 0xb8bda50f
  }

  function CrcRow7(c: bv8): bv32
  {
    match c
    case 0 => 0x2802b89e
    case 1 => 0x5f058808
    case 2 => 0xc60cd9b2
    case 3 => 0xb10be924
    case 4 => 0x2f6f7c87
    case 5 => 0x58684c11
    case 6 => 0xc1611dab
    case _ => 0xb6662d3d
  }

  function CrcRow8(c: bv8): bv32
  {
    match c
    case 0 => 0x76dc4190
    case 1 => 0x01db7106
    case 2 => 0x98d220bc
    case 3 => 0xefd5102a
    case 4 => 0x71b18589
    case 5 => 0x06b6b51f
    case 6 => 0x9fbfe4a5
    case _ => 0xe8b8d433
  }

  function CrcRow9(c: bv8): bv32
  {
    match c
    case 0 => 0x7807c9a2
    case 1 => 0x0f00f934
    case 2 => 0x9609a88e
    case 3 => 0xe10e9818
    case 4 => 0x7f6a0dbb
    case 5 => 0x086d3d2d
    case 6 => 0x91646c97
    case _ => 0xe6635c01
  }

  function CrcRow10(c: bv8): bv32
  {
    match c
    case 0 => 0x6b6b51f4
    case 1 => 0x1c6c6162
    case 2 => 0x856530d8
    case 3 => 0xf262004e
    case 4 => 0x6c0695ed
    case 5 => 0x1b01a57b
    case 6 => 0x8208f4c1
    case _ => 0xf50fc457
  }

  function CrcRow11(c: bv8): bv32
  {
    match c
    case 0 => 0x65b0d9c6
    case 1 => 0x12b7e950
    case 2 => 0x8bbeb8ea
    case 3 => 0xfcb9887c
    case 4 => 0x62dd1ddf
    case 5 => 0x15da2d49
    case 6 => 0x8cd37cf3
    case _ => 0xfbd44c65
  }

  function CrcRow12(c: bv8): bv32
  {
    match c
    case 0 => 0x4db26158
    case 1 => 0x3ab551ce
    case 2 => 0xa3bc0074
    case 3 => 0xd4bb30e2
    case 4 => 0x4adfa541
    case 5 => 0x3dd895d7
    case 6 => 0xa4d1c46d
    case _ => 0xd3d6f4fb
  }

  function CrcRow13(c: bv8): bv32
  {
    match c
    case 0 => 0x4369e96a
    case 1 => 0x346ed9fc
    case 2 => 0xad678846
    case 3 => 0xda60b8d0
    case 4 => 0x44042d73
    case 5 => 0x33031de5
    case 6 => 0xaa0a4c5f
    case _ => 0xdd0d7cc9
  }

  function CrcRow14(c: bv8): bv32
  {
    match c
    case 0 => 0x5005713c
    case 1 => 0x270241aa
    case 2 => 0xbe0b1010
    case 3 => 0xc90c2086
    case 4 => 0x5768b525
    case 5 => 0x206f85b3
    case 6 => 0xb966d409
    case _ => 0xce61e49f
  }

  function CrcRow15(c: bv8): bv32
  {
    match c
    case 0 => 0x5edef90e
    case 1 => 0x29d9c998
    case 2 => 0xb0d09822
    case 3 => 0xc7d7a8b4
    case 4 => 0x59b33d17
    case 5 => 0x2eb40d81
    case 6 => 0xb7bd5c3b
    case _ => 0xc0ba6cad
  }

  function CrcRow16(c: bv8): bv32
  {
    match c
    case 0 => 0xedb88320
    case 1 => 0x9abfb3b6
    case 2 => 0x03b6e20c
    case 3 => 0x74b1d29a
    case 4 => 0xead54739
    case 5 => 0x9dd277af
    case 6 => 0x04db2615
    case _ => 0x73dc1683
  }

  function CrcRow17(c: bv8): bv32
  {
    match c
    case 0 => 0xe3630b12
    case 1 => 0x94643b84
    case 2 => 0x0d6d6a3e
    case 3 => 0x7a6a5aa8
    case 4 => 0xe40ecf0b
    case 5 => 0x9309ff9d
    case 6 => 0x0a00ae27
    case _ => 0x7d079eb1
  }

  function CrcRow18(c: bv8): bv32
  {
    match c
    case 0 => 0xf00f9344
    case 1 => 0x8708a3d2
    case 2 => 0x1e01f268
    case 3 => 0x6906c2fe
    case 4 => 0xf762575d
    case 5 => 0x806567cb
    case 6 => 0x196c3671
    case _ => 0x6e6b06e7
  }

  function CrcRow19(c: bv8): bv32
  {
    match c
    case 0 => 0xfed41b76
    case 1 => 0x89d32be0
    case 2 => 0x10da7a5a
    case 3 => 0x67dd4acc
    case 4 => 0xf9b9df6f
    case 5 => 0x8ebeeff9
    case 6 => 0x17b7be43
    case _ => 0x60b08ed5
  }

  function CrcRow20(c: bv8): bv32
  {
    match c
    case 0 => 0xd6d6a3e8
    case 1 => 0xa1d1937e
    case 2 => 0x38d8c2c4
    case 3 => 0x4fdff252
    case 4 => 0xd1bb67f1
    case 5 => 0xa6bc5767
    case 6 => 0x3fb506dd
    case _ => 0x48b2364b
  }

  function CrcRow21(c: bv8): bv32
  {
    match c
    case 0 => 0xd80d2bda
    case 1 => 0xaf0a1b4c
    case 2 => 0x36034af6
    case 3 => 0x41047a60
    case 4 => 0xdf60efc3
    case 5 => 0xa867df55
    case 6 => 0x316e8eef
    case _ => 0x4669be79
  }

  function CrcRow22(c: bv8): bv32
  {
    match c
    case 0 => 0xcb61b38c
    case 1 => 0xbc66831a
    case 2 => 0x256fd2a0
    case 3 => 0x5268e236
    case 4 => 0xcc0c7795
    case 5 => 0xbb0b4703
    case 6 => 0x220216b9
    case _ => 0x5505262f
  }

  function CrcRow23(c: bv8): bv32
  {
    match c
    case 0 => 0xc5ba3bbe
    case 1 => 0xb2bd0b28
    case 2 => 0x2bb45a92
    case 3 => 0x5cb36a04
    case 4 => 0xc2d7ffa7
    case 5 => 0xb5d0cf31
    case 6 => 0x2cd99e8b
    case _ => 0x5bdeae1d
  }

  function CrcRow24(c: bv8): bv32
  {
    match c
    case 0 => 0x9b64c2b0
    case 1 => 0xec63f226
    case 2 => 0x756aa39c
    case 3 => 0x026d930a
    case 4 => 0x9c0906a9
    case 5 => 0xeb0e363f
    case 6 => 0x72076785
    case _ => 0x05005713
  }

  function CrcRow25(c: bv8): bv32
  {
    match c
    case 0 => 0x95bf4a82
    case 1 => 0xe2b87a14
    case 2 => 0x7bb12bae
    case 3 => 0x0cb61b38
    case 4 => 0x92d28e9b
    case 5 => 0xe5d5be0d
    case 6 => 0x7cdcefb7
    case _ => 0x0bdbdf21
  }

  function CrcRow26(c: bv8): bv32
  {
    match c
    case 0 => 0x86d3d2d4
    case 1 => 0xf1d4e242
    case 2 => 0x68ddb3f8
    case 3 => 0x1fda836e
    case 4 => 0x81be16cd
    case 5 => 0xf6b9265b
    case 6 => 0x6fb077e1
    case _ => 0x18b74777
  }

  function CrcRow27(c: bv8): bv32
  {
    match c
    case 0 => 0x88085ae6
    case 1 => 0xff0f6a70
    case 2 => 0x66063bca
    case 3 => 0x11010b5c
    case 4 => 0x8f659eff
    case 5 => 0xf862ae69
    case 6 => 0x616bffd3
    case _ => 0x166ccf45
  }

  function CrcRow28(c: bv8): bv32
  {
    match c
    case 0 => 0xa00ae278
    case 1 => 0xd70dd2ee
    case 2 => 0x4e048354
    case 3 => 0x3903b3c2
    case 4 => 0xa7672661
    case 5 => 0xd06016f7
    case 6 => 0x4969474d
    case _ => 0x3e6e77db
  }

  function CrcRow29(c: bv8): bv32
  {
    match c
    case 0 => 0xaed16a4a
    case 1 => 0xd9d65adc
    case 2 => 0x40df0b66
    case 3 => 0x37d83bf0
    case 4 => 0xa9bcae53
    case 5 => 0xdebb9ec5
    case 6 => 0x47b2cf7f
    case _ => 0x30b5ffe9
  }

  function CrcRow30(c: bv8): bv32
  {
    match c
    case 0 => 0xbdbdf21c
    case 1 => 0xcabac28a
    case 2 => 0x53b39330
    case 3 => 0x24b4a3a6
    case 4 => 0xbad03605
    case 5 => 0xcdd70693
    case 6 => 0x54de5729
    case _ => 0x23d967bf
  }

  function CrcRow31(c: bv8): bv32
  {
    match c
    case 0 => 0xb3667a2e
    case 1 => 0xc4614ab8
    case 2 => 0x5d681b02
    case 3 => 0x2a6f2b94
    case 4 => 0xb40bbe37
    case 5 => 0xc30c8ea1
    case 6 => 0x5a05df1b
    case _ => 0x2d02ef8d
  }

  /** One reflected shift step of the CRC register (the bitwise algorithm). */
  function ReflectedShift(c: bv32): bv32
  {
    if c & 1 == 1 then (c >> 1) ^ CRC_POLY else c >> 1
  }

  /** Eight reflected shift steps: what a table entry is meant to hold. */
  function ReflectedByte(c: bv32): bv32
  {
    ReflectedShift(ReflectedShift(ReflectedShift(ReflectedShift(
      ReflectedShift(ReflectedShift(ReflectedShift(ReflectedShift(c))))))))
  }

  lemma CrcRow0Reflected(c: bv8)
    requires c < 8
    ensures CrcRow0(c) == ReflectedByte(0 + c as bv32)
  {
    if c == 0 { }
    else if c == 1 { }
    else if c == 2 { }
    else if c == 3 { }
    else if c == 4 { }
    else if c == 5 { }
    else if c == 6 { }
    else if c == 7 { }
  }

  lemma CrcRow0Entries(i: bv8)
    requires i >> 3 == 0
    ensures CrcTable(i) == ReflectedByte(i as bv32)
  {
    CrcRow0Reflected(i & 7);
    assert i as bv32 == 0 + (i & 7) as bv32;
  }

  lemma CrcRow1Reflected(c: bv8)
    requires c < 8
    ensures CrcRow1(c) == ReflectedByte(8 + c as bv32)
  {
    if c == 0 { }
    else if c == 1 { }
    else if c == 2 { }
    else if c == 3 { }
    else if c == 4 { }
    else if c == 5 { }
    else if c == 6 { }
    else if c == 7 { }
  }

  lemma CrcRow1Entries(i: bv8)
    requires i >> 3 == 1
    ensures CrcTable(i) == ReflectedByte(i as bv32)
  {
    CrcRow1Reflected(i & 7);
    assert i as bv32 == 8 + (i & 7) as bv32;
  }

  lemma CrcRow2Reflected(c: bv8)
    requires c < 8
    ensures CrcRow2(c) == ReflectedByte(16 + c as bv32)
  {
    if c == 0 { }
    else if c == 1 { }
    else if c == 2 { }
    else if c == 3 { }
    else if c == 4 { }
    else if c == 5 { }
    else if c == 6 { }
    else if c == 7 { }
  }

  lemma CrcRow2Entries(i: bv8)
    requires i >> 3 == 2
    ensures CrcTable(i) == ReflectedByte(i as bv32)
  {
    CrcRow2Reflected(i & 7);
    assert i as bv32 == 16 + (i & 7) as bv32;
  }

  lemma CrcRow3Reflected(c: bv8)
    requires c < 8
    ensures CrcRow3(c) == ReflectedByte(24 + c as bv32)
  {
    if c == 0 { }
    else if c == 1 { }
    else if c == 2 { }
    else if c == 3 { }
    else if c == 4 { }
    else if c == 5 { }
    else if c == 6 { }
    else if c == 7 { }
  }

  lemma CrcRow3Entries(i: bv8)
    requires i >> 3 == 3
    ensures CrcTable(i) == ReflectedByte(i as bv32)
  {
    CrcRow3Reflected(i & 7);
    assert i as bv32 == 24 + (i & 7) as bv32;
  }

  lemma CrcRow4Reflected(c: bv8)
    requires c < 8
    ensures CrcRow4(c) == ReflectedByte(32 + c as bv32)
  {
    if c == 0 { }
    else if c == 1 { }
    else if c == 2 { }
    else if c == 3 { }
    else if c == 4 { }
    else if c == 5 { }
    else if c == 6 { }
    else if c == 7 { }
  }

  lemma CrcRow4Entries(i: bv8)
    requires i >> 3 == 4
    ensures CrcTable(i) == ReflectedByte(i as bv32)
  {
    CrcRow4Reflected(i & 7);
    assert i as bv32 == 32 + (i & 7) as bv32;
  }

  lemma CrcRow5Reflected(c: bv8)
    requires c < 8
    ensures CrcRow5(c) == ReflectedByte(40 + c as bv32)
  {
    if c == 0 { }
    else if c == 1 { }
    else if c == 2 { }
    else if c == 3 { }
    else if c == 4 { }
    else if c == 5 { }
    else if c == 6 { }
    else if c == 7 { }
  }

  lemma CrcRow5Entries(i: bv8)
    requires i >> 3 == 5
    ensures CrcTable(i) == ReflectedByte(i as bv32)
  {
    CrcRow5Reflected(i & 7);
    assert i as bv32 == 40 + (i & 7) as bv32;
  }

  lemma CrcRow6Reflected(c: bv8)
    requires c < 8
    ensures CrcRow6(c) == ReflectedByte(48 + c as bv32)
  {
    if c == 0 { }
    else if c == 1 { }
    else if c == 2 { }
    else if c == 3 { }
    else if c == 4 { }
    else if c == 5 { }
    else if c == 6 { }
    else if c == 7 { }
  }

  lemma CrcRow6Entries(i: bv8)
    requires i >> 3 == 6
    ensures CrcTable(i) == ReflectedByte(i as bv32)
  {
    CrcRow6Reflected(i & 7);
    assert i as bv32 == 48 + (i & 7) as bv32;
  }

  lemma CrcRow7Reflected(c: bv8)
    requires c < 8
    ensures CrcRow7(c) == ReflectedByte(56 + c as bv32)
  {
    if c == 0 { }
    else if c == 1 { }
    else if c == 2 { }
    else if c == 3 { }
    else if c == 4 { }
    else if c == 5 { }
    else if c == 6 { }
    else if c == 7 { }
  }

  lemma CrcRow7Entries(i: bv8)
    requires i >> 3 == 7
    ensures CrcTable(i) == ReflectedByte(i as bv32)
  {
    CrcRow7Reflected(i & 7);
    assert i as bv32 == 56 + (i & 7) as bv32;
  }

  lemma CrcRow8Reflected(c: bv8)
    requires c < 8
    ensures CrcRow8(c) == ReflectedByte(64 + c as bv32)
  {
    if c == 0 { }
    else if c == 1 { }
    else if c == 2 { }
    else if c == 3 { }
    else if c == 4 { }
    else if c == 5 { }
    else if c == 6 { }
    else if c == 7 { }
  }

  lemma CrcRow8Entries(i: bv8)
    requires i >> 3 == 8
    ensures CrcTable(i) == ReflectedByte(i as bv32)
  {
    CrcRow8Reflected(i & 7);
    assert i as bv32 == 64 + (i & 7) as bv32;
  }

  lemma CrcRow9Reflected(c: bv8)
    requires c < 8
    ensures CrcRow9(c) == ReflectedByte(72 + c as bv32)
  {
    if c == 0 { }
    else if c == 1 { }
    else if c == 2 { }
    else if c == 3 { }
    else if c == 4 { }
    else if c == 5 { }
    else if c == 6 { }
    else if c == 7 { }
  }

  lemma CrcRow9Entries(i: bv8)
    requires i >> 3 == 9
    ensures CrcTable(i) == ReflectedByte(i as bv32)
  {
    CrcRow9Reflected(i & 7);
    assert i as bv32 == 72 + (i & 7) as bv32;
  }

  lemma CrcRow10Reflected(c: bv8)
    requires c < 8
    ensures CrcRow10(c) == ReflectedByte(80 + c as bv32)
  {
    if c == 0 { }
    else if c == 1 { }
    else if c == 2 { }
    else if c == 3 { }
    else if c == 4 { }
    else if c == 5 { }
    else if c == 6 { }
    else if c == 7 { }
  }

  lemma CrcRow10Entries(i: bv8)
    requires i >> 3 == 10
    ensures CrcTable(i) == ReflectedByte(i as bv32)
  {
    CrcRow10Reflected(i & 7);
    assert i as bv32 == 80 + (i & 7) as bv32;
  }

  lemma CrcRow11Reflected(c: bv8)
    requires c < 8
    ensures CrcRow11(c) == ReflectedByte(88 + c as bv32)
  {
    if c == 0 { }
    else if c == 1 { }
    else if c == 2 { }
    else if c == 3 { }
    else if c == 4 { }
    else if c == 5 { }
    else if c == 6 { }
    else if c == 7 { }
  }

  lemma CrcRow11Entries(i: bv8)
    requires i >> 3 == 11
    ensures CrcTable(i) == ReflectedByte(i as bv32)
  {
    CrcRow11Reflected(i & 7);
    assert i as bv32 == 88 + (i & 7) as bv32;
  }

  lemma CrcRow12Reflected(c: bv8)
    requires c < 8
    ensures CrcRow12(c) == ReflectedByte(96 + c as bv32)
  {
    if c == 0 { }
    else if c == 1 { }
    else if c == 2 { }
    else if c == 3 { }
    else if c == 4 { }
    else if c == 5 { }
    else if c == 6 { }
    else if c == 7 { }
  }

  lemma CrcRow12Entries(i: bv8)
    requires i >> 3 == 12
    ensures CrcTable(i) == ReflectedByte(i as bv32)
  {
    CrcRow12Reflected(i & 7);
    assert i as bv32 == 96 + (i & 7) as bv32;
  }

  lemma CrcRow13Reflected(c: bv8)
    requires c < 8
    ensures CrcRow13(c) == ReflectedByte(104 + c as bv32)
  {
    if c == 0 { }
    else if c == 1 { }
    else if c == 2 { }
    else if c == 3 { }
    else if c == 4 { }
    else if c == 5 { }
    else if c == 6 { }
    else if c == 7 { }
  }

  lemma CrcRow13Entries(i: bv8)
    requires i >> 3 == 13
    ensures CrcTable(i) == ReflectedByte(i as bv32)
  {
    CrcRow13Reflected(i & 7);
    assert i as bv32 == 104 + (i & 7) as bv32;
  }

  lemma CrcRow14Reflected(c: bv8)
    requires c < 8
    ensures CrcRow14(c) == ReflectedByte(112 + c as bv32)
  {
    if c == 0 { }
    else if c == 1 { }
    else if c == 2 { }
    else if c == 3 { }
    else if c == 4 { }
    else if c == 5 { }
    else if c == 6 { }
    else if c == 7 { }
  }

  lemma CrcRow14Entries(i: bv8)
    requires i >> 3 == 14
    ensures CrcTable(i) == ReflectedByte(i as bv32)
  {
    CrcRow14Reflected(i & 7);
    assert i as bv32 == 112 + (i & 7) as bv32;
  }

  lemma CrcRow15Reflected(c: bv8)
    requires c < 8
    ensures CrcRow15(c) == ReflectedByte(120 + c as bv32)
  {
    if c == 0 { }
    else if c == 1 { }
    else if c == 2 { }
    else if c == 3 { }
    else if c == 4 { }
    else if c == 5 { }
    else if c == 6 { }
    else if c == 7 { }
  }

  lemma CrcRow15Entries(i: bv8)
    requires i >> 3 == 15
    ensures CrcTable(i) == ReflectedByte(i as bv32)
  {
    CrcRow15Reflected(i & 7);
    assert i as bv32 == 120 + (i & 7) as bv32;
  }

  lemma CrcRow16Reflected(c: bv8)
    requires c < 8
    ensures CrcRow16(c) == ReflectedByte(128 + c as bv32)
  {
    if c == 0 { }
    else if c == 1 { }
    else if c == 2 { }
    else if c == 3 { }
    else if c == 4 { }
    else if c == 5 { }
    else if c == 6 { }
    else if c == 7 { }
  }

  lemma CrcRow16Entries(i: bv8)
    requires i >> 3 == 16
    ensures CrcTable(i) == ReflectedByte(i as bv32)
  {
    CrcRow16Reflected(i & 7);
    assert i as bv32 == 128 + (i & 7) as bv32;
  }

  lemma CrcRow17Reflected(c: bv8)
    requires c < 8
    ensures CrcRow17(c) == ReflectedByte(136 + c as bv32)
  {
    if c == 0 { }
    else if c == 1 { }
    else if c == 2 { }
    else if c == 3 { }
    else if c == 4 { }
    else if c == 5 { }
    else if c == 6 { }
    else if c == 7 { }
  }

  lemma CrcRow17Entries(i: bv8)
    requires i >> 3 == 17
    ensures CrcTable(i) == ReflectedByte(i as bv32)
  {
    CrcRow17Reflected(i & 7);
    assert i as bv32 == 136 + (i & 7) as bv32;
  }

  lemma CrcRow18Reflected(c: bv8)
    requires c < 8
    ensures CrcRow18(c) == ReflectedByte(144 + c as bv32)
  {
    if c == 0 { }
    else if c == 1 { }
    else if c == 2 { }
    else if c == 3 { }
    else if c == 4 { }
    else if c == 5 { }
    else if c == 6 { }
    else if c == 7 { }
  }

  lemma CrcRow18Entries(i: bv8)
    requires i >> 3 == 18
    ensures CrcTable(i) == ReflectedByte(i as bv32)
  {
    CrcRow18Reflected(i & 7);
    assert i as bv32 == 144 + (i & 7) as bv32;
  }

  lemma CrcRow19Reflected(c: bv8)
    requires c < 8
    ensures CrcRow19(c) == ReflectedByte(152 + c as bv32)
  {
    if c == 0 { }
    else if c == 1 { }
    else if c == 2 { }
    else if c == 3 { }
    else if c == 4 { }
    else if c == 5 { }
    else if c == 6 { }
    else if c == 7 { }
  }

  lemma CrcRow19Entries(i: bv8)
    requires i >> 3 == 19
    ensures CrcTable(i) == ReflectedByte(i as bv32)
  {
    CrcRow19Reflected(i & 7);
    assert i as bv32 == 152 + (i & 7) as bv32;
  }

  lemma CrcRow20Reflected(c: bv8)
    requires c < 8
    ensures CrcRow20(c) == ReflectedByte(160 + c as bv32)
  {
    if c == 0 { }
    else if c == 1 { }
    else if c == 2 { }
    else if c == 3 { }
    else if c == 4 { }
    else if c == 5 { }
    else if c == 6 { }
    else if c == 7 { }
  }

  lemma CrcRow20Entries(i: bv8)
    requires i >> 3 == 20
    ensures CrcTable(i) == ReflectedByte(i as bv32)
  {
    CrcRow20Reflected(i & 7);
    assert i as bv32 == 160 + (i & 7) as bv32;
  }

  lemma CrcRow21Reflected(c: bv8)
    requires c < 8
    ensures CrcRow21(c) == ReflectedByte(168 + c as bv32)
  {
    if c == 0 { }
    else if c == 1 { }
    else if c == 2 { }
    else if c == 3 { }
    else if c == 4 { }
    else if c == 5 { }
    else if c == 6 { }
    else if c == 7 { }
  }

  lemma CrcRow21Entries(i: bv8)
    requires i >> 3 == 21
    ensures CrcTable(i) == ReflectedByte(i as bv32)
  {
    CrcRow21Reflected(i & 7);
    assert i as bv32 == 168 + (i & 7) as bv32;
  }

  lemma CrcRow22Reflected(c: bv8)
    requires c < 8
    ensures CrcRow22(c) == ReflectedByte(176 + c as bv32)
  {
    if c == 0 { }
    else if c == 1 { }
    else if c == 2 { }
    else if c == 3 { }
    else if c == 4 { }
    else if c == 5 { }
    else if c == 6 { }
    else if c == 7 { }
  }

  lemma CrcRow22Entries(i: bv8)
    requires i >> 3 == 22
    ensures CrcTable(i) == ReflectedByte(i as bv32)
  {
    CrcRow22Reflected(i & 7);
    assert i as bv32 == 176 + (i & 7) as bv32;
  }

  lemma CrcRow23Reflected(c: bv8)
    requires c < 8
    ensures CrcRow23(c) == ReflectedByte(184 + c as bv32)
  {
    if c == 0 { }
    else if c == 1 { }
    else if c == 2 { }
    else if c == 3 { }
    else if c == 4 { }
    else if c == 5 { }
    else if c == 6 { }
    else if c == 7 { }
  }

  lemma CrcRow23Entries(i: bv8)
    requires i >> 3 == 23
    ensures CrcTable(i) == ReflectedByte(i as bv32)
  {
    CrcRow23Reflected(i & 7);
    assert i as bv32 == 184 + (i & 7) as bv32;
  }

  lemma CrcRow24Reflected(c: bv8)
    requires c < 8
    ensures CrcRow24(c) == ReflectedByte(192 + c as bv32)
  {
    if c == 0 { }
    else if c == 1 { }
    else if c == 2 { }
    else if c == 3 { }
    else if c == 4 { }
    else if c == 5 { }
    else if c == 6 { }
    else if c == 7 { }
  }

  lemma CrcRow24Entries(i: bv8)
    requires i >> 3 == 24
    ensures CrcTable(i) == ReflectedByte(i as bv32)
  {
    CrcRow24Reflected(i & 7);
    assert i as bv32 == 192 + (i & 7) as bv32;
  }

  lemma CrcRow25Reflected(c: bv8)
    requires c < 8
    ensures CrcRow25(c) == ReflectedByte(200 + c as bv32)
  {
    if c == 0 { }
    else if c == 1 { }
    else if c == 2 { }
    else if c == 3 { }
    else if c == 4 { }
    else if c == 5 { }
    else if c == 6 { }
    else if c == 7 { }
  }

  lemma CrcRow25Entries(i: bv8)
    requires i >> 3 == 25
    ensures CrcTable(i) == ReflectedByte(i as bv32)
  {
    CrcRow25Reflected(i & 7);
    assert i as bv32 == 200 + (i & 7) as bv32;
  }

  lemma CrcRow26Reflected(c: bv8)
    requires c < 8
    ensures CrcRow26(c) == ReflectedByte(208 + c as bv32)
  {
    if c == 0 { }
    else if c == 1 { }
    else if c == 2 { }
    else if c == 3 { }
    else if c == 4 { }
    else if c == 5 { }
    else if c == 6 { }
    else if c == 7 { }
  }

  lemma CrcRow26Entries(i: bv8)
    requires i >> 3 == 26
    ensures CrcTable(i) == ReflectedByte(i as bv32)
  {
    CrcRow26Reflected(i & 7);
    assert i as bv32 == 208 + (i & 7) as bv32;
  }

  lemma CrcRow27Reflected(c: bv8)
    requires c < 8
    ensures CrcRow27(c) == ReflectedByte(216 + c as bv32)
  {
    if c == 0 { }
    else if c == 1 { }
    else if c == 2 { }
    else if c == 3 { }
    else if c == 4 { }
    else if c == 5 { }
    else if c == 6 { }
    else if c == 7 { }
  }

  lemma CrcRow27Entries(i: bv8)
    requires i >> 3 == 27
    ensures CrcTable(i) == ReflectedByte(i as bv32)
  {
    CrcRow27Reflected(i & 7);
    assert i as bv32 == 216 + (i & 7) as bv32;
  }

  lemma CrcRow28Reflected(c: bv8)
    requires c < 8
    ensures CrcRow28(c) == ReflectedByte(224 + c as bv32)
  {
    if c == 0 { }
    else if c == 1 { }
    else if c == 2 { }
    else if c == 3 { }
    else if c == 4 { }
    else if c == 5 { }
    else if c == 6 { }
    else if c == 7 { }
  }

  lemma CrcRow28Entries(i: bv8)
    requires i >> 3 == 28
    ensures CrcTable(i) == ReflectedByte(i as bv32)
  {
    CrcRow28Reflected(i & 7);
    assert i as bv32 == 224 + (i & 7) as bv32;
  }

  lemma CrcRow29Reflected(c: bv8)
    requires c < 8
    ensures CrcRow29(c) == ReflectedByte(232 + c as bv32)
  {
    if c == 0 { }
    else if c == 1 { }
    else if c == 2 { }
    else if c == 3 { }
    else if c == 4 { }
    else if c == 5 { }
    else if c == 6 { }
    else if c == 7 { }
  }

  lemma CrcRow29Entries(i: bv8)
    requires i >> 3 == 29
    ensures CrcTable(i) == ReflectedByte(i as bv32)
  {
    CrcRow29Reflected(i & 7);
    assert i as bv32 == 232 + (i & 7) as bv32;
  }

  lemma CrcRow30Reflected(c: bv8)
    requires c < 8
    ensures CrcRow30(c) == ReflectedByte(240 + c as bv32)
  {
    if c == 0 { }
    else if c == 1 { }
    else if c == 2 { }
    else if c == 3 { }
    else if c == 4 { }
    else if c == 5 { }
    else if c == 6 { }
    else if c == 7 { }
  }

  lemma CrcRow30Entries(i: bv8)
    requires i >> 3 == 30
    ensures CrcTable(i) == ReflectedByte(i as bv32)
  {
    CrcRow30Reflected(i & 7);
    assert i as bv32 == 240 + (i & 7) as bv32;
  }

  lemma CrcRow31Reflected(c: bv8)
    requires c < 8
    ensures CrcRow31(c) == ReflectedByte(248 + c as bv32)
  {
    if c == 0 { }
    else if c == 1 { }
    else if c == 2 { }
    else if c == 3 { }
    else if c == 4 { }
    else if c == 5 { }
    else if c == 6 { }
    else if c == 7 { }
  }

  lemma CrcRow31Entries(i: bv8)
    requires i >> 3 == 31
    ensures CrcTable(i) == ReflectedByte(i as bv32)
  {
    CrcRow31Reflected(i & 7);
    assert i as bv32 == 248 + (i & 7) as bv32;
  }

  /** Every entry of the literal table is eight reflected shift steps of its index. */
  lemma CrcTableIsReflected(i: bv8)
    ensures CrcTable(i) == ReflectedByte(i as bv32)
  {
    match i >> 3
    case 0 => CrcRow0Entries(i);
    case 1 => CrcRow1Entries(i);
    case 2 => CrcRow2Entries(i);
    case 3 => CrcRow3Entries(i);
    case 4 => CrcRow4Entries(i);
    case 5 => CrcRow5Entries(i);
    case 6 => CrcRow6Entries(i);
    case 7 => CrcRow7Entries(i);
    case 8 => CrcRow8Entries(i);
    case 9 => CrcRow9Entries(i);
    case 10 => CrcRow10Entries(i);
    case 11 => CrcRow11Entries(i);
    case 12 => CrcRow12Entries(i);
    case 13 => CrcRow13Entries(i);
    case 14 => CrcRow14Entries(i);
    case 15 => CrcRow15Entries(i);
    case 16 => CrcRow16Entries(i);
    case 17 => CrcRow17Entries(i);
    case 18 => CrcRow18Entries(i);
    case 19 => CrcRow19Entries(i);
    case 20 => CrcRow20Entries(i);
    case 21 => CrcRow21Entries(i);
    case 22 => CrcRow22Entries(i);
    case 23 => CrcRow23Entries(i);
    case 24 => CrcRow24Entries(i);
    case 25 => CrcRow25Entries(i);
    case 26 => CrcRow26Entries(i);
    case 27 => CrcRow27Entries(i);
    case 28 => CrcRow28Entries(i);
    case 29 => CrcRow29Entries(i);
    case 30 => CrcRow30Entries(i);
    case 31 => CrcRow31Entries(i);
  }
  /** The register update of calculate_crc32 for one input byte. */
  function CrcStep(crc: bv32, b: byte): bv32
  {
    CrcTable(((crc ^ b as bv32) & 0xFF) as bv8) ^ (crc >> 8)
  }

  /** The register after feeding `data`, byte by byte, starting from `crc`. */
  function CrcRegister(crc: bv32, data: seq<byte>): bv32
    decreases |data|
  {
    if |data| == 0 then crc
    else CrcStep(CrcRegister(crc, data[..|data| - 1]), data[|data| - 1])
  }

  /** calculate_crc32: initial register all ones, result complemented. */
  function Crc32(data: seq<byte>): bv32
  {
    !CrcRegister(CRC_INIT, data)
  }

  /** calculate_crc32 as the firmware runs it: one table lookup per byte. */
  method CalculateCrc32(data: seq<byte>) returns (crc: bv32)
    ensures crc == Crc32(data)
  {
    var reg := CRC_INIT;
    var i := 0;
    while i < |data|
      invariant 0 <= i <= |data|
      invariant reg == CrcRegister(CRC_INIT, data[..i])
    {
      assert data[..i + 1][..i] == data[..i];
      reg := CrcStep(reg, data[i]);
      i := i + 1;
    }
    assert data[..|data|] == data;
    crc := !reg;
  }

  /** The checksum of no bytes is 0: the register stays all ones. */
  lemma Crc32Empty()
    ensures Crc32([]) == 0
  {
  }

  /** The CRC register is incremental: a++b is b fed after a. */
  lemma {:induction false} CrcRegisterAppend(crc: bv32, a: seq<byte>, b: seq<byte>)
    ensures CrcRegister(crc, a + b) == CrcRegister(CrcRegister(crc, a), b)
    decreases |b|
  {
    if |b| == 0 {
      assert a + b == a;
    } else {
      var b' := b[..|b| - 1];
      assert (a + b)[..|a + b| - 1] == a + b';
      assert (a + b)[|a + b| - 1] == b[|b| - 1];
      CrcRegisterAppend(crc, a, b');
    }
  }

  // ---------------------------------------------------------------------
  // Flash record (wifi_config_t, 112 bytes little-endian)
  // ---------------------------------------------------------------------

  const WIFI_CONFIG_MAGIC: int := 0x57494649
  const WIFI_SSID_MAX_LEN: int := 32
  const WIFI_PASS_MAX_LEN: int := 64
  /** sizeof(wifi_config_t): 4 + 33 + 65 + 2 bytes of padding + 4 + 4. */
  const CONFIG_SIZE: int := 112
  /** Offset of the trailing crc32 field; the CRC covers the bytes before it. */
  const CRC_OFFSET: int := 108

  predicate IsU32(v: int) { 0 <= v < 0x1_0000_0000 }

  /** A 32-bit value as four little-endian bytes (the RP2040 byte order). */
  function LE32(v: int): (r: seq<byte>)
    requires IsU32(v)
    ensures |r| == 4
  {
    var q1 := v / 256;
    var q2 := q1 / 256;
    var q3 := q2 / 256;
    [(v % 256) as byte, (q1 % 256) as byte, (q2 % 256) as byte, q3 as byte]
  }

  function ReadLE32(s: seq<byte>, off: nat): (v: int)
    requires off + 4 <= |s|
    ensures IsU32(v)
  {
    s[off] as int + 256 * (s[off + 1] as int + 256 * (s[off + 2] as int + 256 * s[off + 3] as int))
  }

  lemma ByteSplit(a: int, k: int)
    requires 0 <= a < 256 && 0 <= k
    ensures (a + 256 * k) % 256 == a && (a + 256 * k) / 256 == k
  {
  }

  lemma ReadLE32OfLE32(v: int)
    requires IsU32(v)
    ensures ReadLE32(LE32(v), 0) == v
  {
    var q1 := v / 256;
    var q2 := q1 / 256;
    var q3 := q2 / 256;
    assert q3 < 256;
    assert q2 == q2 % 256 + 256 * q3;
    assert q1 == q1 % 256 + 256 * q2;
    assert v == v % 256 + 256 * q1;
  }

  lemma LE32OfReadLE32(s: seq<byte>, off: nat)
    requires off + 4 <= |s|
    ensures LE32(ReadLE32(s, off)) == s[off..off + 4]
  {
    var b0, b1, b2, b3 := s[off] as int, s[off + 1] as int, s[off + 2] as int, s[off + 3] as int;
    var t2 := b2 + 256 * b3;
    var t1 := b1 + 256 * t2;
    var v := b0 + 256 * t1;
    ByteSplit(b0, t1);
    ByteSplit(b1, t2);
    ByteSplit(b2, b3);
    assert v / 256 == t1 && t1 / 256 == t2 && t2 / 256 == b3;
  }

  /** wifi_config_t, field by field; the character arrays keep all their bytes. */
  datatype WifiConfigRecord = WifiConfigRecord(
    magic: int,
    ssid: seq<byte>,
    password: seq<byte>,
    padding: seq<byte>,
    authMode: int,
    crc32: int)

  predicate WellFormed(r: WifiConfigRecord)
  {
    IsU32(r.magic) && |r.ssid| == WIFI_SSID_MAX_LEN + 1
    && |r.password| == WIFI_PASS_MAX_LEN + 1 && |r.padding| == 2
    && IsU32(r.authMode) && IsU32(r.crc32)
  }

  /** The record's bytes as stored in flash. */
  function Image(r: WifiConfigRecord): (img: seq<byte>)
    requires WellFormed(r)
    ensures |img| == CONFIG_SIZE
  {
    LE32(r.magic) + r.ssid + r.password + r.padding + LE32(r.authMode) + LE32(r.crc32)
  }

  /** Reading a record back from its 112 flash bytes (the memcpy of the load). */
  function Decode(img: seq<byte>): (r: WifiConfigRecord)
    requires |img| == CONFIG_SIZE
    ensures WellFormed(r)
  {
    WifiConfigRecord(ReadLE32(img, 0), img[4..37], img[37..102], img[102..104],
                     ReadLE32(img, 104), ReadLE32(img, 108))
  }

  lemma DecodeImage(r: WifiConfigRecord)
    requires WellFormed(r)
    ensures Decode(Image(r)) == r
  {
    var img := Image(r);
    assert img[0..4] == LE32(r.magic);
    assert img[4..37] == r.ssid;
    assert img[37..102] == r.password;
    assert img[102..104] == r.padding;
    assert img[104..108] == LE32(r.authMode);
    assert img[108..112] == LE32(r.crc32);
    ReadLE32OfLE32(r.magic);
    ReadLE32OfLE32(r.authMode);
    ReadLE32OfLE32(r.crc32);
    assert ReadLE32(img, 0) == ReadLE32(LE32(r.magic), 0);
    assert ReadLE32(img, 104) == ReadLE32(LE32(r.authMode), 0);
    assert ReadLE32(img, 108) == ReadLE32(LE32(r.crc32), 0);
  }

  lemma ImageOfDecode(img: seq<byte>)
    requires |img| == CONFIG_SIZE
    ensures Image(Decode(img)) == img
  {
    var r := Decode(img);
    LE32OfReadLE32(img, 0);
    LE32OfReadLE32(img, 104);
    LE32OfReadLE32(img, 108);
    assert img == img[0..4] + img[4..37] + img[37..102] + img[102..104]
                  + img[104..108] + img[108..112];
  }

  /**
   * wifi_config_load's validation of the flash image: the record is accepted
   * (and copied out) only when the magic matches and the CRC over the first
   * 108 bytes equals the stored crc32 field.
   */
  function LoadConfig(img: seq<byte>): (r: Option<WifiConfigRecord>)
    requires |img| == CONFIG_SIZE
    ensures r.Some? <==> ReadLE32(img, 0) == WIFI_CONFIG_MAGIC
                         && Crc32(img[..CRC_OFFSET]) as int == ReadLE32(img, CRC_OFFSET)
    ensures r.Some? ==> r.value == Decode(img)
  {
    if ReadLE32(img, 0) != WIFI_CONFIG_MAGIC then None
    else if Crc32(img[..CRC_OFFSET]) as int != ReadLE32(img, CRC_OFFSET) then None
    else Some(Decode(img))
  }

  /** wifi_config_save's stamping: magic set, crc32 computed over the first 108 bytes. */
  function StampConfig(r: WifiConfigRecord): (s: WifiConfigRecord)
    requires WellFormed(r)
    ensures WellFormed(s)
    ensures s.magic == WIFI_CONFIG_MAGIC
    ensures s.ssid == r.ssid && s.password == r.password && s.authMode == r.authMode
  {
    var m := r.(magic := WIFI_CONFIG_MAGIC);
    m.(crc32 := Crc32(Image(m)[..CRC_OFFSET]) as int)
  }

  /**
   * Round trip: an image written from a stamped record passes the load
   * validation and loads back the stamped record, so the save's read-back
   * check (load succeeds and the SSID compares equal) succeeds.
   */
  lemma SaveThenLoad(r: WifiConfigRecord)
    requires WellFormed(r)
    ensures LoadConfig(Image(StampConfig(r))) == Some(StampConfig(r))
  {
    var m := r.(magic := WIFI_CONFIG_MAGIC);
    var s := StampConfig(r);
    assert Image(s)[..CRC_OFFSET] == Image(m)[..CRC_OFFSET];
    DecodeImage(s);
    assert ReadLE32(Image(s), 0) == s.magic;
    assert ReadLE32(Image(s), CRC_OFFSET) == s.crc32;
  }

  // ---------------------------------------------------------------------
  // Scan results
  // ---------------------------------------------------------------------

  const MAX_SCAN_RESULTS: int := 20

  /** scan_result_t: the SSID bytes copied from the driver, auth (uint8), RSSI (int8). */
  datatype ScanResult = ScanResult(ssid: seq<byte>, authMode: byte, rssi: int)

  /** One result reported by the radio driver: its 32-byte SSID field and ssid_len. */
  datatype ScanEvent = ScanEvent(ssid: seq<byte>, ssidLen: byte, authMode: byte, rssi: int)

  /** What strcmp compares: the SSID up to its first NUL. */
  function SsidKey(r: ScanResult): seq<byte>
  {
    CString(r.ssid)
  }

  predicate HasSsid(d: seq<ScanResult>, key: seq<byte>)
  {
    exists j :: 0 <= j < |d| && SsidKey(d[j]) == key
  }

  /** Strongest first, as rssi_compare orders them. */
  predicate RssiNonIncreasing(s: seq<ScanResult>)
  {
    forall i, j :: 0 <= i < j < |s| ==> s[i].rssi >= s[j].rssi
  }

  predicate DistinctSsids(s: seq<ScanResult>)
  {
    forall i, j :: 0 <= i < j < |s| ==> SsidKey(s[i]) != SsidKey(s[j])
  }

  /** Some entry of `d` has the SSID of `r` and is at least as strong. */
  predicate KeptAtLeastAsStrong(d: seq<ScanResult>, r: ScanResult)
  {
    exists j :: 0 <= j < |d| && SsidKey(d[j]) == SsidKey(r) && d[j].rssi >= r.rssi
  }

  /** The de-duplication pass: each SSID's first occurrence survives, in order. */
  function DedupBySsid(s: seq<ScanResult>): seq<ScanResult>
    decreases |s|
  {
    if |s| == 0 then []
    else
      var d := DedupBySsid(s[..|s| - 1]);
      if HasSsid(d, SsidKey(s[|s| - 1])) then d else d + [s[|s| - 1]]
  }

  lemma DedupSnoc(p: seq<ScanResult>, x: ScanResult)
    ensures DedupBySsid(p + [x]) == if HasSsid(DedupBySsid(p), SsidKey(x)) then DedupBySsid(p)
                                    else DedupBySsid(p) + [x]
  {
    assert (p + [x])[..|p|] == p;
  }

  /** The pass over one more input entry. */
  lemma DedupNext(input: seq<ScanResult>, i: nat, kept: seq<ScanResult>)
    requires i < |input| && kept == DedupBySsid(input[..i])
    ensures DedupBySsid(input[..i + 1]) == if HasSsid(kept, SsidKey(input[i])) then kept else kept + [input[i]]
  {
    assert input[..i + 1] == input[..i] + [input[i]];
    DedupSnoc(input[..i], input[i]);
  }

  lemma {:induction false} DedupShape(s: seq<ScanResult>)
    ensures |DedupBySsid(s)| <= |s|
    ensures DistinctSsids(DedupBySsid(s))
    ensures forall y :: y in DedupBySsid(s) ==> y in s
    ensures forall i :: 0 <= i < |s| ==> HasSsid(DedupBySsid(s), SsidKey(s[i]))
    decreases |s|
  {
    if |s| > 0 {
      var p := s[..|s| - 1];
      DedupShape(p);
      forall i | 0 <= i < |s|
        ensures HasSsid(DedupBySsid(s), SsidKey(s[i]))
      {
        if i < |s| - 1 {
          assert s[i] == p[i];
          var d := DedupBySsid(p);
          var j :| 0 <= j < |d| && SsidKey(d[j]) == SsidKey(p[i]);
          assert DedupBySsid(s)[j] == d[j];
        } else {
          var d := DedupBySsid(p);
          if !HasSsid(d, SsidKey(s[i])) {
            assert DedupBySsid(s)[|d|] == s[i];
          }
        }
      }
    }
  }

  /** After sorting, de-duplication keeps the strongest-first order. */
  lemma {:induction false} DedupSorted(s: seq<ScanResult>)
    requires RssiNonIncreasing(s)
    ensures RssiNonIncreasing(DedupBySsid(s))
    decreases |s|
  {
    if |s| > 0 {
      var p := s[..|s| - 1];
      var x := s[|s| - 1];
      DedupSorted(p);
      DedupShape(p);
      var d := DedupBySsid(p);
      if !HasSsid(d, SsidKey(x)) {
        var ds := DedupBySsid(s);
        assert ds == d + [x];
        forall i, j | 0 <= i < j < |ds|
          ensures ds[i].rssi >= ds[j].rssi
        {
          if j == |d| {
            assert d[i] in p;
            var k :| 0 <= k < |p| && p[k] == d[i];
            assert s[k] == p[k];
          } else {
            assert ds[i] == d[i] && ds[j] == d[j];
          }
        }
      }
    }
  }

  /**
   * After sorting, for every SSID in the input de-duplication keeps an entry
   * at least as strong as any input entry with that SSID.
   */
  lemma {:induction false} DedupStrongest(s: seq<ScanResult>)
    requires RssiNonIncreasing(s)
    ensures forall i :: 0 <= i < |s| ==> KeptAtLeastAsStrong(DedupBySsid(s), s[i])
    decreases |s|
  {
    if |s| > 0 {
      var p := s[..|s| - 1];
      var x := s[|s| - 1];
      DedupStrongest(p);
      DedupShape(p);
      var d := DedupBySsid(p);
      var ds := DedupBySsid(s);
      assert |d| <= |ds| && forall j :: 0 <= j < |d| ==> ds[j] == d[j];
      forall i | 0 <= i < |s|
        ensures KeptAtLeastAsStrong(ds, s[i])
      {
        if i < |s| - 1 {
          assert s[i] == p[i];
          assert KeptAtLeastAsStrong(d, p[i]);
          var j :| 0 <= j < |d| && SsidKey(d[j]) == SsidKey(p[i]) && d[j].rssi >= p[i].rssi;
          assert ds[j] == d[j];
        } else if HasSsid(d, SsidKey(x)) {
          var j :| 0 <= j < |d| && SsidKey(d[j]) == SsidKey(x);
          assert d[j] in p;
          var k :| 0 <= k < |p| && p[k] == d[j];
          assert s[k] == p[k];
          assert ds[j] == d[j] && d[j].rssi >= x.rssi;
        } else {
          assert ds[|d|] == x;
        }
      }
    }
  }

  /**
   * After sorting, de-duplication keeps the order, and for every SSID in the
   * input it keeps an entry at least as strong as any input entry with that
   * SSID (the strongest one).
   */
  lemma DedupKeepsStrongest(s: seq<ScanResult>)
    requires RssiNonIncreasing(s)
    ensures RssiNonIncreasing(DedupBySsid(s))
    ensures forall i :: 0 <= i < |s| ==> KeptAtLeastAsStrong(DedupBySsid(s), s[i])
  {
    DedupSorted(s);
    DedupStrongest(s);
  }

  /** wifi_scan_state_t: up to 20 results, a count and the two status flags. */
  class WifiScanState {
    var results: array<ScanResult>
    var count: int
    var scanComplete: bool
    var scanError: bool

    predicate Valid()
      reads this
    {
      results.Length == MAX_SCAN_RESULTS && 0 <= count <= MAX_SCAN_RESULTS
    }

    /** The list as the UI reads it. */
    function Results(): seq<ScanResult>
      reads this, results
      requires Valid()
    {
      results[..count]
    }

    constructor ()
      ensures Valid() && count == 0 && !scanComplete && !scanError
    {
      results := new ScanResult[MAX_SCAN_RESULTS](_ => ScanResult([], 0, 0));
      count := 0;
      scanComplete := false;
      scanError := false;
    }

    /**
     * wifi_start_scan: refused (error flag set) while the radio is still
     * scanning; otherwise the state is zeroed and the driver asked to scan.
     */
    method StartScan(scanAlreadyActive: bool, driverResult: int) returns (ok: bool)
      requires Valid()
      modifies this, results
      ensures Valid()
      ensures scanAlreadyActive ==> !ok && scanError && count == old(count)
                                    && scanComplete == old(scanComplete)
                                    && results == old(results) && results[..] == old(results[..])
      ensures !scanAlreadyActive ==> count == 0 && !scanComplete
                                     && (ok <==> driverResult == 0) && scanError == !ok
                                     && results == old(results)
                                     && forall i :: 0 <= i < results.Length ==> results[i] == ScanResult([], 0, 0)
    {
      if scanAlreadyActive {
        scanError := true;
        return false;
      }
      forall i | 0 <= i < results.Length {
        results[i] := ScanResult([], 0, 0);
      }
      count := 0;
      scanComplete := false;
      scanError := false;
      if driverResult != 0 {
        scanError := true;
        return false;
      }
      return true;
    }

    /**
     * scan_result_callback: a result is appended only when there is room and
     * its SSID is non-empty; the SSID is cut to 32 bytes.
     */
    method OnScanResult(result: Option<ScanEvent>)
      requires Valid()
      requires result.Some? ==> |result.value.ssid| == WIFI_SSID_MAX_LEN
      modifies this, results
      ensures Valid() && results == old(results)
      ensures scanComplete == old(scanComplete) && scanError == old(scanError)
      ensures var appended := result.Some? && old(count) < MAX_SCAN_RESULTS && result.value.ssidLen > 0;
              if appended then
                var e := result.value;
                var n := Min(e.ssidLen as int, WIFI_SSID_MAX_LEN);
                count == old(count) + 1
                && Results() == old(Results()) + [ScanResult(e.ssid[..n], e.authMode, e.rssi)]
              else count == old(count) && results[..] == old(results[..])
    {
      if result.Some? && count < MAX_SCAN_RESULTS && result.value.ssidLen > 0 {
        var e := result.value;
        var n := Min(e.ssidLen as int, WIFI_SSID_MAX_LEN);
        results[count] := ScanResult(e.ssid[..n], e.authMode, e.rssi);
        count := count + 1;
      }
    }

    /** The check_idx scan of the compaction loop: strcmp against the kept entries. */
    method SsidAmongFirst(key: seq<byte>, n: int) returns (found: bool)
      requires Valid() && 0 <= n <= count
      ensures found <==> HasSsid(results[..n], key)
    {
      found := false;
      var checkIdx := 0;
      while checkIdx < n
        invariant 0 <= checkIdx <= n
        invariant forall j :: 0 <= j < checkIdx ==> SsidKey(results[j]) != key
      {
        if key == SsidKey(results[checkIdx]) {
          assert results[..n][checkIdx] == results[checkIdx];
          found := true;
          return;
        }
        checkIdx := checkIdx + 1;
      }
      assert forall j :: 0 <= j < n ==> results[..n][j] == results[j];
    }

    /**
     * wifi_sort_scan_results. `sorted` is the order the C library's qsort
     * leaves the first `count` results in (strongest first; equal strengths in
     * any order); the compaction pass then keeps the first entry of each SSID.
     */
    method SortScanResults(sorted: seq<ScanResult>)
      requires Valid()
      requires |sorted| == count && multiset(sorted) == multiset(results[..count])
      requires RssiNonIncreasing(sorted)
      modifies this, results
      ensures Valid() && results == old(results)
      ensures scanComplete == old(scanComplete) && scanError == old(scanError)
      ensures Results() == DedupBySsid(sorted)
    {
      if count == 0 {
        return;
      }
      forall i | 0 <= i < count {
        results[i] := sorted[i];
      }
      assert results[..count] == sorted;
      CompactDuplicates();
    }

    /** The write_idx/read_idx loop: drops every entry whose SSID is already kept. */
    method CompactDuplicates()
      requires Valid()
      modifies this, results
      ensures Valid() && results == old(results)
      ensures scanComplete == old(scanComplete) && scanError == old(scanError)
      ensures Results() == DedupBySsid(old(Results()))
    {
      var writeIdx := CompactInPlace();
      count := writeIdx;
    }

    /** The compaction loop itself, returning write_idx. */
    method CompactInPlace() returns (writeIdx: int)
      requires Valid()
      modifies results
      ensures 0 <= writeIdx <= count
      ensures results[..writeIdx] == DedupBySsid(old(results[..count]))
    {
      ghost var input := results[..count];
      writeIdx := 0;
      var readIdx := 0;
      while readIdx < count
        invariant 0 <= writeIdx <= readIdx <= count
        invariant results[..writeIdx] == DedupBySsid(input[..readIdx])
        invariant forall k :: readIdx <= k < count ==> results[k] == input[k]
      {
        writeIdx := CompactStep(input, writeIdx, readIdx);
        readIdx := readIdx + 1;
      }
      assert input[..count] == input;
    }

    /** One turn of the compaction loop: entry `readIdx` is kept unless its SSID already is. */
    method CompactStep(ghost input: seq<ScanResult>, writeIdx: int, readIdx: int) returns (next: int)
      requires Valid() && count == |input|
      requires 0 <= writeIdx <= readIdx < count
      requires results[..writeIdx] == DedupBySsid(input[..readIdx])
      requires forall k :: readIdx <= k < count ==> results[k] == input[k]
      modifies results
      ensures writeIdx <= next <= readIdx + 1
      ensures results[..next] == DedupBySsid(input[..readIdx + 1])
      ensures forall k :: readIdx + 1 <= k < count ==> results[k] == input[k]
    {
      var x := results[readIdx];
      var key := SsidKey(x);
      ghost var kept := results[..writeIdx];
      var isDuplicate := SsidAmongFirst(key, writeIdx);
      DedupNext(input, readIdx, kept);
      next := writeIdx;
      if !isDuplicate {
        if writeIdx != readIdx {
          results[writeIdx] := x;
        }
        assert results[writeIdx] == x;
        assert results[..writeIdx + 1] == kept + [x];
        next := writeIdx + 1;
      }
    }
  }

  /**
   * The whole of wifi_sort_scan_results in one statement: the list is
   * strongest first, every SSID appears once, nothing is added, and every
   * SSID of the scan is still listed with its strongest reading.
   */
  lemma SortedScanProperties(before: seq<ScanResult>, sorted: seq<ScanResult>)
    requires multiset(sorted) == multiset(before) && RssiNonIncreasing(sorted)
    ensures var after := DedupBySsid(sorted);
      RssiNonIncreasing(after) && DistinctSsids(after) && |after| <= |before|
      && (forall y :: y in after ==> y in before)
      && (forall i :: 0 <= i < |before| ==> KeptAtLeastAsStrong(after, before[i]))
  {
    DedupShape(sorted);
    DedupKeepsStrongest(sorted);
    assert |sorted| == |multiset(sorted)| == |before|;
    forall y | y in DedupBySsid(sorted)
      ensures y in before
    {
      assert y in multiset(sorted);
    }
    forall i | 0 <= i < |before|
      ensures KeptAtLeastAsStrong(DedupBySsid(sorted), before[i])
    {
      assert before[i] in multiset(sorted);
      var k :| 0 <= k < |sorted| && sorted[k] == before[i];
    }
  }

  // ---------------------------------------------------------------------
  // Auth modes (values of the CYW43 driver's CYW43_AUTH_* constants)
  // ---------------------------------------------------------------------

  const CYW43_AUTH_OPEN: int := 0
  const CYW43_AUTH_WPA_TKIP_PSK: int := 0x00200002
  const CYW43_AUTH_WPA2_AES_PSK: int := 0x00400004
  const CYW43_AUTH_WPA2_MIXED_PSK: int := 0x00400006

  /** convert_scan_auth_to_connect_auth. */
  function ConnectAuth(scanAuth: byte): (a: int)
    ensures a in {CYW43_AUTH_OPEN, CYW43_AUTH_WPA_TKIP_PSK, CYW43_AUTH_WPA2_AES_PSK, CYW43_AUTH_WPA2_MIXED_PSK}
  {
    match scanAuth
    case 0 => CYW43_AUTH_OPEN
    case 1 => CYW43_AUTH_OPEN
    case 2 => CYW43_AUTH_WPA_TKIP_PSK
    case 3 => CYW43_AUTH_WPA_TKIP_PSK
    case 4 => CYW43_AUTH_WPA2_AES_PSK
    case 5 => CYW43_AUTH_WPA2_AES_PSK
    case 6 => CYW43_AUTH_WPA2_AES_PSK
    case _ => CYW43_AUTH_WPA2_MIXED_PSK
  }

  /** wifi_auth_mode_to_string. */
  function AuthModeName(authMode: int): (name: string)
    ensures name in {"Open", "WPA", "WPA2", "WPA/WPA2", "Unknown"}
  {
    if authMode == CYW43_AUTH_OPEN then "Open"
    else if authMode == CYW43_AUTH_WPA_TKIP_PSK then "WPA"
    else if authMode == CYW43_AUTH_WPA2_AES_PSK then "WPA2"
    else if authMode == CYW43_AUTH_WPA2_MIXED_PSK then "WPA/WPA2"
    else "Unknown"
  }

  /**
   * Composing the two mappings: every scanned auth code names a known mode,
   * by ranges 0-1 open, 2-3 WPA, 4-6 WPA2, 7 and above mixed.
   */
  lemma ScanAuthNames(scanAuth: byte)
    ensures AuthModeName(ConnectAuth(scanAuth)) != "Unknown"
    ensures AuthModeName(ConnectAuth(scanAuth)) == "Open" <==> scanAuth <= 1
    ensures AuthModeName(ConnectAuth(scanAuth)) == "WPA" <==> 2 <= scanAuth <= 3
    ensures AuthModeName(ConnectAuth(scanAuth)) == "WPA2" <==> 4 <= scanAuth <= 6
    ensures AuthModeName(ConnectAuth(scanAuth)) == "WPA/WPA2" <==> 7 <= scanAuth
  {
  }

  /** The names are distinct, so the string identifies the mode. */
  lemma AuthModeNameInjective(a: int, b: int)
    requires AuthModeName(a) == AuthModeName(b) != "Unknown"
    ensures a == b
  {
  }
}
