// The checkpoint's checksum: the table-driven CRC-32 of the code, shown to be the bitwise CRC of
// section 8 of RFC 1952, and to change whenever at most four neighbouring bytes change.
module Crc {

  type Byte = bv8

  function Xor(a: bv32, b: bv32): bv32 {
    a ^ b
  }

  // One bit of the reflected division by the polynomial.
  function Bit(c: bv32): bv32 {
    if c & 1 == 1 then Xor(c >> 1, 0xEDB8_8320) else c >> 1
  }

  function Eight(c: bv32): bv32 {
    Bit(Bit(Bit(Bit(Bit(Bit(Bit(Bit(c))))))))
  }

  // ---- One bit is linear and loses nothing ----

  lemma BitInjective(c: bv32, d: bv32)
    requires Bit(c) == Bit(d)
    ensures c == d
  {
  }

  lemma ShiftXor(x: bv32, y: bv32)
    ensures (x ^ y) >> 1 == (x >> 1) ^ (y >> 1)
    ensures ((x ^ y) & 1 == 1) == ((x & 1 == 1) != (y & 1 == 1))
  {
  }

  lemma Xors(x: bv32, y: bv32, p: bv32)
    ensures (x ^ p) ^ (y ^ p) == x ^ y
    ensures (x ^ p) ^ y == (x ^ y) ^ p
    ensures x ^ (y ^ p) == (x ^ y) ^ p
  {
  }

  lemma BitLinear(x: bv32, y: bv32)
    ensures Bit(Xor(x, y)) == Xor(Bit(x), Bit(y))
  {
    ShiftXor(x, y);
    Xors(x >> 1, y >> 1, 0xEDB8_8320);
  }

  lemma EightLinear(x: bv32, y: bv32)
    ensures Eight(Xor(x, y)) == Xor(Eight(x), Eight(y))
  {
    var x1, y1 := Bit(x), Bit(y);
    BitLinear(x, y);
    var x2, y2 := Bit(x1), Bit(y1);
    BitLinear(x1, y1);
    var x3, y3 := Bit(x2), Bit(y2);
    BitLinear(x2, y2);
    var x4, y4 := Bit(x3), Bit(y3);
    BitLinear(x3, y3);
    var x5, y5 := Bit(x4), Bit(y4);
    BitLinear(x4, y4);
    var x6, y6 := Bit(x5), Bit(y5);
    BitLinear(x5, y5);
    var x7, y7 := Bit(x6), Bit(y6);
    BitLinear(x6, y6);
    BitLinear(x7, y7);
  }

  lemma EightInjective(c: bv32, d: bv32)
    requires Eight(c) == Eight(d)
    ensures c == d
  {
    var c1, d1 := Bit(c), Bit(d);
    var c2, d2 := Bit(c1), Bit(d1);
    var c3, d3 := Bit(c2), Bit(d2);
    var c4, d4 := Bit(c3), Bit(d3);
    var c5, d5 := Bit(c4), Bit(d4);
    var c6, d6 := Bit(c5), Bit(d5);
    var c7, d7 := Bit(c6), Bit(d6);
    BitInjective(c7, d7);
    BitInjective(c6, d6);
    BitInjective(c5, d5);
    BitInjective(c4, d4);
    BitInjective(c3, d3);
    BitInjective(c2, d2);
    BitInjective(c1, d1);
    BitInjective(c, d);
  }

  lemma EightShift(x: bv32)
    requires x & 0xFF == 0
    ensures Eight(x) == x >> 8
  {
  }

  // ---- The table, sixteen entries to a row ----

  function Row0(k: bv32): bv32 {
    if k == 0 then 0x0000_0000 else if k == 1 then 0x7707_3096 else if k == 2 then 0xEE0E_612C else if k == 3 then 0x9909_51BA else
    if k == 4 then 0x076D_C419 else if k == 5 then 0x706A_F48F else if k == 6 then 0xE963_A535 else if k == 7 then 0x9E64_95A3 else
    if k == 8 then 0x0EDB_8832 else if k == 9 then 0x79DC_B8A4 else if k == 10 then 0xE0D5_E91E else if k == 11 then 0x97D2_D988 else
    if k == 12 then 0x09B6_4C2B else if k == 13 then 0x7EB1_7CBD else if k == 14 then 0xE7B8_2D07 else 0x90BF_1D91
  }

  function Row1(k: bv32): bv32 {
    if k == 0 then 0x1DB7_1064 else if k == 1 then 0x6AB0_20F2 else if k == 2 then 0xF3B9_7148 else if k == 3 then 0x84BE_41DE else
    if k == 4 then 0x1ADA_D47D else if k == 5 then 0x6DDD_E4EB else if k == 6 then 0xF4D4_B551 else if k == 7 then 0x83D3_85C7 else
    if k == 8 then 0x136C_9856 else if k == 9 then 0x646B_A8C0 else if k == 10 then 0xFD62_F97A else if k == 11 then 0x8A65_C9EC else
    if k == 12 then 0x1401_5C4F else if k == 13 then 0x6306_6CD9 else if k == 14 then 0xFA0F_3D63 else 0x8D08_0DF5
  }

  function Row2(k: bv32): bv32 {
    if k == 0 then 0x3B6E_20C8 else if k == 1 then 0x4C69_105E else if k == 2 then 0xD560_41E4 else if k == 3 then 0xA267_7172 else
    if k == 4 then 0x3C03_E4D1 else if k == 5 then 0x4B04_D447 else if k == 6 then 0xD20D_85FD else if k == 7 then 0xA50A_B56B else
    if k == 8 then 0x35B5_A8FA else if k == 9 then 0x42B2_986C else if k == 10 then 0xDBBB_C9D6 else if k == 11 then 0xACBC_F940 else
    if k == 12 then 0x32D8_6CE3 else if k == 13 then 0x45DF_5C75 else if k == 14 then 0xDCD6_0DCF else 0xABD1_3D59
  }

  function Row3(k: bv32): bv32 {
    if k == 0 then 0x26D9_30AC else if k == 1 then 0x51DE_003A else if k == 2 then 0xC8D7_5180 else if k == 3 then 0xBFD0_6116 else
    if k == 4 then 0x21B4_F4B5 else if k == 5 then 0x56B3_C423 else if k == 6 then 0xCFBA_9599 else if k == 7 then 0xB8BD_A50F else
    if k == 8 then 0x2802_B89E else if k == 9 then 0x5F05_8808 else if k == 10 then 0xC60C_D9B2 else if k == 11 then 0xB10B_E924 else
    if k == 12 then 0x2F6F_7C87 else if k == 13 then 0x5868_4C11 else if k == 14 then 0xC161_1DAB else 0xB666_2D3D
  }

  function Row4(k: bv32): bv32 {
    if k == 0 then 0x76DC_4190 else if k == 1 then 0x01DB_7106 else if k == 2 then 0x98D2_20BC else if k == 3 then 0xEFD5_102A else
    if k == 4 then 0x71B1_8589 else if k == 5 then 0x06B6_B51F else if k == 6 then 0x9FBF_E4A5 else if k == 7 then 0xE8B8_D433 else
    if k == 8 then 0x7807_C9A2 else if k == 9 then 0x0F00_F934 else if k == 10 then 0x9609_A88E else if k == 11 then 0xE10E_9818 else
    if k == 12 then 0x7F6A_0DBB else if k == 13 then 0x086D_3D2D else if k == 14 then 0x9164_6C97 else 0xE663_5C01
  }

  function Row5(k: bv32): bv32 {
    if k == 0 then 0x6B6B_51F4 else if k == 1 then 0x1C6C_6162 else if k == 2 then 0x8565_30D8 else if k == 3 then 0xF262_004E else
    if k == 4 then 0x6C06_95ED else if k == 5 then 0x1B01_A57B else if k == 6 then 0x8208_F4C1 else if k == 7 then 0xF50F_C457 else
    if k == 8 then 0x65B0_D9C6 else if k == 9 then 0x12B7_E950 else if k == 10 then 0x8BBE_B8EA else if k == 11 then 0xFCB9_887C else
    if k == 12 then 0x62DD_1DDF else if k == 13 then 0x15DA_2D49 else if k == 14 then 0x8CD3_7CF3 else 0xFBD4_4C65
  }

  function Row6(k: bv32): bv32 {
    if k == 0 then 0x4DB2_6158 else if k == 1 then 0x3AB5_51CE else if k == 2 then 0xA3BC_0074 else if k == 3 then 0xD4BB_30E2 else
    if k == 4 then 0x4ADF_A541 else if k == 5 then 0x3DD8_95D7 else if k == 6 then 0xA4D1_C46D else if k == 7 then 0xD3D6_F4FB else
    if k == 8 then 0x4369_E96A else if k == 9 then 0x346E_D9FC else if k == 10 then 0xAD67_8846 else if k == 11 then 0xDA60_B8D0 else
    if k == 12 then 0x4404_2D73 else if k == 13 then 0x3303_1DE5 else if k == 14 then 0xAA0A_4C5F else 0xDD0D_7CC9
  }

  function Row7(k: bv32): bv32 {
    if k == 0 then 0x5005_713C else if k == 1 then 0x2702_41AA else if k == 2 then 0xBE0B_1010 else if k == 3 then 0xC90C_2086 else
    if k == 4 then 0x5768_B525 else if k == 5 then 0x206F_85B3 else if k == 6 then 0xB966_D409 else if k == 7 then 0xCE61_E49F else
    if k == 8 then 0x5EDE_F90E else if k == 9 then 0x29D9_C998 else if k == 10 then 0xB0D0_9822 else if k == 11 then 0xC7D7_A8B4 else
    if k == 12 then 0x59B3_3D17 else if k == 13 then 0x2EB4_0D81 else if k == 14 then 0xB7BD_5C3B else 0xC0BA_6CAD
  }

  function Row8(k: bv32): bv32 {
    if k == 0 then 0xEDB8_8320 else if k == 1 then 0x9ABF_B3B6 else if k == 2 then 0x03B6_E20C else if k == 3 then 0x74B1_D29A else
    if k == 4 then 0xEAD5_4739 else if k == 5 then 0x9DD2_77AF else if k == 6 then 0x04DB_2615 else if k == 7 then 0x73DC_1683 else
    if k == 8 then 0xE363_0B12 else if k == 9 then 0x9464_3B84 else if k == 10 then 0x0D6D_6A3E else if k == 11 then 0x7A6A_5AA8 else
    if k == 12 then 0xE40E_CF0B else if k == 13 then 0x9309_FF9D else if k == 14 then 0x0A00_AE27 else 0x7D07_9EB1
  }

  function Row9(k: bv32): bv32 {
    if k == 0 then 0xF00F_9344 else if k == 1 then 0x8708_A3D2 else if k == 2 then 0x1E01_F268 else if k == 3 then 0x6906_C2FE else
    if k == 4 then 0xF762_575D else if k == 5 then 0x8065_67CB else if k == 6 then 0x196C_3671 else if k == 7 then 0x6E6B_06E7 else
    if k == 8 then 0xFED4_1B76 else if k == 9 then 0x89D3_2BE0 else if k == 10 then 0x10DA_7A5A else if k == 11 then 0x67DD_4ACC else
    if k == 12 then 0xF9B9_DF6F else if k == 13 then 0x8EBE_EFF9 else if k == 14 then 0x17B7_BE43 else 0x60B0_8ED5
  }

  function RowA(k: bv32): bv32 {
    if k == 0 then 0xD6D6_A3E8 else if k == 1 then 0xA1D1_937E else if k == 2 then 0x38D8_C2C4 else if k == 3 then 0x4FDF_F252 else
    if k == 4 then 0xD1BB_67F1 else if k == 5 then 0xA6BC_5767 else if k == 6 then 0x3FB5_06DD else if k == 7 then 0x48B2_364B else
    if k == 8 then 0xD80D_2BDA else if k == 9 then 0xAF0A_1B4C else if k == 10 then 0x3603_4AF6 else if k == 11 then 0x4104_7A60 else
    if k == 12 then 0xDF60_EFC3 else if k == 13 then 0xA867_DF55 else if k == 14 then 0x316E_8EEF else 0x4669_BE79
  }

  function RowB(k: bv32): bv32 {
    if k == 0 then 0xCB61_B38C else if k == 1 then 0xBC66_831A else if k == 2 then 0x256F_D2A0 else if k == 3 then 0x5268_E236 else
    if k == 4 then 0xCC0C_7795 else if k == 5 then 0xBB0B_4703 else if k == 6 then 0x2202_16B9 else if k == 7 then 0x5505_262F else
    if k == 8 then 0xC5BA_3BBE else if k == 9 then 0xB2BD_0B28 else if k == 10 then 0x2BB4_5A92 else if k == 11 then 0x5CB3_6A04 else
    if k == 12 then 0xC2D7_FFA7 else if k == 13 then 0xB5D0_CF31 else if k == 14 then 0x2CD9_9E8B else 0x5BDE_AE1D
  }

  function RowC(k: bv32): bv32 {
    if k == 0 then 0x9B64_C2B0 else if k == 1 then 0xEC63_F226 else if k == 2 then 0x756A_A39C else if k == 3 then 0x026D_930A else
    if k == 4 then 0x9C09_06A9 else if k == 5 then 0xEB0E_363F else if k == 6 then 0x7207_6785 else if k == 7 then 0x0500_5713 else
    if k == 8 then 0x95BF_4A82 else if k == 9 then 0xE2B8_7A14 else if k == 10 then 0x7BB1_2BAE else if k == 11 then 0x0CB6_1B38 else
    if k == 12 then 0x92D2_8E9B else if k == 13 then 0xE5D5_BE0D else if k == 14 then 0x7CDC_EFB7 else 0x0BDB_DF21
  }

  function RowD(k: bv32): bv32 {
    if k == 0 then 0x86D3_D2D4 else if k == 1 then 0xF1D4_E242 else if k == 2 then 0x68DD_B3F8 else if k == 3 then 0x1FDA_836E else
    if k == 4 then 0x81BE_16CD else if k == 5 then 0xF6B9_265B else if k == 6 then 0x6FB0_77E1 else if k == 7 then 0x18B7_4777 else
    if k == 8 then 0x8808_5AE6 else if k == 9 then 0xFF0F_6A70 else if k == 10 then 0x6606_3BCA else if k == 11 then 0x1101_0B5C else
    if k == 12 then 0x8F65_9EFF else if k == 13 then 0xF862_AE69 else if k == 14 then 0x616B_FFD3 else 0x166C_CF45
  }

  function RowE(k: bv32): bv32 {
    if k == 0 then 0xA00A_E278 else if k == 1 then 0xD70D_D2EE else if k == 2 then 0x4E04_8354 else if k == 3 then 0x3903_B3C2 else
    if k == 4 then 0xA767_2661 else if k == 5 then 0xD060_16F7 else if k == 6 then 0x4969_474D else if k == 7 then 0x3E6E_77DB else
    if k == 8 then 0xAED1_6A4A else if k == 9 then 0xD9D6_5ADC else if k == 10 then 0x40DF_0B66 else if k == 11 then 0x37D8_3BF0 else
    if k == 12 then 0xA9BC_AE53 else if k == 13 then 0xDEBB_9EC5 else if k == 14 then 0x47B2_CF7F else 0x30B5_FFE9
  }

  function RowF(k: bv32): bv32 {
    if k == 0 then 0xBDBD_F21C else if k == 1 then 0xCABA_C28A else if k == 2 then 0x53B3_9330 else if k == 3 then 0x24B4_A3A6 else
    if k == 4 then 0xBAD0_3605 else if k == 5 then 0xCDD7_0693 else if k == 6 then 0x54DE_5729 else if k == 7 then 0x23D9_67BF else
    if k == 8 then 0xB366_7A2E else if k == 9 then 0xC461_4AB8 else if k == 10 then 0x5D68_1B02 else if k == 11 then 0x2A6F_2B94 else
    if k == 12 then 0xB40B_BE37 else if k == 13 then 0xC30C_8EA1 else if k == 14 then 0x5A05_DF1B else 0x2D02_EF8D
  }

  function Entry(i: bv32): bv32
    requires i < 256
  {
    var r, k := i >> 4, i & 15;
    if r == 0 then Row0(k) else if r == 1 then Row1(k) else if r == 2 then Row2(k) else if r == 3 then Row3(k) else
    if r == 4 then Row4(k) else if r == 5 then Row5(k) else if r == 6 then Row6(k) else if r == 7 then Row7(k) else
    if r == 8 then Row8(k) else if r == 9 then Row9(k) else if r == 10 then RowA(k) else if r == 11 then RowB(k) else
    if r == 12 then RowC(k) else if r == 13 then RowD(k) else if r == 14 then RowE(k) else RowF(k)
  }

  lemma Row0IsBitwise(k: bv32)
    requires k < 16
    ensures Row0(k) == Eight(k)
  {
  }

  lemma Row1IsBitwise(k: bv32)
    requires k < 16
    ensures Row1(k) == Eight(Xor(0x10, k))
  {
    EightLinear(0x10, k);
    Row0IsBitwise(k);
    assert Eight(0x10) == 0x1DB7_1064;
  }

  lemma Row2IsBitwise(k: bv32)
    requires k < 16
    ensures Row2(k) == Eight(Xor(0x20, k))
  {
    EightLinear(0x20, k);
    Row0IsBitwise(k);
    assert Eight(0x20) == 0x3B6E_20C8;
  }

  lemma Row3IsBitwise(k: bv32)
    requires k < 16
    ensures Row3(k) == Eight(Xor(0x30, k))
  {
    EightLinear(0x30, k);
    Row0IsBitwise(k);
    assert Eight(0x30) == 0x26D9_30AC;
  }

  lemma Row4IsBitwise(k: bv32)
    requires k < 16
    ensures Row4(k) == Eight(Xor(0x40, k))
  {
    EightLinear(0x40, k);
    Row0IsBitwise(k);
    assert Eight(0x40) == 0x76DC_4190;
  }

  lemma Row5IsBitwise(k: bv32)
    requires k < 16
    ensures Row5(k) == Eight(Xor(0x50, k))
  {
    EightLinear(0x50, k);
    Row0IsBitwise(k);
    assert Eight(0x50) == 0x6B6B_51F4;
  }

  lemma Row6IsBitwise(k: bv32)
    requires k < 16
    ensures Row6(k) == Eight(Xor(0x60, k))
  {
    EightLinear(0x60, k);
    Row0IsBitwise(k);
    assert Eight(0x60) == 0x4DB2_6158;
  }

  lemma Row7IsBitwise(k: bv32)
    requires k < 16
    ensures Row7(k) == Eight(Xor(0x70, k))
  {
    EightLinear(0x70, k);
    Row0IsBitwise(k);
    assert Eight(0x70) == 0x5005_713C;
  }

  lemma Row8IsBitwise(k: bv32)
    requires k < 16
    ensures Row8(k) == Eight(Xor(0x80, k))
  {
    EightLinear(0x80, k);
    Row0IsBitwise(k);
    assert Eight(0x80) == 0xEDB8_8320;
  }

  lemma Row9IsBitwise(k: bv32)
    requires k < 16
    ensures Row9(k) == Eight(Xor(0x90, k))
  {
    EightLinear(0x90, k);
    Row0IsBitwise(k);
    assert Eight(0x90) == 0xF00F_9344;
  }

  lemma RowAIsBitwise(k: bv32)
    requires k < 16
    ensures RowA(k) == Eight(Xor(0xA0, k))
  {
    EightLinear(0xA0, k);
    Row0IsBitwise(k);
    assert Eight(0xA0) == 0xD6D6_A3E8;
  }

  lemma RowBIsBitwise(k: bv32)
    requires k < 16
    ensures RowB(k) == Eight(Xor(0xB0, k))
  {
    EightLinear(0xB0, k);
    Row0IsBitwise(k);
    assert Eight(0xB0) == 0xCB61_B38C;
  }

  lemma RowCIsBitwise(k: bv32)
    requires k < 16
    ensures RowC(k) == Eight(Xor(0xC0, k))
  {
    EightLinear(0xC0, k);
    Row0IsBitwise(k);
    assert Eight(0xC0) == 0x9B64_C2B0;
  }

  lemma RowDIsBitwise(k: bv32)
    requires k < 16
    ensures RowD(k) == Eight(Xor(0xD0, k))
  {
    EightLinear(0xD0, k);
    Row0IsBitwise(k);
    assert Eight(0xD0) == 0x86D3_D2D4;
  }

  lemma RowEIsBitwise(k: bv32)
    requires k < 16
    ensures RowE(k) == Eight(Xor(0xE0, k))
  {
    EightLinear(0xE0, k);
    Row0IsBitwise(k);
    assert Eight(0xE0) == 0xA00A_E278;
  }

  lemma RowFIsBitwise(k: bv32)
    requires k < 16
    ensures RowF(k) == Eight(Xor(0xF0, k))
  {
    EightLinear(0xF0, k);
    Row0IsBitwise(k);
    assert Eight(0xF0) == 0xBDBD_F21C;
  }

  lemma Nibbles(i: bv32)
    requires i < 256
    ensures i >> 4 < 16 && i & 15 < 16
    ensures i == Xor((i >> 4) << 4, i & 15)
  {
  }

  lemma TableIsBitwise(i: bv32)
    requires i < 256
    ensures Entry(i) == Eight(i)
  {
    Nibbles(i);
    var r, k := i >> 4, i & 15;
    if r == 0 {
      Row0IsBitwise(k);
    } else if r == 1 {
      Row1IsBitwise(k);
    } else if r == 2 {
      Row2IsBitwise(k);
    } else if r == 3 {
      Row3IsBitwise(k);
    } else if r == 4 {
      Row4IsBitwise(k);
    } else if r == 5 {
      Row5IsBitwise(k);
    } else if r == 6 {
      Row6IsBitwise(k);
    } else if r == 7 {
      Row7IsBitwise(k);
    } else if r == 8 {
      Row8IsBitwise(k);
    } else if r == 9 {
      Row9IsBitwise(k);
    } else if r == 10 {
      RowAIsBitwise(k);
    } else if r == 11 {
      RowBIsBitwise(k);
    } else if r == 12 {
      RowCIsBitwise(k);
    } else if r == 13 {
      RowDIsBitwise(k);
    } else if r == 14 {
      RowEIsBitwise(k);
    } else {
      RowFIsBitwise(k);
    }
  }
  // ---- A byte ----

  function Low(x: bv32): (r: bv32)
    ensures r < 256
  {
    x & 0xFF
  }

  function High(x: bv32): bv32 {
    x & 0xFFFF_FF00
  }

  function Drop(x: bv32): bv32 {
    x >> 8
  }

  // A byte moved to the i-th place of a word.
  function Put(b: Byte, i: nat): bv32
    requires i < 4
  {
    if i == 0 then b as bv32 else if i == 1 then (b as bv32) << 8 else
    if i == 2 then (b as bv32) << 16 else (b as bv32) << 24
  }

  // The running checksum after one more byte, as the code computes it.
  function Step(crc: bv32, b: Byte): bv32 {
    Xor(Drop(crc), Entry(Low(Xor(crc, Put(b, 0)))))
  }

  lemma SplitWord(x: bv32)
    ensures x == Xor(High(x), Low(x))
    ensures Drop(High(x)) == Drop(x)
    ensures High(x) & 0xFF == 0
  {
  }

  lemma ByteIsLow(crc: bv32, b: Byte)
    ensures Drop(Xor(crc, Put(b, 0))) == Drop(crc)
  {
  }

  // The table step of the code is eight steps of the bitwise checksum.
  lemma StepIsBitwise(crc: bv32, b: Byte)
    ensures Step(crc, b) == Eight(Xor(crc, Put(b, 0)))
  {
    var x := Xor(crc, Put(b, 0));
    SplitWord(x);
    ByteIsLow(crc, b);
    EightLinear(High(x), Low(x));
    EightShift(High(x));
    TableIsBitwise(Low(x));
  }

  lemma XorCancels(x: bv32, y: bv32, z: bv32)
    requires Xor(x, z) == Xor(y, z)
    ensures x == y
  {
  }

  lemma StepInjective(c: bv32, d: bv32, b: Byte)
    requires Step(c, b) == Step(d, b)
    ensures c == d
  {
    StepIsBitwise(c, b);
    StepIsBitwise(d, b);
    EightInjective(Xor(c, Put(b, 0)), Xor(d, Put(b, 0)));
    XorCancels(c, d, Put(b, 0));
  }

  // ---- A run of bytes ----

  function Run(crc: bv32, bytes: seq<Byte>): bv32
    decreases |bytes|
  {
    if bytes == [] then crc else Run(Step(crc, bytes[0]), bytes[1..])
  }

  lemma {:induction false} RunSplit(crc: bv32, a: seq<Byte>, b: seq<Byte>)
    ensures Run(crc, a + b) == Run(Run(crc, a), b)
    decreases |a|
  {
    if a == [] {
      assert a + b == b;
    } else {
      assert (a + b)[1..] == a[1..] + b;
      RunSplit(Step(crc, a[0]), a[1..], b);
    }
  }

  lemma {:induction false} RunInjective(c: bv32, d: bv32, bytes: seq<Byte>)
    requires Run(c, bytes) == Run(d, bytes)
    ensures c == d
    decreases |bytes|
  {
    if bytes != [] {
      RunInjective(Step(c, bytes[0]), Step(d, bytes[0]), bytes[1..]);
      StepInjective(c, d, bytes[0]);
    }
  }

  lemma RunOne(crc: bv32, b: Byte)
    ensures Run(crc, [b]) == Step(crc, b)
  {
    assert [b][1..] == [];
  }

  method Update(crc: bv32, bytes: seq<Byte>) returns (next: bv32)
    ensures next == Run(crc, bytes)
  {
    next := crc;
    for index := 0 to |bytes|
      invariant next == Run(crc, bytes[..index])
    {
      assert bytes[..index + 1] == bytes[..index] + [bytes[index]];
      RunSplit(crc, bytes[..index], [bytes[index]]);
      RunOne(next, bytes[index]);
      next := Step(next, bytes[index]);
    }
    assert bytes[..|bytes|] == bytes;
  }

  // ---- Four bytes at a time ----

  // The four bytes of a word, lowest first.
  function Bytes(w: bv32): (bytes: seq<Byte>)
    ensures |bytes| == 4
  {
    [(w & 0xFF) as bv8, ((w >> 8) & 0xFF) as bv8, ((w >> 16) & 0xFF) as bv8, ((w >> 24) & 0xFF) as bv8]
  }

  function WordOf(bytes: seq<Byte>): bv32
    requires |bytes| == 4
  {
    Xor(Xor(Xor(Put(bytes[0], 0), Put(bytes[1], 1)), Put(bytes[2], 2)), Put(bytes[3], 3))
  }

  lemma BytesBack(a: Byte, b: Byte, c: Byte, d: Byte, w: bv32)
    requires w == Xor(Xor(Xor(Put(a, 0), Put(b, 1)), Put(c, 2)), Put(d, 3))
    ensures (w & 0xFF) as bv8 == a && ((w >> 8) & 0xFF) as bv8 == b
    ensures ((w >> 16) & 0xFF) as bv8 == c && ((w >> 24) & 0xFF) as bv8 == d
  {
  }

  lemma BytesOfWord(bytes: seq<Byte>)
    requires |bytes| == 4
    ensures Bytes(WordOf(bytes)) == bytes
  {
    BytesBack(bytes[0], bytes[1], bytes[2], bytes[3], WordOf(bytes));
  }

  lemma WordOfBytes(w: bv32)
    ensures WordOf(Bytes(w)) == w
  {
  }

  lemma PutsShift(b: Byte)
    ensures Eight(Put(b, 1)) == Put(b, 0)
    ensures Eight(Put(b, 2)) == Put(b, 1)
    ensures Eight(Put(b, 3)) == Put(b, 2)
  {
    EightShift(Put(b, 1));
    EightShift(Put(b, 2));
    EightShift(Put(b, 3));
  }

  function ThirtyTwo(c: bv32): bv32 {
    Eight(Eight(Eight(Eight(c))))
  }

  lemma Regroup(crc: bv32, a: bv32, b: bv32, c: bv32, d: bv32)
    ensures Xor(Xor(Xor(Xor(crc, a), b), c), d) == Xor(crc, Xor(Xor(Xor(a, b), c), d))
  {
  }

  // Four steps are one division of the word added to the running value.
  lemma FourSteps(crc: bv32, a: Byte, b: Byte, c: Byte, d: Byte)
    ensures Step(Step(Step(Step(crc, a), b), c), d)
         == ThirtyTwo(Xor(Xor(Xor(Xor(crc, Put(a, 0)), Put(b, 1)), Put(c, 2)), Put(d, 3)))
  {
    var s1 := Step(crc, a);
    var s2 := Step(s1, b);
    var s3 := Step(s2, c);
    StepIsBitwise(crc, a);
    StepIsBitwise(s1, b);
    StepIsBitwise(s2, c);
    StepIsBitwise(s3, d);
    PutsShift(b);
    PutsShift(c);
    PutsShift(d);
    var x1 := Xor(crc, Put(a, 0));
    var x2 := Xor(x1, Put(b, 1));
    var x3 := Xor(x2, Put(c, 2));
    EightLinear(x1, Put(b, 1));
    EightLinear(x2, Put(c, 2));
    EightLinear(Eight(x2), Put(c, 1));
    EightLinear(x3, Put(d, 3));
    EightLinear(Eight(x3), Put(d, 2));
    EightLinear(Eight(Eight(x3)), Put(d, 1));
  }

  lemma RunFour(crc: bv32, bytes: seq<Byte>)
    requires |bytes| == 4
    ensures Run(crc, bytes) == ThirtyTwo(Xor(crc, WordOf(bytes)))
  {
    var s1 := Step(crc, bytes[0]);
    var s2 := Step(s1, bytes[1]);
    var s3 := Step(s2, bytes[2]);
    assert bytes[1..][1..] == bytes[2..] && bytes[2..][1..] == bytes[3..] && bytes[3..][1..] == [];
    assert Run(s1, bytes[1..]) == Run(s2, bytes[2..]);
    assert Run(s2, bytes[2..]) == Run(s3, bytes[3..]);
    assert Run(s3, bytes[3..]) == Step(s3, bytes[3]);
    FourSteps(crc, bytes[0], bytes[1], bytes[2], bytes[3]);
    Regroup(crc, Put(bytes[0], 0), Put(bytes[1], 1), Put(bytes[2], 2), Put(bytes[3], 3));
  }

  lemma ThirtyTwoInjective(crc: bv32, v: bv32, w: bv32)
    requires ThirtyTwo(Xor(crc, v)) == ThirtyTwo(Xor(crc, w))
    ensures v == w
  {
    var x, y := Xor(crc, v), Xor(crc, w);
    EightInjective(Eight(Eight(Eight(x))), Eight(Eight(Eight(y))));
    EightInjective(Eight(Eight(x)), Eight(Eight(y)));
    EightInjective(Eight(x), Eight(y));
    EightInjective(x, y);
    XorCancelsLeft(crc, v, w);
  }

  lemma XorCancelsLeft(x: bv32, y: bv32, z: bv32)
    requires Xor(x, y) == Xor(x, z)
    ensures y == z
  {
  }

  // No two runs of four bytes lead from the same value to the same value.
  lemma FourInjective(crc: bv32, a: seq<Byte>, b: seq<Byte>)
    requires |a| == |b| == 4
    requires Run(crc, a) == Run(crc, b)
    ensures a == b
  {
    RunFour(crc, a);
    RunFour(crc, b);
    ThirtyTwoInjective(crc, WordOf(a), WordOf(b));
    BytesOfWord(a);
    BytesOfWord(b);
  }

  // Two byte strings of one length that differ only inside some window of four bytes.
  ghost predicate DifferInWindow(a: seq<Byte>, b: seq<Byte>, at: nat) {
    |a| == |b| && at + 4 <= |a| && a[..at] == b[..at] && a[at + 4..] == b[at + 4..] && a != b
  }

  lemma Parts(a: seq<Byte>, at: nat)
    requires at + 4 <= |a|
    ensures a == a[..at] + (a[at..at + 4] + a[at + 4..])
  {
  }

  lemma WindowDetected(crc: bv32, a: seq<Byte>, b: seq<Byte>, at: nat)
    requires DifferInWindow(a, b, at)
    ensures Run(crc, a) != Run(crc, b)
  {
    Parts(a, at);
    Parts(b, at);
    var head, tail := a[..at], a[at + 4..];
    var u, v := a[at..at + 4], b[at..at + 4];
    var s := Run(crc, head);
    RunSplit(crc, head, u + tail);
    RunSplit(crc, head, v + tail);
    RunSplit(s, u, tail);
    RunSplit(s, v, tail);
    if Run(crc, a) == Run(crc, b) {
      RunInjective(Run(s, u), Run(s, v), tail);
      FourInjective(s, u, v);
      assert false;
    }
  }

  // ---- The value stored at the end ----

  const INITIAL: bv32 := 0xFFFF_FFFF

  function Not(c: bv32): bv32 {
    !c
  }

  function Value(bytes: seq<Byte>): bv32 {
    Not(Run(INITIAL, bytes))
  }

  lemma ComplementXor(c: bv32)
    ensures Xor(c, Not(c)) == INITIAL
  {
  }

  // A body followed by its own checksum always leaves the same running value ...
  lemma SealedResidue(body: seq<Byte>)
    ensures Run(INITIAL, body + Bytes(Value(body))) == ThirtyTwo(INITIAL)
  {
    var s := Run(INITIAL, body);
    RunSplit(INITIAL, body, Bytes(Value(body)));
    RunFour(s, Bytes(Value(body)));
    WordOfBytes(Value(body));
    ComplementXor(s);
  }

  // ... and only its own checksum does.
  lemma ResidueSealed(body: seq<Byte>, trailer: seq<Byte>)
    requires |trailer| == 4
    requires Run(INITIAL, body + trailer) == ThirtyTwo(INITIAL)
    ensures trailer == Bytes(Value(body))
  {
    SealedResidue(body);
    RunSplit(INITIAL, body, trailer);
    RunSplit(INITIAL, body, Bytes(Value(body)));
    FourInjective(Run(INITIAL, body), trailer, Bytes(Value(body)));
  }

  ghost predicate Sealed(file: seq<Byte>) {
    |file| >= 4 && file[|file| - 4..] == Bytes(Value(file[..|file| - 4]))
  }

  lemma SealedIsResidue(file: seq<Byte>)
    requires |file| >= 4
    ensures Sealed(file) <==> Run(INITIAL, file) == ThirtyTwo(INITIAL)
  {
    var body, trailer := file[..|file| - 4], file[|file| - 4..];
    assert file == body + trailer;
    if Sealed(file) {
      SealedResidue(body);
    }
    if Run(INITIAL, file) == ThirtyTwo(INITIAL) {
      ResidueSealed(body, trailer);
    }
  }

  // Whatever change is made inside four neighbouring bytes of a sealed file, the trailer included,
  // the result is not sealed.
  lemma WindowBreaksSeal(file: seq<Byte>, other: seq<Byte>, at: nat)
    requires Sealed(file)
    requires DifferInWindow(file, other, at)
    ensures !Sealed(other)
  {
    WindowDetected(INITIAL, file, other, at);
    SealedIsResidue(file);
    SealedIsResidue(other);
  }
}
