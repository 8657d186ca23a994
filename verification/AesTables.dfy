/** Constant tables of the AES code, and the facts about them that the cipher proofs use. */
module AesTables {

  // Selects entry i % 16 of a row of sixteen bytes.
  function Pick16(i: bv8, t0: bv8, t1: bv8, t2: bv8, t3: bv8, t4: bv8, t5: bv8, t6: bv8, t7: bv8,
                  t8: bv8, t9: bv8, t10: bv8, t11: bv8, t12: bv8, t13: bv8, t14: bv8, t15: bv8): bv8
  {
    if i & 8 == 0 then
      if i & 4 == 0 then
        if i & 2 == 0 then if i & 1 == 0 then t0 else t1 else if i & 1 == 0 then t2 else t3
      else
        if i & 2 == 0 then if i & 1 == 0 then t4 else t5 else if i & 1 == 0 then t6 else t7
    else
      if i & 4 == 0 then
        if i & 2 == 0 then if i & 1 == 0 then t8 else t9 else if i & 1 == 0 then t10 else t11
      else
        if i & 2 == 0 then if i & 1 == 0 then t12 else t13 else if i & 1 == 0 then t14 else t15
  }

  // The substitution table, row x >> 4, column x & 15 (FIPS 197, section 5.1.1).
  function Sbox(x: bv8): bv8
  {
    Pick16(x >> 4,
           Pick16(x, 0x63, 0x7c, 0x77, 0x7b, 0xf2, 0x6b, 0x6f, 0xc5, 0x30, 0x01, 0x67, 0x2b, 0xfe, 0xd7, 0xab, 0x76),
           Pick16(x, 0xca, 0x82, 0xc9, 0x7d, 0xfa, 0x59, 0x47, 0xf0, 0xad, 0xd4, 0xa2, 0xaf, 0x9c, 0xa4, 0x72, 0xc0),
           Pick16(x, 0xb7, 0xfd, 0x93, 0x26, 0x36, 0x3f, 0xf7, 0xcc, 0x34, 0xa5, 0xe5, 0xf1, 0x71, 0xd8, 0x31, 0x15),
           Pick16(x, 0x04, 0xc7, 0x23, 0xc3, 0x18, 0x96, 0x05, 0x9a, 0x07, 0x12, 0x80, 0xe2, 0xeb, 0x27, 0xb2, 0x75),
           Pick16(x, 0x09, 0x83, 0x2c, 0x1a, 0x1b, 0x6e, 0x5a, 0xa0, 0x52, 0x3b, 0xd6, 0xb3, 0x29, 0xe3, 0x2f, 0x84),
           Pick16(x, 0x53, 0xd1, 0x00, 0xed, 0x20, 0xfc, 0xb1, 0x5b, 0x6a, 0xcb, 0xbe, 0x39, 0x4a, 0x4c, 0x58, 0xcf),
           Pick16(x, 0xd0, 0xef, 0xaa, 0xfb, 0x43, 0x4d, 0x33, 0x85, 0x45, 0xf9, 0x02, 0x7f, 0x50, 0x3c, 0x9f, 0xa8),
           Pick16(x, 0x51, 0xa3, 0x40, 0x8f, 0x92, 0x9d, 0x38, 0xf5, 0xbc, 0xb6, 0xda, 0x21, 0x10, 0xff, 0xf3, 0xd2),
           Pick16(x, 0xcd, 0x0c, 0x13, 0xec, 0x5f, 0x97, 0x44, 0x17, 0xc4, 0xa7, 0x7e, 0x3d, 0x64, 0x5d, 0x19, 0x73),
           Pick16(x, 0x60, 0x81, 0x4f, 0xdc, 0x22, 0x2a, 0x90, 0x88, 0x46, 0xee, 0xb8, 0x14, 0xde, 0x5e, 0x0b, 0xdb),
           Pick16(x, 0xe0, 0x32, 0x3a, 0x0a, 0x49, 0x06, 0x24, 0x5c, 0xc2, 0xd3, 0xac, 0x62, 0x91, 0x95, 0xe4, 0x79),
           Pick16(x, 0xe7, 0xc8, 0x37, 0x6d, 0x8d, 0xd5, 0x4e, 0xa9, 0x6c, 0x56, 0xf4, 0xea, 0x65, 0x7a, 0xae, 0x08),
           Pick16(x, 0xba, 0x78, 0x25, 0x2e, 0x1c, 0xa6, 0xb4, 0xc6, 0xe8, 0xdd, 0x74, 0x1f, 0x4b, 0xbd, 0x8b, 0x8a),
           Pick16(x, 0x70, 0x3e, 0xb5, 0x66, 0x48, 0x03, 0xf6, 0x0e, 0x61, 0x35, 0x57, 0xb9, 0x86, 0xc1, 0x1d, 0x9e),
           Pick16(x, 0xe1, 0xf8, 0x98, 0x11, 0x69, 0xd9, 0x8e, 0x94, 0x9b, 0x1e, 0x87, 0xe9, 0xce, 0x55, 0x28, 0xdf),
           Pick16(x, 0x8c, 0xa1, 0x89, 0x0d, 0xbf, 0xe6, 0x42, 0x68, 0x41, 0x99, 0x2d, 0x0f, 0xb0, 0x54, 0xbb, 0x16))
  }

  // The inverse substitution table (FIPS 197, section 5.3.2).
  function InvSbox(x: bv8): bv8
  {
    Pick16(x >> 4,
           Pick16(x, 0x52, 0x09, 0x6a, 0xd5, 0x30, 0x36, 0xa5, 0x38, 0xbf, 0x40, 0xa3, 0x9e, 0x81, 0xf3, 0xd7, 0xfb),
           Pick16(x, 0x7c, 0xe3, 0x39, 0x82, 0x9b, 0x2f, 0xff, 0x87, 0x34, 0x8e, 0x43, 0x44, 0xc4, 0xde, 0xe9, 0xcb),
           Pick16(x, 0x54, 0x7b, 0x94, 0x32, 0xa6, 0xc2, 0x23, 0x3d, 0xee, 0x4c, 0x95, 0x0b, 0x42, 0xfa, 0xc3, 0x4e),
           Pick16(x, 0x08, 0x2e, 0xa1, 0x66, 0x28, 0xd9, 0x24, 0xb2, 0x76, 0x5b, 0xa2, 0x49, 0x6d, 0x8b, 0xd1, 0x25),
           Pick16(x, 0x72, 0xf8, 0xf6, 0x64, 0x86, 0x68, 0x98, 0x16, 0xd4, 0xa4, 0x5c, 0xcc, 0x5d, 0x65, 0xb6, 0x92),
           Pick16(x, 0x6c, 0x70, 0x48, 0x50, 0xfd, 0xed, 0xb9, 0xda, 0x5e, 0x15, 0x46, 0x57, 0xa7, 0x8d, 0x9d, 0x84),
           Pick16(x, 0x90, 0xd8, 0xab, 0x00, 0x8c, 0xbc, 0xd3, 0x0a, 0xf7, 0xe4, 0x58, 0x05, 0xb8, 0xb3, 0x45, 0x06),
           Pick16(x, 0xd0, 0x2c, 0x1e, 0x8f, 0xca, 0x3f, 0x0f, 0x02, 0xc1, 0xaf, 0xbd, 0x03, 0x01, 0x13, 0x8a, 0x6b),
           Pick16(x, 0x3a, 0x91, 0x11, 0x41, 0x4f, 0x67, 0xdc, 0xea, 0x97, 0xf2, 0xcf, 0xce, 0xf0, 0xb4, 0xe6, 0x73),
           Pick16(x, 0x96, 0xac, 0x74, 0x22, 0xe7, 0xad, 0x35, 0x85, 0xe2, 0xf9, 0x37, 0xe8, 0x1c, 0x75, 0xdf, 0x6e),
           Pick16(x, 0x47, 0xf1, 0x1a, 0x71, 0x1d, 0x29, 0xc5, 0x89, 0x6f, 0xb7, 0x62, 0x0e, 0xaa, 0x18, 0xbe, 0x1b),
           Pick16(x, 0xfc, 0x56, 0x3e, 0x4b, 0xc6, 0xd2, 0x79, 0x20, 0x9a, 0xdb, 0xc0, 0xfe, 0x78, 0xcd, 0x5a, 0xf4),
           Pick16(x, 0x1f, 0xdd, 0xa8, 0x33, 0x88, 0x07, 0xc7, 0x31, 0xb1, 0x12, 0x10, 0x59, 0x27, 0x80, 0xec, 0x5f),
           Pick16(x, 0x60, 0x51, 0x7f, 0xa9, 0x19, 0xb5, 0x4a, 0x0d, 0x2d, 0xe5, 0x7a, 0x9f, 0x93, 0xc9, 0x9c, 0xef),
           Pick16(x, 0xa0, 0xe0, 0x3b, 0x4d, 0xae, 0x2a, 0xf5, 0xb0, 0xc8, 0xeb, 0xbb, 0x3c, 0x83, 0x53, 0x99, 0x61),
           Pick16(x, 0x17, 0x2b, 0x04, 0x7e, 0xba, 0x77, 0xd6, 0x26, 0xe1, 0x69, 0x14, 0x63, 0x55, 0x21, 0x0c, 0x7d))
  }

  // The multiplication-by-two table used on the encrypting side.
  function XtimeTable(x: bv8): bv8
  {
    Pick16(x >> 4,
           Pick16(x, 0x00, 0x02, 0x04, 0x06, 0x08, 0x0a, 0x0c, 0x0e, 0x10, 0x12, 0x14, 0x16, 0x18, 0x1a, 0x1c, 0x1e),
           Pick16(x, 0x20, 0x22, 0x24, 0x26, 0x28, 0x2a, 0x2c, 0x2e, 0x30, 0x32, 0x34, 0x36, 0x38, 0x3a, 0x3c, 0x3e),
           Pick16(x, 0x40, 0x42, 0x44, 0x46, 0x48, 0x4a, 0x4c, 0x4e, 0x50, 0x52, 0x54, 0x56, 0x58, 0x5a, 0x5c, 0x5e),
           Pick16(x, 0x60, 0x62, 0x64, 0x66, 0x68, 0x6a, 0x6c, 0x6e, 0x70, 0x72, 0x74, 0x76, 0x78, 0x7a, 0x7c, 0x7e),
           Pick16(x, 0x80, 0x82, 0x84, 0x86, 0x88, 0x8a, 0x8c, 0x8e, 0x90, 0x92, 0x94, 0x96, 0x98, 0x9a, 0x9c, 0x9e),
           Pick16(x, 0xa0, 0xa2, 0xa4, 0xa6, 0xa8, 0xaa, 0xac, 0xae, 0xb0, 0xb2, 0xb4, 0xb6, 0xb8, 0xba, 0xbc, 0xbe),
           Pick16(x, 0xc0, 0xc2, 0xc4, 0xc6, 0xc8, 0xca, 0xcc, 0xce, 0xd0, 0xd2, 0xd4, 0xd6, 0xd8, 0xda, 0xdc, 0xde),
           Pick16(x, 0xe0, 0xe2, 0xe4, 0xe6, 0xe8, 0xea, 0xec, 0xee, 0xf0, 0xf2, 0xf4, 0xf6, 0xf8, 0xfa, 0xfc, 0xfe),
           Pick16(x, 0x1b, 0x19, 0x1f, 0x1d, 0x13, 0x11, 0x17, 0x15, 0x0b, 0x09, 0x0f, 0x0d, 0x03, 0x01, 0x07, 0x05),
           Pick16(x, 0x3b, 0x39, 0x3f, 0x3d, 0x33, 0x31, 0x37, 0x35, 0x2b, 0x29, 0x2f, 0x2d, 0x23, 0x21, 0x27, 0x25),
           Pick16(x, 0x5b, 0x59, 0x5f, 0x5d, 0x53, 0x51, 0x57, 0x55, 0x4b, 0x49, 0x4f, 0x4d, 0x43, 0x41, 0x47, 0x45),
           Pick16(x, 0x7b, 0x79, 0x7f, 0x7d, 0x73, 0x71, 0x77, 0x75, 0x6b, 0x69, 0x6f, 0x6d, 0x63, 0x61, 0x67, 0x65),
           Pick16(x, 0x9b, 0x99, 0x9f, 0x9d, 0x93, 0x91, 0x97, 0x95, 0x8b, 0x89, 0x8f, 0x8d, 0x83, 0x81, 0x87, 0x85),
           Pick16(x, 0xbb, 0xb9, 0xbf, 0xbd, 0xb3, 0xb1, 0xb7, 0xb5, 0xab, 0xa9, 0xaf, 0xad, 0xa3, 0xa1, 0xa7, 0xa5),
           Pick16(x, 0xdb, 0xd9, 0xdf, 0xdd, 0xd3, 0xd1, 0xd7, 0xd5, 0xcb, 0xc9, 0xcf, 0xcd, 0xc3, 0xc1, 0xc7, 0xc5),
           Pick16(x, 0xfb, 0xf9, 0xff, 0xfd, 0xf3, 0xf1, 0xf7, 0xf5, 0xeb, 0xe9, 0xef, 0xed, 0xe3, 0xe1, 0xe7, 0xe5))
  }

  // Multiplication by x in GF(2^8) modulo x^8 + x^4 + x^3 + x + 1 (FIPS 197, section 4.2.1).
  function Xtime(x: bv8): bv8
  {
    (x << 1) ^ (if x & 0x80 != 0 then 0x1b else 0)
  }

  lemma InvSboxUndoesSbox1(x: bv8)
    requires x < 0x40
    ensures InvSbox(Sbox(x)) == x
  {
  }

  lemma InvSboxUndoesSbox2(x: bv8)
    requires 0x40 <= x < 0x80
    ensures InvSbox(Sbox(x)) == x
  {
  }

  lemma InvSboxUndoesSbox3(x: bv8)
    requires 0x80 <= x < 0xc0
    ensures InvSbox(Sbox(x)) == x
  {
  }

  lemma InvSboxUndoesSbox4(x: bv8)
    requires 0xc0 <= x
    ensures InvSbox(Sbox(x)) == x
  {
  }

  lemma InvSboxUndoesSbox(x: bv8)
    ensures InvSbox(Sbox(x)) == x
  {
    hide Sbox, InvSbox;
    if x < 0x40 {
      InvSboxUndoesSbox1(x);
    } else if x < 0x80 {
      InvSboxUndoesSbox2(x);
    } else if x < 0xc0 {
      InvSboxUndoesSbox3(x);
    } else {
      InvSboxUndoesSbox4(x);
    }
  }

  lemma SboxUndoesInvSbox1(x: bv8)
    requires x < 0x40
    ensures Sbox(InvSbox(x)) == x
  {
  }

  lemma SboxUndoesInvSbox2(x: bv8)
    requires 0x40 <= x < 0x80
    ensures Sbox(InvSbox(x)) == x
  {
  }

  lemma SboxUndoesInvSbox3(x: bv8)
    requires 0x80 <= x < 0xc0
    ensures Sbox(InvSbox(x)) == x
  {
  }

  lemma SboxUndoesInvSbox4(x: bv8)
    requires 0xc0 <= x
    ensures Sbox(InvSbox(x)) == x
  {
  }

  lemma SboxUndoesInvSbox(x: bv8)
    ensures Sbox(InvSbox(x)) == x
  {
    hide Sbox, InvSbox;
    if x < 0x40 {
      SboxUndoesInvSbox1(x);
    } else if x < 0x80 {
      SboxUndoesInvSbox2(x);
    } else if x < 0xc0 {
      SboxUndoesInvSbox3(x);
    } else {
      SboxUndoesInvSbox4(x);
    }
  }

  lemma XtimeTableLow(x: bv8)
    requires x < 0x80
    ensures XtimeTable(x) == Xtime(x)
  {
  }

  lemma XtimeTableHigh(x: bv8)
    requires 0x80 <= x
    ensures XtimeTable(x) == Xtime(x)
  {
  }

  // The table is exactly the field multiplication by two.
  lemma XtimeTableIsXtime(x: bv8)
    ensures XtimeTable(x) == Xtime(x)
  {
    hide XtimeTable, Xtime;
    if x < 0x80 {
      XtimeTableLow(x);
    } else {
      XtimeTableHigh(x);
    }
  }
}
