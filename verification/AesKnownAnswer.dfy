/** The known answer of FIPS 197, appendix C.1. */
module AesKnownAnswer {
  import opened AesTables
  import opened AesField
  import opened AesCipher
  import opened AesStandard
  import opened AesColumns

  const KEY: Block := [0x00, 0x01, 0x02, 0x03, 0x04, 0x05, 0x06, 0x07, 0x08, 0x09, 0x0a, 0x0b, 0x0c, 0x0d, 0x0e, 0x0f]
  const PLAIN: Block := [0x00, 0x11, 0x22, 0x33, 0x44, 0x55, 0x66, 0x77, 0x88, 0x99, 0xaa, 0xbb, 0xcc, 0xdd, 0xee, 0xff]
  const ENCRYPTED: Block := [0x69, 0xc4, 0xe0, 0xd8, 0x6a, 0x7b, 0x04, 0x30, 0xd8, 0xcd, 0xb7, 0x80, 0x70, 0xb4, 0xc5, 0x5a]

  lemma Key1(k: Columns)
    requires k == Columns(Column(0x00, 0x01, 0x02, 0x03), Column(0x04, 0x05, 0x06, 0x07),
                          Column(0x08, 0x09, 0x0a, 0x0b), Column(0x0c, 0x0d, 0x0e, 0x0f))
    ensures NextKey(k, 0x01) ==
            Columns(Column(0xd6, 0xaa, 0x74, 0xfd), Column(0xd2, 0xaf, 0x72, 0xfa),
                    Column(0xda, 0xa6, 0x78, 0xf1), Column(0xd6, 0xab, 0x76, 0xfe))
  {
  }

  lemma Key2(k: Columns)
    requires k == Columns(Column(0xd6, 0xaa, 0x74, 0xfd), Column(0xd2, 0xaf, 0x72, 0xfa),
                          Column(0xda, 0xa6, 0x78, 0xf1), Column(0xd6, 0xab, 0x76, 0xfe))
    ensures NextKey(k, 0x02) ==
            Columns(Column(0xb6, 0x92, 0xcf, 0x0b), Column(0x64, 0x3d, 0xbd, 0xf1),
                    Column(0xbe, 0x9b, 0xc5, 0x00), Column(0x68, 0x30, 0xb3, 0xfe))
  {
  }

  lemma Key3(k: Columns)
    requires k == Columns(Column(0xb6, 0x92, 0xcf, 0x0b), Column(0x64, 0x3d, 0xbd, 0xf1),
                          Column(0xbe, 0x9b, 0xc5, 0x00), Column(0x68, 0x30, 0xb3, 0xfe))
    ensures NextKey(k, 0x04) ==
            Columns(Column(0xb6, 0xff, 0x74, 0x4e), Column(0xd2, 0xc2, 0xc9, 0xbf),
                    Column(0x6c, 0x59, 0x0c, 0xbf), Column(0x04, 0x69, 0xbf, 0x41))
  {
  }

  lemma Key4(k: Columns)
    requires k == Columns(Column(0xb6, 0xff, 0x74, 0x4e), Column(0xd2, 0xc2, 0xc9, 0xbf),
                          Column(0x6c, 0x59, 0x0c, 0xbf), Column(0x04, 0x69, 0xbf, 0x41))
    ensures NextKey(k, 0x08) ==
            Columns(Column(0x47, 0xf7, 0xf7, 0xbc), Column(0x95, 0x35, 0x3e, 0x03),
                    Column(0xf9, 0x6c, 0x32, 0xbc), Column(0xfd, 0x05, 0x8d, 0xfd))
  {
  }

  lemma Key5(k: Columns)
    requires k == Columns(Column(0x47, 0xf7, 0xf7, 0xbc), Column(0x95, 0x35, 0x3e, 0x03),
                          Column(0xf9, 0x6c, 0x32, 0xbc), Column(0xfd, 0x05, 0x8d, 0xfd))
    ensures NextKey(k, 0x10) ==
            Columns(Column(0x3c, 0xaa, 0xa3, 0xe8), Column(0xa9, 0x9f, 0x9d, 0xeb),
                    Column(0x50, 0xf3, 0xaf, 0x57), Column(0xad, 0xf6, 0x22, 0xaa))
  {
  }

  lemma Key6(k: Columns)
    requires k == Columns(Column(0x3c, 0xaa, 0xa3, 0xe8), Column(0xa9, 0x9f, 0x9d, 0xeb),
                          Column(0x50, 0xf3, 0xaf, 0x57), Column(0xad, 0xf6, 0x22, 0xaa))
    ensures NextKey(k, 0x20) ==
            Columns(Column(0x5e, 0x39, 0x0f, 0x7d), Column(0xf7, 0xa6, 0x92, 0x96),
                    Column(0xa7, 0x55, 0x3d, 0xc1), Column(0x0a, 0xa3, 0x1f, 0x6b))
  {
  }

  lemma Key7(k: Columns)
    requires k == Columns(Column(0x5e, 0x39, 0x0f, 0x7d), Column(0xf7, 0xa6, 0x92, 0x96),
                          Column(0xa7, 0x55, 0x3d, 0xc1), Column(0x0a, 0xa3, 0x1f, 0x6b))
    ensures NextKey(k, 0x40) ==
            Columns(Column(0x14, 0xf9, 0x70, 0x1a), Column(0xe3, 0x5f, 0xe2, 0x8c),
                    Column(0x44, 0x0a, 0xdf, 0x4d), Column(0x4e, 0xa9, 0xc0, 0x26))
  {
  }

  lemma Key8(k: Columns)
    requires k == Columns(Column(0x14, 0xf9, 0x70, 0x1a), Column(0xe3, 0x5f, 0xe2, 0x8c),
                          Column(0x44, 0x0a, 0xdf, 0x4d), Column(0x4e, 0xa9, 0xc0, 0x26))
    ensures NextKey(k, 0x80) ==
            Columns(Column(0x47, 0x43, 0x87, 0x35), Column(0xa4, 0x1c, 0x65, 0xb9),
                    Column(0xe0, 0x16, 0xba, 0xf4), Column(0xae, 0xbf, 0x7a, 0xd2))
  {
  }

  lemma Key9(k: Columns)
    requires k == Columns(Column(0x47, 0x43, 0x87, 0x35), Column(0xa4, 0x1c, 0x65, 0xb9),
                          Column(0xe0, 0x16, 0xba, 0xf4), Column(0xae, 0xbf, 0x7a, 0xd2))
    ensures NextKey(k, 0x1b) ==
            Columns(Column(0x54, 0x99, 0x32, 0xd1), Column(0xf0, 0x85, 0x57, 0x68),
                    Column(0x10, 0x93, 0xed, 0x9c), Column(0xbe, 0x2c, 0x97, 0x4e))
  {
  }

  lemma Key10(k: Columns)
    requires k == Columns(Column(0x54, 0x99, 0x32, 0xd1), Column(0xf0, 0x85, 0x57, 0x68),
                          Column(0x10, 0x93, 0xed, 0x9c), Column(0xbe, 0x2c, 0x97, 0x4e))
    ensures NextKey(k, 0x36) ==
            Columns(Column(0x13, 0x11, 0x1d, 0x7f), Column(0xe3, 0x94, 0x4a, 0x17),
                    Column(0xf3, 0x07, 0xa7, 0x8b), Column(0x4d, 0x2b, 0x30, 0xc5))
  {
  }

  lemma Round1(s: Columns, k: Columns)
    requires s == Columns(Column(0x00, 0x10, 0x20, 0x30), Column(0x40, 0x50, 0x60, 0x70),
                          Column(0x80, 0x90, 0xa0, 0xb0), Column(0xc0, 0xd0, 0xe0, 0xf0))
    requires k == Columns(Column(0xd6, 0xaa, 0x74, 0xfd), Column(0xd2, 0xaf, 0x72, 0xfa),
                          Column(0xda, 0xa6, 0x78, 0xf1), Column(0xd6, 0xab, 0x76, 0xfe))
    ensures XorColumns(Mixed(Gathered(s)), k) ==
            Columns(Column(0x89, 0xd8, 0x10, 0xe8), Column(0x85, 0x5a, 0xce, 0x68),
                    Column(0x2d, 0x18, 0x43, 0xd8), Column(0xcb, 0x12, 0x8f, 0xe4))
  {
    assert Sbox(0x00) == 0x63 && Sbox(0x10) == 0xca && Sbox(0x20) == 0xb7 && Sbox(0x30) == 0x04 && Sbox(0x40) == 0x09;
    assert Sbox(0x50) == 0x53 && Sbox(0x60) == 0xd0 && Sbox(0x70) == 0x51 && Sbox(0x80) == 0xcd && Sbox(0x90) == 0x60;
    assert Sbox(0xa0) == 0xe0 && Sbox(0xb0) == 0xe7 && Sbox(0xc0) == 0xba && Sbox(0xd0) == 0x70 && Sbox(0xe0) == 0xe1;
    assert Sbox(0xf0) == 0x8c;
    assert Product(MIX, Column(0x63, 0x53, 0xe0, 0x8c)) == Column(0x5f, 0x72, 0x64, 0x15);
    assert Product(MIX, Column(0x09, 0x60, 0xe1, 0x04)) == Column(0x57, 0xf5, 0xbc, 0x92);
    assert Product(MIX, Column(0xcd, 0x70, 0xb7, 0x51)) == Column(0xf7, 0xbe, 0x3b, 0x29);
    assert Product(MIX, Column(0xba, 0xca, 0xd0, 0xe7)) == Column(0x1d, 0xb9, 0xf9, 0x1a);
    hide Sbox, Product;
  }

  lemma Round2(s: Columns, k: Columns)
    requires s == Columns(Column(0x89, 0xd8, 0x10, 0xe8), Column(0x85, 0x5a, 0xce, 0x68),
                          Column(0x2d, 0x18, 0x43, 0xd8), Column(0xcb, 0x12, 0x8f, 0xe4))
    requires k == Columns(Column(0xb6, 0x92, 0xcf, 0x0b), Column(0x64, 0x3d, 0xbd, 0xf1),
                          Column(0xbe, 0x9b, 0xc5, 0x00), Column(0x68, 0x30, 0xb3, 0xfe))
    ensures XorColumns(Mixed(Gathered(s)), k) ==
            Columns(Column(0x49, 0x15, 0x59, 0x8f), Column(0x55, 0xe5, 0xd7, 0xa0),
                    Column(0xda, 0xca, 0x94, 0xfa), Column(0x1f, 0x0a, 0x63, 0xf7))
  {
    assert Sbox(0x89) == 0xa7 && Sbox(0xd8) == 0x61 && Sbox(0x10) == 0xca && Sbox(0xe8) == 0x9b && Sbox(0x85) == 0x97;
    assert Sbox(0x5a) == 0xbe && Sbox(0xce) == 0x8b && Sbox(0x68) == 0x45 && Sbox(0x2d) == 0xd8 && Sbox(0x18) == 0xad;
    assert Sbox(0x43) == 0x1a && Sbox(0xcb) == 0x1f && Sbox(0x12) == 0xc9 && Sbox(0x8f) == 0x73 && Sbox(0xe4) == 0x69;
    assert Product(MIX, Column(0xa7, 0xbe, 0x1a, 0x69)) == Column(0xff, 0x87, 0x96, 0x84);
    assert Product(MIX, Column(0x97, 0xad, 0x73, 0x9b)) == Column(0x31, 0xd8, 0x6a, 0x51);
    assert Product(MIX, Column(0xd8, 0xc9, 0xca, 0x45)) == Column(0x64, 0x51, 0x51, 0xfa);
    assert Product(MIX, Column(0x1f, 0x61, 0x8b, 0x61)) == Column(0x77, 0x3a, 0xd0, 0x09);
    hide Sbox, Product;
  }

  lemma Round3(s: Columns, k: Columns)
    requires s == Columns(Column(0x49, 0x15, 0x59, 0x8f), Column(0x55, 0xe5, 0xd7, 0xa0),
                          Column(0xda, 0xca, 0x94, 0xfa), Column(0x1f, 0x0a, 0x63, 0xf7))
    requires k == Columns(Column(0xb6, 0xff, 0x74, 0x4e), Column(0xd2, 0xc2, 0xc9, 0xbf),
                          Column(0x6c, 0x59, 0x0c, 0xbf), Column(0x04, 0x69, 0xbf, 0x41))
    ensures XorColumns(Mixed(Gathered(s)), k) ==
            Columns(Column(0xfa, 0x63, 0x6a, 0x28), Column(0x25, 0xb3, 0x39, 0xc9),
                    Column(0x40, 0x66, 0x8a, 0x31), Column(0x57, 0x24, 0x4d, 0x17))
  {
    assert Sbox(0x49) == 0x3b && Sbox(0x15) == 0x59 && Sbox(0x59) == 0xcb && Sbox(0x8f) == 0x73 && Sbox(0x55) == 0xfc;
    assert Sbox(0xe5) == 0xd9 && Sbox(0xd7) == 0x0e && Sbox(0xa0) == 0xe0 && Sbox(0xda) == 0x57 && Sbox(0xca) == 0x74;
    assert Sbox(0x94) == 0x22 && Sbox(0xfa) == 0x2d && Sbox(0x1f) == 0xc0 && Sbox(0x0a) == 0x67 && Sbox(0x63) == 0xfb;
    assert Sbox(0xf7) == 0x68;
    assert Product(MIX, Column(0x3b, 0xd9, 0x22, 0x68)) == Column(0x4c, 0x9c, 0x1e, 0x66);
    assert Product(MIX, Column(0xfc, 0x74, 0xfb, 0x73)) == Column(0xf7, 0x71, 0xf0, 0x76);
    assert Product(MIX, Column(0x57, 0x67, 0xcb, 0xe0)) == Column(0x2c, 0x3f, 0x86, 0x8e);
    assert Product(MIX, Column(0xc0, 0x59, 0x0e, 0x2d)) == Column(0x53, 0x4d, 0xf2, 0x56);
    hide Sbox, Product;
  }

  lemma Round4(s: Columns, k: Columns)
    requires s == Columns(Column(0xfa, 0x63, 0x6a, 0x28), Column(0x25, 0xb3, 0x39, 0xc9),
                          Column(0x40, 0x66, 0x8a, 0x31), Column(0x57, 0x24, 0x4d, 0x17))
    requires k == Columns(Column(0x47, 0xf7, 0xf7, 0xbc), Column(0x95, 0x35, 0x3e, 0x03),
                          Column(0xf9, 0x6c, 0x32, 0xbc), Column(0xfd, 0x05, 0x8d, 0xfd))
    ensures XorColumns(Mixed(Gathered(s)), k) ==
            Columns(Column(0x24, 0x72, 0x40, 0x23), Column(0x69, 0x66, 0xb3, 0xfa),
                    Column(0x6e, 0xd2, 0x75, 0x32), Column(0x88, 0x42, 0x5b, 0x6c))
  {
    assert Sbox(0xfa) == 0x2d && Sbox(0x63) == 0xfb && Sbox(0x6a) == 0x02 && Sbox(0x28) == 0x34 && Sbox(0x25) == 0x3f;
    assert Sbox(0xb3) == 0x6d && Sbox(0x39) == 0x12 && Sbox(0xc9) == 0xdd && Sbox(0x40) == 0x09 && Sbox(0x66) == 0x33;
    assert Sbox(0x8a) == 0x7e && Sbox(0x31) == 0xc7 && Sbox(0x57) == 0x5b && Sbox(0x24) == 0x36 && Sbox(0x4d) == 0xe3;
    assert Sbox(0x17) == 0xf0;
    assert Product(MIX, Column(0x2d, 0x6d, 0x7e, 0xf0)) == Column(0x63, 0x85, 0xb7, 0x9f);
    assert Product(MIX, Column(0x3f, 0x33, 0xe3, 0x34)) == Column(0xfc, 0x53, 0x8d, 0xf9);
    assert Product(MIX, Column(0x09, 0x36, 0x02, 0xdd)) == Column(0x97, 0xbe, 0x47, 0x8e);
    assert Product(MIX, Column(0x5b, 0xfb, 0x12, 0xc7)) == Column(0x75, 0x47, 0xd6, 0x91);
    hide Sbox, Product;
  }

  lemma Round5(s: Columns, k: Columns)
    requires s == Columns(Column(0x24, 0x72, 0x40, 0x23), Column(0x69, 0x66, 0xb3, 0xfa),
                          Column(0x6e, 0xd2, 0x75, 0x32), Column(0x88, 0x42, 0x5b, 0x6c))
    requires k == Columns(Column(0x3c, 0xaa, 0xa3, 0xe8), Column(0xa9, 0x9f, 0x9d, 0xeb),
                          Column(0x50, 0xf3, 0xaf, 0x57), Column(0xad, 0xf6, 0x22, 0xaa))
    ensures XorColumns(Mixed(Gathered(s)), k) ==
            Columns(Column(0xc8, 0x16, 0x77, 0xbc), Column(0x9b, 0x7a, 0xc9, 0x3b),
                    Column(0x25, 0x02, 0x79, 0x92), Column(0xb0, 0x26, 0x19, 0x96))
  {
    assert Sbox(0x24) == 0x36 && Sbox(0x72) == 0x40 && Sbox(0x40) == 0x09 && Sbox(0x23) == 0x26 && Sbox(0x69) == 0xf9;
    assert Sbox(0x66) == 0x33 && Sbox(0xb3) == 0x6d && Sbox(0xfa) == 0x2d && Sbox(0x6e) == 0x9f && Sbox(0xd2) == 0xb5;
    assert Sbox(0x75) == 0x9d && Sbox(0x32) == 0x23 && Sbox(0x88) == 0xc4 && Sbox(0x42) == 0x2c && Sbox(0x5b) == 0x39;
    assert Sbox(0x6c) == 0x50;
    assert Product(MIX, Column(0x36, 0x33, 0x9d, 0x50)) == Column(0xf4, 0xbc, 0xd4, 0x54);
    assert Product(MIX, Column(0xf9, 0xb5, 0x39, 0x26)) == Column(0x32, 0xe5, 0x54, 0xd0);
    assert Product(MIX, Column(0x9f, 0x2c, 0x09, 0x2d)) == Column(0x75, 0xf1, 0xd6, 0xc5);
    assert Product(MIX, Column(0xc4, 0x40, 0x6d, 0x23)) == Column(0x1d, 0xd0, 0x3b, 0x3c);
    hide Sbox, Product;
  }

  lemma Round6(s: Columns, k: Columns)
    requires s == Columns(Column(0xc8, 0x16, 0x77, 0xbc), Column(0x9b, 0x7a, 0xc9, 0x3b),
                          Column(0x25, 0x02, 0x79, 0x92), Column(0xb0, 0x26, 0x19, 0x96))
    requires k == Columns(Column(0x5e, 0x39, 0x0f, 0x7d), Column(0xf7, 0xa6, 0x92, 0x96),
                          Column(0xa7, 0x55, 0x3d, 0xc1), Column(0x0a, 0xa3, 0x1f, 0x6b))
    ensures XorColumns(Mixed(Gathered(s)), k) ==
            Columns(Column(0xc6, 0x2f, 0xe1, 0x09), Column(0xf7, 0x5e, 0xed, 0xc3),
                    Column(0xcc, 0x79, 0x39, 0x5d), Column(0x84, 0xf9, 0xcf, 0x5d))
  {
    assert Sbox(0xc8) == 0xe8 && Sbox(0x16) == 0x47 && Sbox(0x77) == 0xf5 && Sbox(0xbc) == 0x65 && Sbox(0x9b) == 0x14;
    assert Sbox(0x7a) == 0xda && Sbox(0xc9) == 0xdd && Sbox(0x3b) == 0xe2 && Sbox(0x25) == 0x3f && Sbox(0x02) == 0x77;
    assert Sbox(0x79) == 0xb6 && Sbox(0x92) == 0x4f && Sbox(0xb0) == 0xe7 && Sbox(0x26) == 0xf7 && Sbox(0x19) == 0xd4;
    assert Sbox(0x96) == 0x90;
    assert Product(MIX, Column(0xe8, 0xda, 0xb6, 0x90)) == Column(0x98, 0x16, 0xee, 0x74);
    assert Product(MIX, Column(0x14, 0x77, 0xd4, 0x65)) == Column(0x00, 0xf8, 0x7f, 0x55);
    assert Product(MIX, Column(0x3f, 0xf7, 0xf5, 0xe2)) == Column(0x6b, 0x2c, 0x04, 0x9c);
    assert Product(MIX, Column(0xe7, 0x47, 0xdd, 0x4f)) == Column(0x8e, 0x5a, 0xd0, 0x36);
    hide Sbox, Product;
  }

  lemma Round7(s: Columns, k: Columns)
    requires s == Columns(Column(0xc6, 0x2f, 0xe1, 0x09), Column(0xf7, 0x5e, 0xed, 0xc3),
                          Column(0xcc, 0x79, 0x39, 0x5d), Column(0x84, 0xf9, 0xcf, 0x5d))
    requires k == Columns(Column(0x14, 0xf9, 0x70, 0x1a), Column(0xe3, 0x5f, 0xe2, 0x8c),
                          Column(0x44, 0x0a, 0xdf, 0x4d), Column(0x4e, 0xa9, 0xc0, 0x26))
    ensures XorColumns(Mixed(Gathered(s)), k) ==
            Columns(Column(0xd1, 0x87, 0x6c, 0x0f), Column(0x79, 0xc4, 0x30, 0x0a),
                    Column(0xb4, 0x55, 0x94, 0xad), Column(0xd6, 0x6f, 0xf4, 0x1f))
  {
    assert Sbox(0xc6) == 0xb4 && Sbox(0x2f) == 0x15 && Sbox(0xe1) == 0xf8 && Sbox(0x09) == 0x01 && Sbox(0xf7) == 0x68;
    assert Sbox(0x5e) == 0x58 && Sbox(0xed) == 0x55 && Sbox(0xc3) == 0x2e && Sbox(0xcc) == 0x4b && Sbox(0x79) == 0xb6;
    assert Sbox(0x39) == 0x12 && Sbox(0x5d) == 0x4c && Sbox(0x84) == 0x5f && Sbox(0xf9) == 0x99 && Sbox(0xcf) == 0x8a;
    assert Product(MIX, Column(0xb4, 0x58, 0x12, 0x4c)) == Column(0xc5, 0x7e, 0x1c, 0x15);
    assert Product(MIX, Column(0x68, 0xb6, 0x8a, 0x01)) == Column(0x9a, 0x9b, 0xd2, 0x86);
    assert Product(MIX, Column(0x4b, 0x99, 0xf8, 0x2e)) == Column(0xf0, 0x5f, 0x4b, 0xe0);
    assert Product(MIX, Column(0x5f, 0x15, 0x55, 0x4c)) == Column(0x98, 0xc6, 0x34, 0x39);
    hide Sbox, Product;
  }

  lemma Round8(s: Columns, k: Columns)
    requires s == Columns(Column(0xd1, 0x87, 0x6c, 0x0f), Column(0x79, 0xc4, 0x30, 0x0a),
                          Column(0xb4, 0x55, 0x94, 0xad), Column(0xd6, 0x6f, 0xf4, 0x1f))
    requires k == Columns(Column(0x47, 0x43, 0x87, 0x35), Column(0xa4, 0x1c, 0x65, 0xb9),
                          Column(0xe0, 0x16, 0xba, 0xf4), Column(0xae, 0xbf, 0x7a, 0xd2))
    ensures XorColumns(Mixed(Gathered(s)), k) ==
            Columns(Column(0xfd, 0xe3, 0xba, 0xd2), Column(0x05, 0xe5, 0xd0, 0xd7),
                    Column(0x35, 0x47, 0x96, 0x4e), Column(0xf1, 0xfe, 0x37, 0xf1))
  {
    assert Sbox(0xd1) == 0x3e && Sbox(0x87) == 0x17 && Sbox(0x6c) == 0x50 && Sbox(0x0f) == 0x76 && Sbox(0x79) == 0xb6;
    assert Sbox(0xc4) == 0x1c && Sbox(0x30) == 0x04 && Sbox(0x0a) == 0x67 && Sbox(0xb4) == 0x8d && Sbox(0x55) == 0xfc;
    assert Sbox(0x94) == 0x22 && Sbox(0xad) == 0x95 && Sbox(0xd6) == 0xf6 && Sbox(0x6f) == 0xa8 && Sbox(0xf4) == 0xbf;
    assert Sbox(0x1f) == 0xc0;
    assert Product(MIX, Column(0x3e, 0x1c, 0x22, 0xc0)) == Column(0xba, 0xa0, 0x3d, 0xe7);
    assert Product(MIX, Column(0xb6, 0xfc, 0xbf, 0x76)) == Column(0xa1, 0xf9, 0xb5, 0x6e);
    assert Product(MIX, Column(0x8d, 0xa8, 0x50, 0x67)) == Column(0xd5, 0x51, 0x2c, 0xba);
    assert Product(MIX, Column(0xf6, 0x17, 0x04, 0x95)) == Column(0x5f, 0x41, 0x4d, 0x23);
    hide Sbox, Product;
  }

  lemma Round9(s: Columns, k: Columns)
    requires s == Columns(Column(0xfd, 0xe3, 0xba, 0xd2), Column(0x05, 0xe5, 0xd0, 0xd7),
                          Column(0x35, 0x47, 0x96, 0x4e), Column(0xf1, 0xfe, 0x37, 0xf1))
    requires k == Columns(Column(0x54, 0x99, 0x32, 0xd1), Column(0xf0, 0x85, 0x57, 0x68),
                          Column(0x10, 0x93, 0xed, 0x9c), Column(0xbe, 0x2c, 0x97, 0x4e))
    ensures XorColumns(Mixed(Gathered(s)), k) ==
            Columns(Column(0xbd, 0x6e, 0x7c, 0x3d), Column(0xf2, 0xb5, 0x77, 0x9e),
                    Column(0x0b, 0x61, 0x21, 0x6e), Column(0x8b, 0x10, 0xb6, 0x89))
  {
    assert Sbox(0xfd) == 0x54 && Sbox(0xe3) == 0x11 && Sbox(0xba) == 0xf4 && Sbox(0xd2) == 0xb5 && Sbox(0x05) == 0x6b;
    assert Sbox(0xe5) == 0xd9 && Sbox(0xd0) == 0x70 && Sbox(0xd7) == 0x0e && Sbox(0x35) == 0x96 && Sbox(0x47) == 0xa0;
    assert Sbox(0x96) == 0x90 && Sbox(0x4e) == 0x2f && Sbox(0xf1) == 0xa1 && Sbox(0xfe) == 0xbb && Sbox(0x37) == 0x9a;
    assert Product(MIX, Column(0x54, 0xd9, 0x90, 0xa1)) == Column(0xe9, 0xf7, 0x4e, 0xec);
    assert Product(MIX, Column(0x6b, 0xa0, 0x9a, 0xb5)) == Column(0x02, 0x30, 0x20, 0xf6);
    assert Product(MIX, Column(0x96, 0xbb, 0xf4, 0x0e)) == Column(0x1b, 0xf2, 0xcc, 0xf2);
    assert Product(MIX, Column(0xa1, 0x11, 0x70, 0x2f)) == Column(0x35, 0x3c, 0x21, 0xc7);
    hide Sbox, Product;
  }

  lemma Round10(s: Columns, k: Columns)
    requires s == Columns(Column(0xbd, 0x6e, 0x7c, 0x3d), Column(0xf2, 0xb5, 0x77, 0x9e),
                          Column(0x0b, 0x61, 0x21, 0x6e), Column(0x8b, 0x10, 0xb6, 0x89))
    requires k == Columns(Column(0x13, 0x11, 0x1d, 0x7f), Column(0xe3, 0x94, 0x4a, 0x17),
                          Column(0xf3, 0x07, 0xa7, 0x8b), Column(0x4d, 0x2b, 0x30, 0xc5))
    ensures XorColumns(Gathered(s), k) == ColumnsOf(ENCRYPTED)
  {
    assert Sbox(0xbd) == 0x7a && Sbox(0x6e) == 0x9f && Sbox(0x7c) == 0x10 && Sbox(0x3d) == 0x27 && Sbox(0xf2) == 0x89;
    assert Sbox(0xb5) == 0xd5 && Sbox(0x77) == 0xf5 && Sbox(0x9e) == 0x0b && Sbox(0x0b) == 0x2b && Sbox(0x61) == 0xef;
    assert Sbox(0x21) == 0xfd && Sbox(0x8b) == 0x3d && Sbox(0x10) == 0xca && Sbox(0xb6) == 0x4e && Sbox(0x89) == 0xa7;
    hide Sbox;
  }

  lemma Start(s: Columns, k: Columns)
    requires s == ColumnsOf(PLAIN) && k == ColumnsOf(KEY)
    ensures k == Columns(Column(0x00, 0x01, 0x02, 0x03), Column(0x04, 0x05, 0x06, 0x07),
                         Column(0x08, 0x09, 0x0a, 0x0b), Column(0x0c, 0x0d, 0x0e, 0x0f))
    ensures XorColumns(s, k) ==
            Columns(Column(0x00, 0x10, 0x20, 0x30), Column(0x40, 0x50, 0x60, 0x70),
                    Column(0x80, 0x90, 0xa0, 0xb0), Column(0xc0, 0xd0, 0xe0, 0xf0))
  {
  }

  lemma RoundConstants()
    ensures Power(1, 0) == 0x01 && Power(1, 1) == 0x02 && Power(1, 2) == 0x04 && Power(1, 3) == 0x08 && Power(1, 4) == 0x10
    ensures Power(1, 5) == 0x20 && Power(1, 6) == 0x40 && Power(1, 7) == 0x80 && Power(1, 8) == 0x1b && Power(1, 9) == 0x36
  {
    ByteOfConstant(0, 0);
  }

  lemma RoundKeyStep(key: Columns, n: nat)
    requires n > 0
    ensures RoundKey(key, n) == NextKey(RoundKey(key, n - 1), Power(1, n - 1))
  {
  }

  lemma StateStep(block: Columns, key: Columns, n: nat)
    requires n > 0
    ensures State(block, key, n) == XorColumns(Mixed(Gathered(State(block, key, n - 1))), RoundKey(key, n))
  {
  }

  // The cipher encrypts the example of the standard as the standard says, and decrypts it.
  lemma KnownAnswer()
    ensures Encrypt(KEY, PLAIN) == ENCRYPTED && Decrypt(KEY, ENCRYPTED) == PLAIN
  {
    hide NextKey, XorColumns, Mixed, Gathered, Power, Encrypt, Decrypt, ColumnsOf, RoundKey, State;
    var key, block := ColumnsOf(KEY), ColumnsOf(PLAIN);
    RoundConstants();
    FirstRoundKey(key);
    FirstState(block, key);
    Start(block, key);
    RoundKeyStep(key, 1);
    Key1(RoundKey(key, 0));
    StateStep(block, key, 1);
    Round1(State(block, key, 0), RoundKey(key, 1));
    RoundKeyStep(key, 2);
    Key2(RoundKey(key, 1));
    StateStep(block, key, 2);
    Round2(State(block, key, 1), RoundKey(key, 2));
    RoundKeyStep(key, 3);
    Key3(RoundKey(key, 2));
    StateStep(block, key, 3);
    Round3(State(block, key, 2), RoundKey(key, 3));
    RoundKeyStep(key, 4);
    Key4(RoundKey(key, 3));
    StateStep(block, key, 4);
    Round4(State(block, key, 3), RoundKey(key, 4));
    RoundKeyStep(key, 5);
    Key5(RoundKey(key, 4));
    StateStep(block, key, 5);
    Round5(State(block, key, 4), RoundKey(key, 5));
    RoundKeyStep(key, 6);
    Key6(RoundKey(key, 5));
    StateStep(block, key, 6);
    Round6(State(block, key, 5), RoundKey(key, 6));
    RoundKeyStep(key, 7);
    Key7(RoundKey(key, 6));
    StateStep(block, key, 7);
    Round7(State(block, key, 6), RoundKey(key, 7));
    RoundKeyStep(key, 8);
    Key8(RoundKey(key, 7));
    StateStep(block, key, 8);
    Round8(State(block, key, 7), RoundKey(key, 8));
    RoundKeyStep(key, 9);
    Key9(RoundKey(key, 8));
    StateStep(block, key, 9);
    Round9(State(block, key, 8), RoundKey(key, 9));
    RoundKeyStep(key, 10);
    Key10(RoundKey(key, 9));
    Round10(State(block, key, 9), RoundKey(key, 10));
    CiphersAgree(KEY, PLAIN);
    SameColumns(Encrypt(KEY, PLAIN), ENCRYPTED);
    CipherRoundTrip(KEY, PLAIN);
  }

  lemma FirstState(block: Columns, key: Columns)
    ensures State(block, key, 0) == XorColumns(block, key)
  {
  }

  lemma SameColumns(s: Block, t: Block)
    requires ColumnsOf(s) == ColumnsOf(t)
    ensures s == t
  {
    assert forall c | 0 <= c < 4 :: ColumnOf(s, c) == ColumnOf(t, c);
    assert s[0..4] == t[0..4] && s[4..8] == t[4..8] && s[8..12] == t[8..12] && s[12..16] == t[12..16];
    assert s == s[0..4] + s[4..8] + s[8..12] + s[12..16];
    assert t == t[0..4] + t[4..8] + t[8..12] + t[12..16];
  }
}
