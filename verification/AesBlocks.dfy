/** The in-place AES routines of the client, proved against AesCipher. */
module AesBlocks {
  import opened AesTables
  import opened AesField
  import opened AesCipher

  // ----- The decrypting side's multiplications, which let the product grow beyond eight bits -----

  function XtimeMacro(x: bv32): bv32 { (x << 1) ^ (((x >> 7) & 1) * 0x1b) }
  function Mul9(x: bv32): bv32 { XtimeMacro(XtimeMacro(XtimeMacro(x))) ^ x }
  function Mul11(x: bv32): bv32 { XtimeMacro(XtimeMacro(XtimeMacro(x)) ^ x) ^ x }
  function Mul13(x: bv32): bv32 { XtimeMacro(XtimeMacro(XtimeMacro(x) ^ x)) ^ x }
  function Mul14(x: bv32): bv32 { XtimeMacro(XtimeMacro(XtimeMacro(x) ^ x) ^ x) }

  function Low(x: bv32): bv8 { (x & 0xff) as bv8 }

  // Cutting the widened products to a byte gives the field products.
  lemma MacrosMultiply(x: bv8)
    ensures Low(Mul9(x as bv32)) == Times(9, x)
    ensures Low(Mul11(x as bv32)) == Times(11, x)
    ensures Low(Mul13(x as bv32)) == Times(13, x)
    ensures Low(Mul14(x as bv32)) == Times(14, x)
  {
  }

  function XorWords(a: bv32, b: bv32, c: bv32, d: bv32): bv32 { a ^ b ^ c ^ d }

  lemma LowOfXor(a: bv32, b: bv32, c: bv32, d: bv32)
    ensures Low(XorWords(a, b, c, d)) == Sum4(Low(a), Low(b), Low(c), Low(d))
  {
  }

  lemma TimesSmall(x: bv8)
    ensures Times(1, x) == x && Times(2, x) == Xtime(x) && Times(3, x) == Xor(Xtime(x), x)
  {
  }

  function Xor5(a: bv8, b: bv8, c: bv8, d: bv8, e: bv8): bv8 { a ^ b ^ c ^ d ^ e }

  lemma Sum4Flat(a: bv8, b: bv8, c: bv8, d: bv8, e: bv8)
    ensures Sum4(a, Xor(b, c), d, e) == Xor5(a, b, c, d, e)
  {
  }

  lemma Xor5Rotate(a: bv8, b: bv8, c: bv8, d: bv8, e: bv8)
    ensures Xor5(a, b, c, d, e) == Xor5(b, c, d, e, a)
  {
  }

  // The four sums of the encrypting side are the four rows of the MixColumns product.
  lemma MixSums(a: Column)
    ensures Product(MIX, a) ==
            var (x0, x1, x2, x3) := (Xtime(a.b0), Xtime(a.b1), Xtime(a.b2), Xtime(a.b3));
            Column(Xor5(x0, x1, a.b1, a.b2, a.b3), Xor5(a.b0, x1, x2, a.b2, a.b3),
                   Xor5(a.b0, a.b1, x2, x3, a.b3), Xor5(x0, a.b0, a.b1, a.b2, x3))
  {
    hide Times, Xtime, Sum4, Xor, Xor5;
    TimesSmall(a.b0); TimesSmall(a.b1); TimesSmall(a.b2); TimesSmall(a.b3);
    var (x0, x1, x2, x3) := (Xtime(a.b0), Xtime(a.b1), Xtime(a.b2), Xtime(a.b3));
    Sum4Flat(x0, x1, a.b1, a.b2, a.b3);
    Sum4Flat(x1, x2, a.b2, a.b3, a.b0);
    Sum4Flat(x2, x3, a.b3, a.b0, a.b1);
    Sum4Flat(x3, x0, a.b0, a.b1, a.b2);
    Xor5Rotate(a.b0, x1, x2, a.b2, a.b3);
    Xor5Rotate(a.b0, a.b1, x2, x3, a.b3);
    Xor5Rotate(a.b1, x2, x3, a.b3, a.b0);
    Xor5Rotate(x3, x0, a.b0, a.b1, a.b2);
  }

  // ----- Key setup -----

  method SetEncryptKey(key: Block, rk: array<bv32>)
    requires rk.Length == 44
    modifies rk
    ensures rk[..] == ExpandedKey(key)
  {
    hide Word, NextWord;
    for i := 0 to 4
      invariant forall k | 0 <= k < i :: rk[k] == KeyWord(key, k)
    {
      rk[i] := Word(key[4 * i], key[4 * i + 1], key[4 * i + 2], key[4 * i + 3]);
    }
    for i := 4 to 44
      invariant forall k | 0 <= k < i :: rk[k] == KeyWord(key, k)
    {
      rk[i] := NextWord(i, rk[i - 4], rk[i - 1]);
    }
  }

  lemma MirrorSwaps(i: nat, j: nat)
    requires i <= 10 && j < 4
    ensures Mirror(i * 4 + j) == (10 - i) * 4 + j
  {
  }

  lemma MirrorTwice(k: nat)
    requires k < 44
    ensures Mirror(Mirror(k)) == k && (k < 20 <==> 24 <= Mirror(k)) && (20 <= k < 24 ==> Mirror(k) == k)
  {
  }

  method SetDecryptKey(key: Block, rk: array<bv32>)
    requires rk.Length == 44
    modifies rk
    ensures rk[..] == Reversed(ExpandedKey(key))
  {
    hide ExpandedKey, Mirror;
    SetEncryptKey(key, rk);
    ghost var schedule: Schedule := rk[..];
    forall k | 0 <= k < 44
      ensures Mirror(Mirror(k)) == k && (k < 20 <==> 24 <= Mirror(k)) && (20 <= k < 24 ==> Mirror(k) == k)
    {
      MirrorTwice(k);
    }
    for i := 0 to 5
      invariant forall k | 0 <= k < 44 :: rk[k] == schedule[if k < 4 * i || Mirror(k) < 4 * i then Mirror(k) else k]
    {
      for j := 0 to 4
        invariant forall k | 0 <= k < 44 :: rk[k] == schedule[if k < 4 * i + j || Mirror(k) < 4 * i + j then Mirror(k) else k]
      {
        MirrorSwaps(i, j);
        var t := rk[i * 4 + j];
        rk[i * 4 + j] := rk[(10 - i) * 4 + j];
        rk[(10 - i) * 4 + j] := t;
      }
    }
  }

  // ----- The steps of a round, in place -----

  method Put(s: array<bv8>, block: Block)
    requires s.Length == 16
    modifies s
    ensures s[..] == block
  {
    forall i | 0 <= i < 16 {
      s[i] := block[i];
    }
  }

  method AddKey(s: array<bv8>, rk: array<bv32>, round: nat)
    requires s.Length == 16 && rk.Length == 44 && round <= 10
    modifies s
    ensures s[..] == AddRoundKey(old(s[..]), rk[..], round)
  {
    hide WordByte;
    ghost var schedule: Schedule := rk[..];
    for i := 0 to 16
      invariant forall k | 0 <= k < i :: s[k] == Xor(old(s[k]), KeyByte(schedule, round, k))
      invariant forall k | i <= k < 16 :: s[k] == old(s[k])
    {
      s[i] := s[i] ^ WordByte(rk[round * 4 + i / 4], i % 4);
    }
  }

  method SubAndShift(s: array<bv8>)
    requires s.Length == 16
    modifies s
    ensures s[..] == ShiftRows(SubBytes(old(s[..])))
  {
    hide Sbox, ShiftRows;
    var t := new bv8[16];
    ghost var start: Block := s[..];
    for i := 0 to 16
      invariant forall k | 0 <= k < i :: t[k] == Sbox(s[k])
      invariant s[..] == start
    {
      t[i] := Sbox(s[i]);
    }
    assert t[..] == SubBytes(start);
    ShiftRowsLayout(t[..]);
    Put(s, [t[0], t[5], t[10], t[15], t[4], t[9], t[14], t[3],
            t[8], t[13], t[2], t[7], t[12], t[1], t[6], t[11]]);
  }

  method UnshiftAndUnsub(s: array<bv8>)
    requires s.Length == 16
    modifies s
    ensures s[..] == InvSubBytes(InvShiftRows(old(s[..])))
  {
    hide InvSbox, InvShiftRows;
    var t := new bv8[16];
    ghost var start: Block := s[..];
    Put(t, [s[0], s[13], s[10], s[7], s[4], s[1], s[14], s[11],
            s[8], s[5], s[2], s[15], s[12], s[9], s[6], s[3]]);
    InvShiftRowsLayout(start);
    assert t[..] == InvShiftRows(start);
    for i := 0 to 16
      invariant forall k | 0 <= k < i :: s[k] == InvSbox(t[k])
      invariant t[..] == InvShiftRows(start)
    {
      s[i] := InvSbox(t[i]);
    }
  }

  method MixColumns(s: array<bv8>)
    requires s.Length == 16
    modifies s
    ensures s[..] == MultiplyColumns(MIX, old(s[..]))
  {
    hide XtimeTable, Xtime, Xor5, Product, MultiplyColumns;
    ghost var start: Block := s[..];
    ghost var target := MultiplyColumns(MIX, start);
    for c := 0 to 4
      invariant forall k | 0 <= k < 4 * c :: s[k] == target[k]
      invariant forall k | 4 * c <= k < 16 :: s[k] == start[k]
    {
      var i := c * 4;
      var a0, a1, a2, a3 := s[i], s[i + 1], s[i + 2], s[i + 3];
      XtimeTableIsXtime(a0); XtimeTableIsXtime(a1); XtimeTableIsXtime(a2); XtimeTableIsXtime(a3);
      MixSums(ColumnOf(start, c));
      ColumnOfProduct(MIX, start, c);
      s[i] := Xor5(XtimeTable(a0), XtimeTable(a1), a1, a2, a3);
      s[i + 1] := Xor5(a0, XtimeTable(a1), XtimeTable(a2), a2, a3);
      s[i + 2] := Xor5(a0, a1, XtimeTable(a2), XtimeTable(a3), a3);
      s[i + 3] := Xor5(XtimeTable(a0), a0, a1, a2, XtimeTable(a3));
    }
  }

  method InvMixColumns(s: array<bv8>)
    requires s.Length == 16
    modifies s
    ensures s[..] == MultiplyColumns(INV_MIX, old(s[..]))
  {
    hide MacroRow, Product, MultiplyColumns;
    ghost var start: Block := s[..];
    ghost var target := MultiplyColumns(INV_MIX, start);
    for c := 0 to 4
      invariant forall k | 0 <= k < 4 * c :: s[k] == target[k]
      invariant forall k | 4 * c <= k < 16 :: s[k] == start[k]
    {
      var i := c * 4;
      var a0, a1, a2, a3 := s[i], s[i + 1], s[i + 2], s[i + 3];
      InvMixSums(ColumnOf(start, c));
      ColumnOfProduct(INV_MIX, start, c);
      s[i] := MacroRow(a0, a1, a2, a3);
      s[i + 1] := MacroRow(a1, a2, a3, a0);
      s[i + 2] := MacroRow(a2, a3, a0, a1);
      s[i + 3] := MacroRow(a3, a0, a1, a2);
    }
  }

  // One output byte of the decrypting side, summed in the wide type and then cut.
  function MacroRow(a0: bv8, a1: bv8, a2: bv8, a3: bv8): bv8
  {
    Low(XorWords(Mul14(a0 as bv32), Mul11(a1 as bv32), Mul13(a2 as bv32), Mul9(a3 as bv32)))
  }

  lemma MacroRowIsRow(a: Column)
    ensures MacroRow(a.b0, a.b1, a.b2, a.b3) == Row(INV_MIX, a)
  {
    hide Mul9, Mul11, Mul13, Mul14, Low, XorWords, Times, Sum4;
    MacrosMultiply(a.b0); MacrosMultiply(a.b1); MacrosMultiply(a.b2); MacrosMultiply(a.b3);
    LowOfXor(Mul14(a.b0 as bv32), Mul11(a.b1 as bv32), Mul13(a.b2 as bv32), Mul9(a.b3 as bv32));
  }

  lemma InvMixSums(a: Column)
    ensures Product(INV_MIX, a) ==
            Column(MacroRow(a.b0, a.b1, a.b2, a.b3), MacroRow(a.b1, a.b2, a.b3, a.b0),
                   MacroRow(a.b2, a.b3, a.b0, a.b1), MacroRow(a.b3, a.b0, a.b1, a.b2))
  {
    hide MacroRow, Row;
    MacroRowIsRow(a);
    MacroRowIsRow(Rotate(a));
    MacroRowIsRow(Rotate(Rotate(a)));
    MacroRowIsRow(Rotate(Rotate(Rotate(a))));
  }

  // ----- Whole blocks -----

  method EncryptBlock(input: Block, out: array<bv8>, rk: array<bv32>)
    requires out.Length == 16 && rk.Length == 44
    modifies out
    ensures out[..] == Cipher(input, rk[..])
  {
    hide AddRoundKey, SubBytes, ShiftRows, MultiplyColumns;
    var s := new bv8[16];
    Put(s, input);
    ghost var schedule: Schedule := rk[..];
    AddKey(s, rk, 0);
    for round := 1 to 10
      invariant s[..] == EncryptRounds(input, schedule, round - 1)
    {
      SubAndShift(s);
      MixColumns(s);
      AddKey(s, rk, round);
    }
    SubAndShift(s);
    AddKey(s, rk, 10);
    Put(out, s[..]);
  }

  method DecryptBlock(input: Block, out: array<bv8>, rk: array<bv32>)
    requires out.Length == 16 && rk.Length == 44
    modifies out
    ensures out[..] == InvCipher(input, rk[..])
  {
    hide AddRoundKey, InvSubBytes, InvShiftRows, MultiplyColumns;
    var s := new bv8[16];
    Put(s, input);
    ghost var schedule: Schedule := rk[..];
    AddKey(s, rk, 0);
    for round := 1 to 10
      invariant s[..] == DecryptRounds(input, schedule, round - 1)
    {
      UnshiftAndUnsub(s);
      AddKey(s, rk, round);
      InvMixColumns(s);
    }
    UnshiftAndUnsub(s);
    AddKey(s, rk, 10);
    Put(out, s[..]);
  }
}
