/** The parts of FIPS 197 that the tables and the key schedule stand for, in the standard's own terms. */
module AesStandard {
  import opened AesTables
  import opened AesField
  import opened AesCipher

  // One step of a field multiplication, for bit i of b, when x is a times x^i.
  function Term(b: bv8, bit: bv8, x: bv8): bv8
  {
    if b & bit != 0 then x else 0
  }

  function Power(x: bv8, n: nat): bv8
  {
    if n == 0 then x else Xtime(Power(x, n - 1))
  }

  // The product in GF(2^8) (FIPS 197, section 4.2).
  function FieldProduct(a: bv8, b: bv8): bv8
  {
    var a1 := Xtime(a);
    var a2 := Xtime(a1);
    var a3 := Xtime(a2);
    var a4 := Xtime(a3);
    var a5 := Xtime(a4);
    var a6 := Xtime(a5);
    var a7 := Xtime(a6);
    Term(b, 1, a) ^ Term(b, 2, a1) ^ Term(b, 4, a2) ^ Term(b, 8, a3)
    ^ Term(b, 16, a4) ^ Term(b, 32, a5) ^ Term(b, 64, a6) ^ Term(b, 128, a7)
  }

  function Rotl(x: bv8, n: bv8): bv8
    requires 0 < n < 8
  {
    (x << n) | (x >> (8 - n))
  }

  // The affine transformation of FIPS 197, section 5.1.1.
  function Affine(x: bv8): bv8
  {
    x ^ Rotl(x, 1) ^ Rotl(x, 2) ^ Rotl(x, 3) ^ Rotl(x, 4) ^ 0x63
  }

  function Unaffine(x: bv8): bv8
  {
    Rotl(x, 1) ^ Rotl(x, 3) ^ Rotl(x, 6) ^ 0x05
  }

  lemma AffineUndone(x: bv8)
    ensures Affine(Unaffine(x)) == x
  {
  }

  lemma SboxLaw1(x: bv8)
    requires 0 < x < 0x40
    ensures FieldProduct(x, Unaffine(Sbox(x))) == 1
  {
  }

  lemma SboxLaw2(x: bv8)
    requires 0x40 <= x < 0x80
    ensures FieldProduct(x, Unaffine(Sbox(x))) == 1
  {
  }

  lemma SboxLaw3(x: bv8)
    requires 0x80 <= x < 0xc0
    ensures FieldProduct(x, Unaffine(Sbox(x))) == 1
  {
  }

  lemma SboxLaw4(x: bv8)
    requires 0xc0 <= x
    ensures FieldProduct(x, Unaffine(Sbox(x))) == 1
  {
  }

  // The S-box is the affine transformation of the inverse in the field, with 0 for the inverse of 0.
  lemma SboxLaw(x: bv8)
    ensures x == 0 ==> Sbox(x) == Affine(0)
    ensures x != 0 ==> exists y :: FieldProduct(x, y) == 1 && Sbox(x) == Affine(y)
  {
    if x == 0 {
    } else {
      hide Sbox, FieldProduct, Affine, Unaffine;
      if x < 0x40 {
        SboxLaw1(x);
      } else if x < 0x80 {
        SboxLaw2(x);
      } else if x < 0xc0 {
        SboxLaw3(x);
      } else {
        SboxLaw4(x);
      }
      AffineUndone(Sbox(x));
    }
  }

  // ----- The key expansion, byte by byte -----

  // Byte j of word i of the expanded key (FIPS 197, section 5.2).
  function ScheduleByte(key: Block, i: nat, j: nat): bv8
    requires i < 44 && j < 4
    decreases i
  {
    if i < 4 then key[4 * i + j]
    else
      var back4 := ScheduleByte(key, i - 4, j);
      if i % 4 != 0 then Xor(back4, ScheduleByte(key, i - 1, j))
      else
        var substituted := Xor(back4, Sbox(ScheduleByte(key, i - 1, if j == 3 then 0 else j + 1)));
        if j == 0 then Xor(substituted, Power(1, i / 4 - 1)) else substituted
  }

  lemma ByteOfWord(b0: bv8, b1: bv8, b2: bv8, b3: bv8)
    ensures WordByte(Word(b0, b1, b2, b3), 0) == b0 && WordByte(Word(b0, b1, b2, b3), 1) == b1
    ensures WordByte(Word(b0, b1, b2, b3), 2) == b2 && WordByte(Word(b0, b1, b2, b3), 3) == b3
  {
  }

  lemma ByteOfSubWord(w: bv32, j: nat)
    requires j < 4
    ensures WordByte(SubWord(w), j) == Sbox(WordByte(w, j))
  {
    hide WordByte, Word, Sbox;
    ByteOfWord(Sbox(WordByte(w, 0)), Sbox(WordByte(w, 1)), Sbox(WordByte(w, 2)), Sbox(WordByte(w, 3)));
  }

  lemma ByteOfXor0(v: bv32, w: bv32)
    ensures WordByte(XorWord(v, w), 0) == Xor(WordByte(v, 0), WordByte(w, 0))
  {
  }

  lemma ByteOfXor1(v: bv32, w: bv32)
    ensures WordByte(XorWord(v, w), 1) == Xor(WordByte(v, 1), WordByte(w, 1))
  {
  }

  lemma ByteOfXor2(v: bv32, w: bv32)
    ensures WordByte(XorWord(v, w), 2) == Xor(WordByte(v, 2), WordByte(w, 2))
  {
  }

  lemma ByteOfXor3(v: bv32, w: bv32)
    ensures WordByte(XorWord(v, w), 3) == Xor(WordByte(v, 3), WordByte(w, 3))
  {
  }

  lemma ByteOfXor(v: bv32, w: bv32, j: nat)
    requires j < 4
    ensures WordByte(XorWord(v, w), j) == Xor(WordByte(v, j), WordByte(w, j))
  {
    hide WordByte, XorWord, Xor;
    ByteOfXor0(v, w);
    ByteOfXor1(v, w);
    ByteOfXor2(v, w);
    ByteOfXor3(v, w);
  }

  lemma ByteOfRotated(w: bv32, j: nat)
    requires j < 4
    ensures WordByte(RotWord(w), j) == WordByte(w, if j == 3 then 0 else j + 1)
  {
  }

  lemma ByteOfConstant(k: nat, j: nat)
    requires k < 10 && j < 4
    ensures WordByte(RCON[k], j) == if j == 0 then Power(1, k) else 0
  {
    assert Power(1, 0) == 0x01;
    assert Power(1, 1) == 0x02;
    assert Power(1, 2) == 0x04;
    assert Power(1, 3) == 0x08;
    assert Power(1, 4) == 0x10;
    assert Power(1, 5) == 0x20;
    assert Power(1, 6) == 0x40;
    assert Power(1, 7) == 0x80;
    assert Power(1, 8) == 0x1b;
    assert Power(1, 9) == 0x36;
  }

  lemma NextWordByte(i: nat, back4: bv32, back1: bv32, j: nat)
    requires 4 <= i < 44 && j < 4
    ensures
      var plain := WordByte(back4, j);
      WordByte(NextWord(i, back4, back1), j) ==
      if i % 4 != 0 then Xor(plain, WordByte(back1, j))
      else
        var substituted := Xor(plain, Sbox(WordByte(back1, if j == 3 then 0 else j + 1)));
        if j == 0 then Xor(substituted, Power(1, i / 4 - 1)) else substituted
  {
    hide WordByte, Word, Sbox, Power, Xor, XorWord, RotWord, SubWord;
    if i % 4 != 0 {
      ByteOfXor(back4, back1, j);
    } else {
      var rotated := RotWord(back1);
      var k := i / 4 - 1;
      ByteOfXor(back4, XorWord(SubWord(rotated), RCON[k]), j);
      ByteOfXor(SubWord(rotated), RCON[k], j);
      ByteOfRotated(back1, j);
      ByteOfConstant(k, j);
      ByteOfSubWord(rotated, j);
      XorRegroup(WordByte(back4, j), Sbox(WordByte(rotated, j)), WordByte(RCON[k], j));
    }
  }

  lemma XorRegroup(a: bv8, b: bv8, c: bv8)
    ensures Xor(a, Xor(b, c)) == Xor(Xor(a, b), c) && Xor(Xor(a, b), 0) == Xor(a, b)
  {
  }

  // The schedule of words is the standard's expansion, for every key.
  lemma {:induction false} ScheduleIsStandard(key: Block, i: nat, j: nat)
    requires i < 44 && j < 4
    ensures WordByte(KeyWord(key, i), j) == ScheduleByte(key, i, j)
    decreases i
  {
    hide WordByte, Word, NextWord, Sbox, Power, Xor;
    if i < 4 {
      ByteOfWord(key[4 * i], key[4 * i + 1], key[4 * i + 2], key[4 * i + 3]);
    } else {
      NextWordByte(i, KeyWord(key, i - 4), KeyWord(key, i - 1), j);
      ScheduleIsStandard(key, i - 4, j);
      ScheduleIsStandard(key, i - 1, j);
      ScheduleIsStandard(key, i - 1, if j == 3 then 0 else j + 1);
    }
  }
}
