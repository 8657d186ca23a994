/** AES-128 as functions on sixteen-byte blocks (FIPS 197, section 5), and the proof that the two ciphers are inverse. */
module AesCipher {
  import opened AesTables
  import opened AesField

  type Block = s: seq<bv8> | |s| == 16 witness seq(16, _ => 0)
  type Schedule = s: seq<bv32> | |s| == 44 witness seq(44, _ => 0)

  // ----- Words and key schedule -----

  // Byte j of a word, the most significant one first.
  function WordByte(w: bv32, j: nat): bv8
    requires j < 4
  {
    if j == 0 then ((w >> 24) & 0xff) as bv8
    else if j == 1 then ((w >> 16) & 0xff) as bv8
    else if j == 2 then ((w >> 8) & 0xff) as bv8
    else (w & 0xff) as bv8
  }

  function Word(b0: bv8, b1: bv8, b2: bv8, b3: bv8): bv32
  {
    ((b0 as bv32) << 24) | ((b1 as bv32) << 16) | ((b2 as bv32) << 8) | (b3 as bv32)
  }

  function XorWord(v: bv32, w: bv32): bv32 { v ^ w }

  function RotWord(w: bv32): bv32
  {
    (w << 8) | (w >> 24)
  }

  function SubWord(w: bv32): bv32
  {
    Word(Sbox(WordByte(w, 0)), Sbox(WordByte(w, 1)), Sbox(WordByte(w, 2)), Sbox(WordByte(w, 3)))
  }

  const RCON: seq<bv32> := [
    0x01000000, 0x02000000, 0x04000000, 0x08000000, 0x10000000,
    0x20000000, 0x40000000, 0x80000000, 0x1b000000, 0x36000000]

  // Word i of the expanded key, from words i - 4 and i - 1.
  function NextWord(i: nat, back4: bv32, back1: bv32): bv32
    requires 4 <= i < 44
  {
    XorWord(back4, if i % 4 == 0 then XorWord(SubWord(RotWord(back1)), RCON[i / 4 - 1]) else back1)
  }

  function KeyWord(key: Block, i: nat): bv32
    requires i < 44
  {
    if i < 4 then Word(key[4 * i], key[4 * i + 1], key[4 * i + 2], key[4 * i + 3])
    else NextWord(i, KeyWord(key, i - 4), KeyWord(key, i - 1))
  }

  function ExpandedKey(key: Block): Schedule
  {
    seq(44, i requires 0 <= i < 44 => KeyWord(key, i))
  }

  // The place of word i when the eleven round keys are put in the opposite order.
  function Mirror(i: nat): (j: nat)
    requires i < 44
    ensures j < 44
  {
    4 * (10 - i / 4) + i % 4
  }

  function Reversed(rk: Schedule): Schedule
  {
    seq(44, i requires 0 <= i < 44 => rk[Mirror(i)])
  }

  // ----- The round transformations -----

  function SubBytes(s: Block): Block
  {
    seq(16, i requires 0 <= i < 16 => Sbox(s[i]))
  }

  function InvSubBytes(s: Block): Block
  {
    seq(16, i requires 0 <= i < 16 => InvSbox(s[i]))
  }

  // Position i is row i % 4 of column i / 4; the position k columns to the right in the same row, cyclically.
  function Right(i: nat, k: nat): (j: nat)
    requires i < 16 && k <= 4
    ensures j < 16
  {
    if i + 4 * k < 16 then i + 4 * k else i + 4 * k - 16
  }

  // Row r moves r columns to the left.
  function ShiftRows(s: Block): Block
  {
    seq(16, i requires 0 <= i < 16 => s[Right(i, i % 4)])
  }

  function InvShiftRows(s: Block): Block
  {
    seq(16, i requires 0 <= i < 16 => s[Right(i, 4 - i % 4)])
  }

  lemma ShiftRowsLayout(s: Block)
    ensures ShiftRows(s) == [s[0], s[5], s[10], s[15], s[4], s[9], s[14], s[3],
                             s[8], s[13], s[2], s[7], s[12], s[1], s[6], s[11]]
  {
  }

  lemma InvShiftRowsLayout(s: Block)
    ensures InvShiftRows(s) == [s[0], s[13], s[10], s[7], s[4], s[1], s[14], s[11],
                                s[8], s[5], s[2], s[15], s[12], s[9], s[6], s[3]]
  {
  }

  function ColumnOf(s: Block, c: nat): Column
    requires c < 4
  {
    Column(s[4 * c], s[4 * c + 1], s[4 * c + 2], s[4 * c + 3])
  }

  function Entry(a: Column, j: nat): bv8
    requires j < 4
  {
    if j == 0 then a.b0 else if j == 1 then a.b1 else if j == 2 then a.b2 else a.b3
  }

  function MultiplyColumns(p: Column, s: Block): Block
  {
    seq(16, i requires 0 <= i < 16 => Entry(Product(p, ColumnOf(s, i / 4)), i % 4))
  }

  function KeyByte(rk: Schedule, round: nat, i: nat): bv8
    requires round <= 10 && i < 16
  {
    WordByte(rk[4 * round + i / 4], i % 4)
  }

  function AddRoundKey(s: Block, rk: Schedule, round: nat): Block
    requires round <= 10
  {
    seq(16, i requires 0 <= i < 16 => Xor(s[i], KeyByte(rk, round, i)))
  }

  // ----- The ciphers -----

  // The state after the initial key addition and the first n full rounds of encryption.
  function EncryptRounds(block: Block, rk: Schedule, n: nat): Block
    requires n <= 9
  {
    if n == 0 then AddRoundKey(block, rk, 0)
    else AddRoundKey(MultiplyColumns(MIX, ShiftRows(SubBytes(EncryptRounds(block, rk, n - 1)))), rk, n)
  }

  function Cipher(block: Block, rk: Schedule): Block
  {
    AddRoundKey(ShiftRows(SubBytes(EncryptRounds(block, rk, 9))), rk, 10)
  }

  // The state after the initial key addition and the first n full rounds of decryption.
  function DecryptRounds(block: Block, rk: Schedule, n: nat): Block
    requires n <= 9
  {
    if n == 0 then AddRoundKey(block, rk, 0)
    else MultiplyColumns(INV_MIX, AddRoundKey(InvSubBytes(InvShiftRows(DecryptRounds(block, rk, n - 1))), rk, n))
  }

  function InvCipher(block: Block, rk: Schedule): Block
  {
    AddRoundKey(InvSubBytes(InvShiftRows(DecryptRounds(block, rk, 9))), rk, 10)
  }

  function Encrypt(key: Block, block: Block): Block
  {
    Cipher(block, ExpandedKey(key))
  }

  function Decrypt(key: Block, block: Block): Block
  {
    InvCipher(block, Reversed(ExpandedKey(key)))
  }

  // ----- Each transformation is undone by its counterpart -----

  lemma SubBytesUndone(s: Block)
    ensures InvSubBytes(SubBytes(s)) == s && SubBytes(InvSubBytes(s)) == s
  {
    hide Sbox, InvSbox;
    forall i | 0 <= i < 16
      ensures InvSubBytes(SubBytes(s))[i] == s[i] && SubBytes(InvSubBytes(s))[i] == s[i]
    {
      InvSboxUndoesSbox(s[i]);
      SboxUndoesInvSbox(s[i]);
    }
  }

  lemma RightAround(i: nat, k: nat)
    requires i < 16 && k <= 4
    ensures Right(i, k) % 4 == i % 4 && Right(Right(i, k), 4 - k) == i
  {
  }

  lemma ShiftRowsUndone(s: Block)
    ensures InvShiftRows(ShiftRows(s)) == s && ShiftRows(InvShiftRows(s)) == s
  {
    hide Right;
    forall i | 0 <= i < 16
      ensures InvShiftRows(ShiftRows(s))[i] == s[i] && ShiftRows(InvShiftRows(s))[i] == s[i]
    {
      RightAround(i, i % 4);
      RightAround(i, 4 - i % 4);
    }
  }

  lemma ColumnOfProduct(p: Column, s: Block, c: nat)
    requires c < 4
    ensures ColumnOf(MultiplyColumns(p, s), c) == Product(p, ColumnOf(s, c))
  {
    hide Product;
    var r := MultiplyColumns(p, s);
    var column := Product(p, ColumnOf(s, c));
    assert r[4 * c] == Entry(column, 0);
    assert r[4 * c + 1] == Entry(column, 1);
    assert r[4 * c + 2] == Entry(column, 2);
    assert r[4 * c + 3] == Entry(column, 3);
  }

  lemma EntryOfColumn(s: Block, i: nat)
    requires i < 16
    ensures Entry(ColumnOf(s, i / 4), i % 4) == s[i]
  {
  }

  lemma ColumnsUndone(p: Column, q: Column, s: Block)
    requires Inverse(p, q)
    ensures MultiplyColumns(p, MultiplyColumns(q, s)) == s
  {
    hide Product, Inverse, ColumnOf, Entry;
    forall i | 0 <= i < 16
      ensures MultiplyColumns(p, MultiplyColumns(q, s))[i] == s[i]
    {
      ColumnOfProduct(q, s, i / 4);
      ProductUndone(p, q, ColumnOf(s, i / 4));
      EntryOfColumn(s, i);
    }
  }

  lemma XorTwice(a: bv8, k: bv8)
    ensures Xor(Xor(a, k), k) == a
  {
  }

  lemma AddRoundKeyTwice(s: Block, rk: Schedule, round: nat)
    requires round <= 10
    ensures AddRoundKey(AddRoundKey(s, rk, round), rk, round) == s
  {
    hide Xor, KeyByte;
    forall i | 0 <= i < 16
      ensures AddRoundKey(AddRoundKey(s, rk, round), rk, round)[i] == s[i]
    {
      XorTwice(s[i], KeyByte(rk, round, i));
    }
  }

  lemma ReversedKeyByte(rk: Schedule, round: nat, i: nat)
    requires round <= 10 && i < 16
    ensures KeyByte(Reversed(rk), round, i) == KeyByte(rk, 10 - round, i)
  {
    hide WordByte;
  }

  lemma AddRoundKeyUndone(s: Block, rk: Schedule, round: nat)
    requires round <= 10
    ensures AddRoundKey(AddRoundKey(s, rk, round), rk, round) == s
    ensures AddRoundKey(s, Reversed(rk), round) == AddRoundKey(s, rk, 10 - round)
  {
    hide Xor, KeyByte, Reversed;
    AddRoundKeyTwice(s, rk, round);
    forall i | 0 <= i < 16
      ensures KeyByte(Reversed(rk), round, i) == KeyByte(rk, 10 - round, i)
    {
      ReversedKeyByte(rk, round, i);
    }
  }

  // Decryption passes through the states of encryption in the opposite order.
  lemma {:induction false} DecryptRetraces(block: Block, rk: Schedule, n: nat)
    requires n <= 9
    ensures DecryptRounds(Cipher(block, rk), Reversed(rk), n) == ShiftRows(SubBytes(EncryptRounds(block, rk, 9 - n)))
  {
    hide AddRoundKey, SubBytes, InvSubBytes, ShiftRows, InvShiftRows, MultiplyColumns, Inverse, Reversed;
    var state := EncryptRounds(block, rk, 9 - n);
    if n == 0 {
      AddRoundKeyUndone(ShiftRows(SubBytes(state)), rk, 10);
      AddRoundKeyUndone(Cipher(block, rk), rk, 0);
    } else {
      DecryptRetraces(block, rk, n - 1);
      var later := EncryptRounds(block, rk, 10 - n);
      ShiftRowsUndone(SubBytes(later));
      SubBytesUndone(later);
      var mixed := MultiplyColumns(MIX, ShiftRows(SubBytes(state)));
      assert later == AddRoundKey(mixed, rk, 10 - n);
      AddRoundKeyUndone(later, rk, n);
      AddRoundKeyUndone(mixed, rk, 10 - n);
      MixInverse();
      ColumnsUndone(INV_MIX, MIX, ShiftRows(SubBytes(state)));
    }
  }

  lemma {:induction false} EncryptRetraces(block: Block, rk: Schedule, n: nat)
    requires n <= 9
    ensures EncryptRounds(InvCipher(block, Reversed(rk)), rk, n) ==
            InvSubBytes(InvShiftRows(DecryptRounds(block, Reversed(rk), 9 - n)))
  {
    hide AddRoundKey, SubBytes, InvSubBytes, ShiftRows, InvShiftRows, MultiplyColumns, Inverse, Reversed;
    var state := InvSubBytes(InvShiftRows(DecryptRounds(block, Reversed(rk), 9 - n)));
    AddRoundKeyUndone(state, rk, n);
    AddRoundKeyUndone(state, rk, 10 - n);
    if n == 0 {
      AddRoundKeyUndone(state, rk, 10);
    } else {
      EncryptRetraces(block, rk, n - 1);
      var later := DecryptRounds(block, Reversed(rk), 10 - n);
      SubBytesUndone(InvShiftRows(later));
      ShiftRowsUndone(later);
      MixInverse();
      ColumnsUndone(MIX, INV_MIX, AddRoundKey(state, Reversed(rk), 10 - n));
    }
  }

  // For every key and block the inverse cipher undoes the cipher, and the reverse.
  lemma CipherRoundTrip(key: Block, block: Block)
    ensures Decrypt(key, Encrypt(key, block)) == block
    ensures Encrypt(key, Decrypt(key, block)) == block
  {
    hide AddRoundKey, SubBytes, InvSubBytes, ShiftRows, InvShiftRows, MultiplyColumns, Reversed, ExpandedKey;
    var rk := ExpandedKey(key);
    DecryptRetraces(block, rk, 9);
    var first := EncryptRounds(block, rk, 0);
    ShiftRowsUndone(SubBytes(first));
    SubBytesUndone(first);
    AddRoundKeyUndone(first, rk, 10);
    AddRoundKeyUndone(block, rk, 0);

    EncryptRetraces(block, rk, 9);
    var last := DecryptRounds(block, Reversed(rk), 0);
    SubBytesUndone(InvShiftRows(last));
    ShiftRowsUndone(last);
    AddRoundKeyUndone(block, rk, 0);
    AddRoundKeyUndone(block, rk, 10);
  }
}
