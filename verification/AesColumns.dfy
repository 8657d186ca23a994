/** AES-128 encryption column by column, from the key expansion of the standard: a second definition of the cipher. */
module AesColumns {
  import opened AesTables
  import opened AesField
  import opened AesCipher
  import opened AesStandard

  datatype Columns = Columns(c0: Column, c1: Column, c2: Column, c3: Column)

  function ColumnsOf(s: Block): Columns
  {
    Columns(ColumnOf(s, 0), ColumnOf(s, 1), ColumnOf(s, 2), ColumnOf(s, 3))
  }

  function XorColumn(a: Column, b: Column): Column
  {
    Column(Xor(a.b0, b.b0), Xor(a.b1, b.b1), Xor(a.b2, b.b2), Xor(a.b3, b.b3))
  }

  function XorColumns(a: Columns, b: Columns): Columns
  {
    Columns(XorColumn(a.c0, b.c0), XorColumn(a.c1, b.c1), XorColumn(a.c2, b.c2), XorColumn(a.c3, b.c3))
  }

  // A substituted column of the shifted state: row r comes from the column r places to the right.
  function Gather(a: Column, b: Column, c: Column, d: Column): Column
  {
    Column(Sbox(a.b0), Sbox(b.b1), Sbox(c.b2), Sbox(d.b3))
  }

  function Gathered(s: Columns): Columns
  {
    Columns(Gather(s.c0, s.c1, s.c2, s.c3), Gather(s.c1, s.c2, s.c3, s.c0),
            Gather(s.c2, s.c3, s.c0, s.c1), Gather(s.c3, s.c0, s.c1, s.c2))
  }

  function Mixed(s: Columns): Columns
  {
    Columns(Product(MIX, s.c0), Product(MIX, s.c1), Product(MIX, s.c2), Product(MIX, s.c3))
  }

  // The round key after k, with round constant rc.
  function NextKey(k: Columns, rc: bv8): Columns
  {
    var rotated := Column(Xor(Sbox(k.c3.b1), rc), Sbox(k.c3.b2), Sbox(k.c3.b3), Sbox(k.c3.b0));
    var c0 := XorColumn(k.c0, rotated);
    var c1 := XorColumn(k.c1, c0);
    var c2 := XorColumn(k.c2, c1);
    Columns(c0, c1, c2, XorColumn(k.c3, c2))
  }

  function RoundKey(key: Columns, n: nat): Columns
  {
    if n == 0 then key else NextKey(RoundKey(key, n - 1), Power(1, n - 1))
  }

  function State(block: Columns, key: Columns, n: nat): Columns
  {
    if n == 0 then XorColumns(block, key)
    else XorColumns(Mixed(Gathered(State(block, key, n - 1))), RoundKey(key, n))
  }

  function EncryptColumns(block: Columns, key: Columns): Columns
  {
    XorColumns(Gathered(State(block, key, 9)), RoundKey(key, 10))
  }

  // ----- It is the same cipher -----

  ghost predicate IsRoundKey(key: Block, n: nat, k: Columns)
    requires n <= 10
  {
    && k.c0 == ScheduleColumn(key, 4 * n) && k.c1 == ScheduleColumn(key, 4 * n + 1)
    && k.c2 == ScheduleColumn(key, 4 * n + 2) && k.c3 == ScheduleColumn(key, 4 * n + 3)
  }

  function ScheduleColumn(key: Block, i: nat): Column
    requires i < 44
  {
    Column(ScheduleByte(key, i, 0), ScheduleByte(key, i, 1), ScheduleByte(key, i, 2), ScheduleByte(key, i, 3))
  }

  lemma PlainColumn(key: Block, i: nat)
    requires 4 <= i < 44 && i % 4 != 0
    ensures ScheduleColumn(key, i) == XorColumn(ScheduleColumn(key, i - 4), ScheduleColumn(key, i - 1))
  {
    hide Xor, Sbox, Power;
  }

  lemma FirstColumn(key: Block, i: nat)
    requires 4 <= i < 44 && i % 4 == 0
    ensures
      var (a, b) := (ScheduleColumn(key, i - 4), ScheduleColumn(key, i - 1));
      ScheduleColumn(key, i) ==
      XorColumn(a, Column(Xor(Sbox(b.b1), Power(1, i / 4 - 1)), Sbox(b.b2), Sbox(b.b3), Sbox(b.b0)))
  {
    hide Xor, Sbox, Power;
    XorRegroup(ScheduleByte(key, i - 4, 0), Sbox(ScheduleByte(key, i - 1, 1)), Power(1, i / 4 - 1));
  }

  lemma KeyColumn(key: Block, c: nat)
    requires c < 4
    ensures ScheduleColumn(key, c) == ColumnOf(key, c)
  {
  }

  lemma {:induction false} RoundKeysAgree(key: Block, n: nat)
    requires n <= 10
    ensures IsRoundKey(key, n, RoundKey(ColumnsOf(key), n))
  {
    hide Xor, Sbox, Power, XorColumn, ScheduleColumn;
    if n == 0 {
      KeyColumn(key, 0);
      KeyColumn(key, 1);
      KeyColumn(key, 2);
      KeyColumn(key, 3);
    } else {
      hide ColumnsOf;
      RoundKeysAgree(key, n - 1);
      FirstColumn(key, 4 * n);
      PlainColumn(key, 4 * n + 1);
      PlainColumn(key, 4 * n + 2);
      PlainColumn(key, 4 * n + 3);
    }
  }

  lemma KeyByteIs(key: Block, n: nat, c: nat, j: nat)
    requires n <= 10 && c < 4 && j < 4
    ensures KeyByte(ExpandedKey(key), n, 4 * c + j) == ScheduleByte(key, 4 * n + c, j)
  {
    hide WordByte, ScheduleByte, KeyWord;
    ScheduleIsStandard(key, 4 * n + c, j);
  }

  lemma KeyAdded(s: Block, key: Block, n: nat, c: nat)
    requires n <= 10 && c < 4
    ensures ColumnOf(AddRoundKey(s, ExpandedKey(key), n), c) == XorColumn(ColumnOf(s, c), ScheduleColumn(key, 4 * n + c))
  {
    hide Xor, KeyByte, ScheduleByte, ExpandedKey;
    KeyByteIs(key, n, c, 0);
    KeyByteIs(key, n, c, 1);
    KeyByteIs(key, n, c, 2);
    KeyByteIs(key, n, c, 3);
  }

  lemma KeysAdded(s: Block, key: Block, n: nat)
    requires n <= 10
    ensures ColumnsOf(AddRoundKey(s, ExpandedKey(key), n)) == XorColumns(ColumnsOf(s), RoundKey(ColumnsOf(key), n))
  {
    hide XorColumn, AddRoundKey, ScheduleColumn, RoundKey, ColumnOf, ExpandedKey;
    RoundKeysAgree(key, n);
    KeyAdded(s, key, n, 0);
    KeyAdded(s, key, n, 1);
    KeyAdded(s, key, n, 2);
    KeyAdded(s, key, n, 3);
  }

  lemma GatheredIs(s: Block)
    ensures ColumnsOf(ShiftRows(SubBytes(s))) == Gathered(ColumnsOf(s))
  {
    hide Sbox, ShiftRows;
    ShiftRowsLayout(SubBytes(s));
  }

  lemma MixedIs(s: Block)
    ensures ColumnsOf(MultiplyColumns(MIX, s)) == Mixed(ColumnsOf(s))
  {
    hide Product, MultiplyColumns, ColumnOf;
    ColumnOfProduct(MIX, s, 0);
    ColumnOfProduct(MIX, s, 1);
    ColumnOfProduct(MIX, s, 2);
    ColumnOfProduct(MIX, s, 3);
  }

  lemma {:induction false} RoundsAgree(key: Block, block: Block, n: nat)
    requires n <= 9
    ensures ColumnsOf(EncryptRounds(block, ExpandedKey(key), n)) == State(ColumnsOf(block), ColumnsOf(key), n)
  {
    hide ColumnsOf, AddRoundKey, ShiftRows, SubBytes, MultiplyColumns, ExpandedKey, RoundKey, XorColumns, Mixed, Gathered;
    if n == 0 {
      KeysAdded(block, key, 0);
      assert RoundKey(ColumnsOf(key), 0) == ColumnsOf(key) by {
        FirstRoundKey(ColumnsOf(key));
      }
    } else {
      RoundsAgree(key, block, n - 1);
      var s := EncryptRounds(block, ExpandedKey(key), n - 1);
      GatheredIs(s);
      MixedIs(ShiftRows(SubBytes(s)));
      KeysAdded(MultiplyColumns(MIX, ShiftRows(SubBytes(s))), key, n);
    }
  }

  lemma FirstRoundKey(key: Columns)
    ensures RoundKey(key, 0) == key
  {
  }

  // For every key and block, the cipher on blocks and words is the one on columns.
  lemma CiphersAgree(key: Block, block: Block)
    ensures ColumnsOf(Encrypt(key, block)) == EncryptColumns(ColumnsOf(block), ColumnsOf(key))
  {
    hide ColumnsOf, AddRoundKey, ShiftRows, SubBytes, ExpandedKey, RoundKey, XorColumns, Gathered, State, EncryptRounds;
    RoundsAgree(key, block, 9);
    var s := EncryptRounds(block, ExpandedKey(key), 9);
    GatheredIs(s);
    KeysAdded(ShiftRows(SubBytes(s)), key, 10);
  }
}
