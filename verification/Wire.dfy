/** The packet formats both ends of the tunnel build and parse. */
module Wire {
  import opened AesCipher

  datatype Option<+T> = None | Some(value: T)

  type Bytes = seq<bv8>
  type Token = s: Bytes | |s| == 2 witness [0, 0]
  type SessionId = s: Bytes | |s| == 4 witness [0, 0, 0, 0]
  type Address = s: Bytes | |s| == 4 witness [0, 0, 0, 0]
  type XorKey = s: Bytes | |s| == 8 witness [0, 0, 0, 0, 0, 0, 0, 0]

  // The digest function both ends share; the proofs hold for every one.
  type Hash = Bytes -> Block

  const OPENREJ: bv8 := 0x11
  const OPENACK: bv8 := 0x12
  const OPEN: bv8 := 0x13
  const DATA: bv8 := 0x14
  const ECHOREQ: bv8 := 0x15
  const ECHORESP: bv8 := 0x16
  const CLOSE: bv8 := 0x17
  const DATA_ENC: bv8 := 0x18
  const IPFRAG: bv8 := 0x21
  const IPFRAG_SR: bv8 := 0x22
  const SEGRT: bv8 := 0x27

  const HEADER := 8
  const SIGNED_HEADER := 24
  const MAGIC: Bytes := [0x6d, 0x77]
  const NO_ADDRESS: Address := [0, 0, 0, 0]
  const TWO32 := 0x1_0000_0000

  // ----- Numbers on the wire -----

  function Val(b: bv8): (n: nat)
    ensures n < 256
  {
    b as nat
  }

  // Counted up from zero, so that no proof has to look into a conversion.
  function Byte(n: nat): (b: bv8)
    requires n < 256
    ensures Val(b) == n
  {
    if n == 0 then 0
    else
      var b := Byte(n - 1);
      assert b as nat == n - 1;
      b + 1
  }

  lemma SameVal(a: bv8, b: bv8)
    requires Val(a) == Val(b)
    ensures a == b
  {
  }

  lemma ByteOfVal(b: bv8)
    ensures Byte(Val(b)) == b
  {
    hide Byte;
    SameVal(Byte(Val(b)), b);
  }

  function Be16(n: nat): (s: Bytes)
    requires n < 0x1_0000
    ensures |s| == 2 && FromBe16(s[0], s[1]) == n
  {
    [Byte(n / 256), Byte(n % 256)]
  }

  function FromBe16(hi: bv8, lo: bv8): (n: nat)
    ensures n < 0x1_0000
  {
    256 * Val(hi) + Val(lo)
  }

  function LittleEndian(n: nat, width: nat): (s: Bytes)
    ensures |s| == width
  {
    if width == 0 then [] else [Byte(n % 256)] + LittleEndian(n / 256, width - 1)
  }

  function FromLittleEndian(s: Bytes): nat
  {
    if s == [] then 0 else Val(s[0]) + 256 * FromLittleEndian(s[1..])
  }

  function Pow256(width: nat): nat
  {
    if width == 0 then 1 else 256 * Pow256(width - 1)
  }

  lemma {:induction false} LittleEndianRoundTrip(n: nat, width: nat)
    requires n < Pow256(width)
    ensures FromLittleEndian(LittleEndian(n, width)) == n
  {
    if width > 0 {
      LittleEndianRoundTrip(n / 256, width - 1);
      assert LittleEndian(n, width)[1..] == LittleEndian(n / 256, width - 1);
    }
  }

  // The lowest byte comes first.
  lemma FourBytes(a: bv8, b: bv8, c: bv8, d: bv8)
    ensures FromLittleEndian([a, b, c, d]) == Val(a) + 0x100 * Val(b) + 0x1_0000 * Val(c) + 0x100_0000 * Val(d)
  {
    assert [a, b, c, d][1..] == [b, c, d] && [b, c, d][1..] == [c, d] && [c, d][1..] == [d] && [d][1..] == [];
    assert FromLittleEndian([d]) == Val(d);
    assert FromLittleEndian([c, d]) == Val(c) + 0x100 * Val(d);
  }

  // ----- XOR encryption of payloads -----

  function XorByte(a: bv8, b: bv8): bv8 { a ^ b }

  function XorData(key: XorKey, data: Bytes): (r: Bytes)
    ensures |r| == |data|
  {
    seq(|data|, i requires 0 <= i < |data| => XorByte(data[i], key[i % 8]))
  }

  lemma XorByteTwice(a: bv8, k: bv8)
    ensures XorByte(XorByte(a, k), k) == a
  {
  }

  lemma XorDataTwice(key: XorKey, data: Bytes)
    ensures XorData(key, XorData(key, data)) == data
  {
    hide XorByte;
    forall i | 0 <= i < |data|
      ensures XorData(key, XorData(key, data))[i] == data[i]
    {
      XorByteTwice(data[i], key[i % 8]);
    }
  }

  // What the encryption adds to each byte is the key, over and over; the encryption of zeros shows it.
  lemma XorDataAddsTheKey(key: XorKey, data: Bytes)
    ensures forall i | 0 <= i < |data| :: XorData(key, data)[i] ^ data[i] == key[i % 8]
  {
    hide XorByte;
    forall i | 0 <= i < |data|
      ensures XorData(key, data)[i] ^ data[i] == key[i % 8]
    {
      XorByteAdds(data[i], key[i % 8]);
    }
  }

  lemma XorByteAdds(a: bv8, k: bv8)
    ensures XorByte(a, k) ^ a == k
  {
  }

  // ----- Headers and signatures -----

  function Header(kind: bv8, flag: bv8, token: Token, id: SessionId): (s: Bytes)
    ensures |s| == HEADER && s[0] == kind && s[1] == flag && s[2..4] == token && s[4..8] == id
  {
    [kind, flag] + token + id
  }

  function Signed(h: Hash, header: Bytes, body: Bytes): (s: Bytes)
    requires |header| == HEADER
    ensures |s| == SIGNED_HEADER + |body| && s[..8] == header && s[24..] == body && Verified(h, s)
  {
    var s := header + h(header + MAGIC) + body;
    assert s[..8] == header && s[8..24] == h(header + MAGIC) && s[24..] == body;
    s
  }

  predicate Verified(h: Hash, packet: Bytes)
  {
    |packet| >= SIGNED_HEADER && packet[8..24] == h(packet[..8] + MAGIC)
  }

  // Of all signatures exactly one verifies: the digest of the header and the two bytes "mw".
  lemma OneSignature(h: Hash, header: Bytes, signature: Block, body: Bytes)
    requires |header| == 8
    ensures Verified(h, header + signature + body) <==> signature == h(header + [0x6d, 0x77])
  {
    var s := header + signature + body;
    assert s[..8] == header && s[8..24] == signature;
  }

  // A DATA or DATA_ENC packet, as the server builds it.
  function DataPacket(token: Token, id: SessionId, payload: Bytes, encrypt: bool, key: XorKey): (s: Bytes)
    ensures |s| == HEADER + |payload|
  {
    if encrypt then Header(DATA_ENC, 1, token, id) + XorData(key, payload)
    else Header(DATA, 0, token, id) + payload
  }

  // ----- Credentials -----

  function Padded(password: Bytes): Block
  {
    if |password| >= 16 then password[..16] else password + seq(16 - |password|, _ => 0)
  }

  // Byte k of a text that ends in zeros.
  function ByteAt(text: Bytes, k: nat): bv8
  {
    if k < |text| then text[k] else 0
  }

  // The first sixteen bytes of two texts, with zeros for missing ones, are the same.
  ghost predicate SameStart(p: Bytes, q: Bytes)
  {
    forall k | 0 <= k < 16 :: ByteAt(p, k) == ByteAt(q, k)
  }

  lemma PaddedBytes(p: Bytes)
    ensures forall k | 0 <= k < 16 :: Padded(p)[k] == ByteAt(p, k)
  {
  }

  lemma SamePadding(p: Bytes, q: Bytes)
    ensures Padded(p) == Padded(q) <==> SameStart(p, q)
  {
    hide Padded;
    PaddedBytes(p);
    PaddedBytes(q);
    if SameStart(p, q) {
      assert forall k | 0 <= k < 16 :: ByteAt(p, k) == ByteAt(q, k);
    } else {
      var k :| 0 <= k < 16 && ByteAt(p, k) != ByteAt(q, k);
      assert Padded(p)[k] != Padded(q)[k];
    }
  }

  // Texts of at most sixteen bytes without zeros start the same only if they are the same.
  lemma ShortTextsDiffer(p: Bytes, q: Bytes)
    requires |p| <= 16 && |q| <= 16 && 0 !in p && 0 !in q
    ensures SameStart(p, q) <==> p == q
  {
    if |p| < |q| {
      assert ByteAt(p, |p|) != ByteAt(q, |p|);
    } else if |q| < |p| {
      assert ByteAt(p, |q|) != ByteAt(q, |q|);
    } else if p != q {
      var k :| 0 <= k < |p| && p[k] != q[k];
      assert ByteAt(p, k) != ByteAt(q, k);
    }
  }

  function PasswordBlock(h: Hash, username: Bytes, password: Bytes): Block
  {
    Encrypt(h(MAGIC + username), Padded(password))
  }

  function DerivedKey(h: Hash, username: Bytes, password: Bytes): XorKey
  {
    h(username + password)[..8]
  }

  // Who knows the user name can read the first sixteen bytes of the password out of its block.
  lemma PasswordRecovered(h: Hash, username: Bytes, password: Bytes)
    ensures forall k | 0 <= k < 16 ::
              Decrypt(h([0x6d, 0x77] + username), PasswordBlock(h, username, password))[k] == ByteAt(password, k)
  {
    hide Encrypt, Decrypt, Padded;
    CipherRoundTrip(h(MAGIC + username), Padded(password));
    PaddedBytes(password);
  }

  // The XOR key is the first half of the digest of name and password.
  lemma DerivedKeyIsHalf(h: Hash, username: Bytes, password: Bytes)
    ensures DerivedKey(h, username, password) <= h(username + password)
  {
  }

  // ----- TLV lists -----

  datatype Tlv = Tlv(kind: bv8, value: Bytes)

  // The length byte counts the two header bytes and is cut to eight bits.
  function TlvBytes(t: Tlv): (s: Bytes)
    ensures |s| == |t.value| + 2
  {
    [t.kind, Byte((|t.value| + 2) % 256)] + t.value
  }

  function Serialize(ts: seq<Tlv>): Bytes
  {
    if ts == [] then [] else TlvBytes(ts[0]) + Serialize(ts[1..])
  }

  ghost predicate Fits(ts: seq<Tlv>)
  {
    forall t | t in ts :: |t.value| <= 253
  }

  // The length of the item at the front of data, if there is a well-formed one.
  function FrontLength(data: Bytes): (r: Option<nat>)
    ensures r.Some? ==> 2 <= r.value <= |data| && r.value < 256
  {
    if |data| < 2 then None
    else
      var n := Val(data[1]);
      if n < 2 || n > |data| then None else Some(n)
  }

  function FrontItem(data: Bytes): Tlv
    requires FrontLength(data).Some?
  {
    Tlv(data[0], data[2..FrontLength(data).value])
  }

  // What the server accepts: the whole input has to be a list of items.
  function ParseTlvs(data: Bytes): Option<seq<Tlv>>
  {
    if |data| == 0 then Some([])
    else
      match FrontLength(data)
      case None => None
      case Some(n) =>
        match ParseTlvs(data[n..])
        case None => None
        case Some(ts) => Some([FrontItem(data)] + ts)
  }

  // What the client reads: items as long as they are well formed.
  function ItemPrefix(data: Bytes): seq<Tlv>
  {
    match FrontLength(data)
    case None => []
    case Some(n) => [FrontItem(data)] + ItemPrefix(data[n..])
  }

  lemma FrontOfSerialized(t: Tlv, rest: Bytes)
    requires |t.value| <= 253
    ensures FrontLength(TlvBytes(t) + rest) == Some(|t.value| + 2)
    ensures FrontItem(TlvBytes(t) + rest) == t && (TlvBytes(t) + rest)[|t.value| + 2..] == rest
  {
    var data := TlvBytes(t) + rest;
    assert data[2..|t.value| + 2] == t.value;
  }

  lemma FrontRebuilt(data: Bytes)
    requires FrontLength(data).Some?
    ensures |FrontItem(data).value| <= 253
    ensures TlvBytes(FrontItem(data)) + data[FrontLength(data).value..] == data
  {
    hide Byte, Val;
    ByteOfVal(data[1]);
  }

  // Every input the server accepts is exactly the serialisation of what it read.
  lemma {:induction false} SerializedOfParse(data: Bytes)
    requires ParseTlvs(data).Some?
    ensures Fits(ParseTlvs(data).value) && Serialize(ParseTlvs(data).value) == data
    ensures ItemPrefix(data) == ParseTlvs(data).value
  {
    if |data| > 0 {
      FrontRebuilt(data);
      var n := FrontLength(data).value;
      SerializedOfParse(data[n..]);
      var ts := ParseTlvs(data).value;
      assert ts[1..] == ParseTlvs(data[n..]).value;
    }
  }

  // Parsing undoes serialising exactly for the lists whose values fit the length byte.
  lemma {:induction false} ParseOfSerialized(ts: seq<Tlv>)
    ensures ParseTlvs(Serialize(ts)) == Some(ts) <==> Fits(ts)
  {
    if Fits(ts) {
      if ts != [] {
        FrontOfSerialized(ts[0], Serialize(ts[1..]));
        ParseOfSerialized(ts[1..]);
        assert ts == [ts[0]] + ts[1..];
      }
    } else if ParseTlvs(Serialize(ts)) == Some(ts) {
      SerializedOfParse(Serialize(ts));
    }
  }

  // The server accepts an input exactly when some list serialises to it.
  lemma AcceptedInputs(data: Bytes)
    ensures ParseTlvs(data).Some? <==> exists ts :: Fits(ts) && Serialize(ts) == data
  {
    if ParseTlvs(data).Some? {
      SerializedOfParse(data);
    }
    forall ts | Fits(ts) && Serialize(ts) == data
      ensures ParseTlvs(data).Some?
    {
      ParseOfSerialized(ts);
    }
  }

  // The client reads the longest list of items the input starts with: what follows them starts with no item.
  lemma {:induction false} PrefixIsLongest(data: Bytes)
    ensures
      var ts := ItemPrefix(data);
      && Fits(ts)
      && Serialize(ts) <= data
      && FrontLength(data[|Serialize(ts)|..]).None?
  {
    match FrontLength(data)
    case None =>
    case Some(n) =>
      FrontRebuilt(data);
      PrefixIsLongest(data[n..]);
      var ts := ItemPrefix(data);
      assert ts[1..] == ItemPrefix(data[n..]);
      assert data == TlvBytes(ts[0]) + data[n..];
      assert data[|Serialize(ts)|..] == data[n..][|Serialize(ts[1..])|..];
  }
}
