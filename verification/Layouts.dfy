/** Every kind of packet down to its bytes. */
module Layouts {
  import opened AesCipher
  import opened Wire
  import opened Protocol
  import Client = ClientModel

  lemma TlvLayout(kind: bv8, value: Bytes)
    requires |value| <= 253
    ensures TlvBytes(Tlv(kind, value)) == [kind, Byte(|value| + 2)] + value
  {
    hide Byte;
    SmallRemainder(|value| + 2);
  }

  lemma SmallRemainder(n: nat)
    requires n < 256
    ensures n % 256 == n
  {
  }

  // High byte first.
  lemma MtuLayout(mtu: nat)
    requires mtu < 0x1_0000
    ensures TlvBytes(Tlv(3, Be16(mtu))) == [3, 4, Byte(mtu / 256), Byte(mtu % 256)]
  {
    hide Byte;
    FixedLengths();
    TlvLayout(3, Be16(mtu));
  }

  lemma Four()
    ensures Val(4) == 4 && Val(18) == 18 && Val(6) == 6 && Val(3) == 3 && Val(10) == 10
  {
  }

  // The item headers with a fixed length.
  lemma FixedLengths()
    ensures Byte(4) == 4 && Byte(18) == 18 && Byte(6) == 6 && Byte(3) == 3 && Byte(10) == 10
  {
    hide Byte, Val;
    Four();
    SameVal(Byte(4), 4);
    SameVal(Byte(18), 18);
    SameVal(Byte(6), 6);
    SameVal(Byte(3), 3);
    SameVal(Byte(10), 10);
  }

  function Signature(h: Hash, header: Bytes): Block
  {
    h(header + [0x6d, 0x77])
  }

  lemma SignedLayout(h: Hash, header: Bytes, body: Bytes)
    requires |header| == 8
    ensures Signed(h, header, body) == header + Signature(h, header) + body
  {
  }

  // MTU, user name and password block.
  function OpenFixed(g: Client.ClientConfig, h: Hash): Bytes
    requires g.mtu < 0x1_0000 && |g.username| <= 31
  {
    [3, 4, Byte(g.mtu / 256), Byte(g.mtu % 256)] + [1, Byte(|g.username| + 2)] + g.username
    + [2, 18] + PasswordBlock(h, g.username, g.password)
  }

  // The encryption flag and the pipe, if they are set.
  function OpenOptional(g: Client.ClientConfig): Bytes
    requires Client.Loaded(g)
  {
    (if g.encrypt != 0 then [8, 3, g.encrypt] else [])
    + (if g.pipeid != 0 || g.pipeidx != 0 then [10, 4] + Be16(g.pipeid + 0x8000 * g.pipeidx) else [])
  }

  // OPEN: kind 0x13, the encryption flag, six zeros, the signature, and the items.
  lemma OpenLayout(g: Client.ClientConfig, h: Hash)
    requires Client.ClientConfigOk(g)
    ensures
      var header: Bytes := [0x13, g.encrypt, 0, 0, 0, 0, 0, 0];
      Client.OpenPacket(g, h) == header + Signature(h, header) + (OpenFixed(g, h) + OpenOptional(g))
  {
    hide Byte, PasswordBlock, Be16, Serialize, OpenFixed, OpenOptional, Client.OpenItems;
    FixedItems(g, h);
    OptionalItems(g, h);
    var ts := Client.OpenItems(g, h);
    SerializeAppend(ts[..3], ts[3..]);
    assert ts == ts[..3] + ts[3..];
    SignedLayout(h, [0x13, g.encrypt, 0, 0, 0, 0, 0, 0], Serialize(ts));
    assert Header(OPEN, g.encrypt, [0, 0], [0, 0, 0, 0]) == [0x13, g.encrypt, 0, 0, 0, 0, 0, 0];
  }

  lemma FixedItems(g: Client.ClientConfig, h: Hash)
    requires Client.ClientConfigOk(g)
    ensures |Client.OpenItems(g, h)| >= 3 && Serialize(Client.OpenItems(g, h)[..3]) == OpenFixed(g, h)
  {
    hide Byte, PasswordBlock, Be16, TlvBytes, Serialize;
    FixedLengths();
    var block := PasswordBlock(h, g.username, g.password);
    assert Client.OpenItems(g, h)[..3] == [Tlv(3, Be16(g.mtu)), Tlv(1, g.username)] + [Tlv(2, block)];
    SerializeAppend([Tlv(3, Be16(g.mtu)), Tlv(1, g.username)], [Tlv(2, block)]);
    SerializePair(Tlv(3, Be16(g.mtu)), Tlv(1, g.username));
    SerializeOne(Tlv(2, block));
    MtuLayout(g.mtu);
    TlvLayout(1, g.username);
    TlvLayout(2, block);
  }

  lemma OptionalItems(g: Client.ClientConfig, h: Hash)
    requires Client.ClientConfigOk(g)
    ensures |Client.OpenItems(g, h)| >= 3 && Serialize(Client.OpenItems(g, h)[3..]) == OpenOptional(g)
  {
    hide Byte, PasswordBlock, Be16, TlvBytes, Serialize;
    FixedLengths();
    var encrypted: seq<Tlv> := if g.encrypt != 0 then [Tlv(8, [g.encrypt])] else [];
    var piped: seq<Tlv> := if g.pipeid != 0 || g.pipeidx != 0 then [Tlv(0x0a, Be16(g.pipeid + 0x8000 * g.pipeidx))] else [];
    assert Client.OpenItems(g, h)[3..] == encrypted + piped;
    SerializeAppend(encrypted, piped);
    SerializeNone();
    if encrypted != [] {
      TlvLayout(8, [g.encrypt]);
      SerializeOne(Tlv(8, [g.encrypt]));
    }
    if piped != [] {
      TlvLayout(0x0a, piped[0].value);
      SerializeOne(piped[0]);
    }
  }

  lemma SerializeOne(t: Tlv)
    ensures Serialize([t]) == TlvBytes(t)
  {
    hide TlvBytes;
    assert Serialize([t]) == TlvBytes(t) + Serialize([t][1..]);
    assert [t][1..] == [];
  }

  lemma SerializeNone()
    ensures Serialize([]) == []
  {
  }

  function ServerBytes(dns: seq<Address>): Bytes
    requires |dns| <= 2
  {
    if |dns| == 0 then []
    else
      var dns0: Bytes := dns[0];
      if |dns| == 1 then [5, 6] + dns0 else [6, 10] + (dns0 + dns[1])
  }

  // MTU, address, DNS servers, flag.
  function AckBody(mtu: nat, address: Address, dns: seq<Address>, flag: bv8): Bytes
    requires mtu < 0x1_0000 && |dns| <= 2
  {
    [3, 4, Byte(mtu / 256), Byte(mtu % 256)] + ([4, 6] + address) + ServerBytes(dns) + [8, 3, flag]
  }

  lemma DnsLayout(dns: seq<Address>)
    requires |dns| <= 2
    ensures Serialize(DnsItems(dns)) == ServerBytes(dns)
  {
    hide Byte, TlvBytes, Serialize;
    FixedLengths();
    SerializeNone();
    if |dns| > 0 {
      var item := DnsItems(dns)[0];
      assert DnsItems(dns) == [item];
      TlvLayout(item.kind, item.value);
      SerializeOne(item);
    }
  }

  lemma AckItemsLayout(mtu: nat, address: Address, dns: seq<Address>, encrypt: bool)
    requires mtu < 0x1_0000 && |dns| <= 2
    ensures Serialize(AckItems(mtu, address, dns, encrypt)) == AckBody(mtu, address, dns, if encrypt then 1 else 0)
  {
    hide Byte, Be16, TlvBytes, Serialize, DnsItems, ServerBytes;
    FixedLengths();
    var last := Tlv(8, [if encrypt then 1 else 0]);
    SerializeAppend([Tlv(3, Be16(mtu)), Tlv(4, address)] + DnsItems(dns), [last]);
    SerializeAppend([Tlv(3, Be16(mtu)), Tlv(4, address)], DnsItems(dns));
    SerializePair(Tlv(3, Be16(mtu)), Tlv(4, address));
    SerializeOne(last);
    MtuLayout(mtu);
    TlvLayout(4, address);
    TlvLayout(8, last.value);
    DnsLayout(dns);
  }

  // OPENACK: kind 0x12, the encryption flag, token and session id, the signature, and the items.
  lemma AckLayout(h: Hash, token: Token, id: SessionId, mtu: nat, address: Address, dns: seq<Address>, encrypt: bool)
    requires mtu < 0x1_0000 && |dns| <= 2
    ensures
      var flag: bv8 := if encrypt then 1 else 0;
      var header := [0x12, flag] + token + id;
      OpenAck(h, token, id, mtu, address, dns, encrypt) == header + Signature(h, header) + AckBody(mtu, address, dns, flag)
  {
    hide AckBody, Serialize, AckItems;
    AckItemsLayout(mtu, address, dns, encrypt);
    SignedLayout(h, [0x12, if encrypt then 1 else 0] + token + id, Serialize(AckItems(mtu, address, dns, encrypt)));
  }

  // DATA and DATA_ENC of both ends, CLOSE, echo request and answer, and refusal.
  lemma OtherLayouts(g: Client.ClientConfig, h: Hash, v: Client.View, payload: Bytes, token: Token, id: SessionId, key: XorKey, usec: nat)
    requires payload != [] && v.state == Client.Established
    ensures DataPacket(token, id, payload, false, key) == [0x14, 0] + token + id + payload
    ensures DataPacket(token, id, payload, true, key) == [0x18, 1] + token + id + XorData(key, payload)
    ensures Client.OnTunRead(g, h, v, payload) ==
            [Client.ToServer(
               if v.terms.encrypt == 0 then [0x14, 0] + v.token + v.id + payload
               else [0x18, v.terms.encrypt] + v.token + v.id + XorData(DerivedKey(h, g.username, g.password), payload))]
    ensures Client.ClosePacket(h, v) == [0x17, 0] + v.token + v.id + Signature(h, [0x17, 0] + v.token + v.id)
    ensures EchoResp(h, token, id, payload) == [0x16, 0] + token + id + Signature(h, [0x16, 0] + token + id) + payload
    ensures OpenReject(h) == [0x11, 0, 0, 0, 0, 0, 0, 0] + Signature(h, [0x11, 0, 0, 0, 0, 0, 0, 0])
    ensures Client.EchoPacket(h, v, usec) ==
            [0x15, 0] + v.token + v.id + Signature(h, [0x15, 0] + v.token + v.id)
            + LittleEndian(usec, 8) + LittleEndian(v.curDelay, 4) + LittleEndian(v.minDelay, 4) + LittleEndian(v.maxDelay, 4)
            + [0, 0, 0, 0, 0x54, 0x44, 0x52, 0, 0, 0, 0, 0, 0, 0, 0, 0]
    ensures |Client.EchoPacket(h, v, usec)| == 60
  {
    hide XorData, DerivedKey, LittleEndian;
    SignedLayout(h, [0x17, 0] + v.token + v.id, []);
    SignedLayout(h, [0x16, 0] + token + id, payload);
    SignedLayout(h, [0x11, 0, 0, 0, 0, 0, 0, 0], []);
    assert Header(OPENREJ, 0, [0, 0], [0, 0, 0, 0]) == [0x11, 0, 0, 0, 0, 0, 0, 0];
    EchoLayout(h, v, usec);
  }

  lemma EchoLayout(h: Hash, v: Client.View, usec: nat)
    ensures Client.EchoPacket(h, v, usec) ==
            [0x15, 0] + v.token + v.id + Signature(h, [0x15, 0] + v.token + v.id)
            + LittleEndian(usec, 8) + LittleEndian(v.curDelay, 4) + LittleEndian(v.minDelay, 4) + LittleEndian(v.maxDelay, 4)
            + [0, 0, 0, 0, 0x54, 0x44, 0x52, 0, 0, 0, 0, 0, 0, 0, 0, 0]
  {
    hide LittleEndian;
    var tail: Bytes := [0, 0, 0, 0] + [0x54, 0x44, 0x52, 0] + [0, 0, 0, 0] + [0, 0, 0, 0];
    assert tail == [0, 0, 0, 0, 0x54, 0x44, 0x52, 0, 0, 0, 0, 0, 0, 0, 0, 0];
  }
}
