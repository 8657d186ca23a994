/** The server's packet building and parsing (server/protocol.go). */
module Protocol {
  import opened AesCipher
  import opened Wire
  import opened Buffers

  const DEFAULT_MTU := 1400
  const MIN_MTU := 46
  const MAX_MTU := 1600

  // ----- OPEN -----

  datatype OpenRequest = OpenRequest(username: Bytes, passwordBlock: Block, mtu: nat, encrypt: bool)

  // What has been read of an OPEN so far; the password block is None until its item is seen.
  datatype OpenFields = OpenFields(username: Bytes, passwordBlock: Option<Block>, mtu: nat, encrypt: bool)

  // One item of an OPEN; None is an error.
  function OpenItem(f: OpenFields, t: Tlv): Option<OpenFields>
  {
    if t.kind == 1 then Some(f.(username := t.value))
    else if t.kind == 2 then
      if |t.value| != 16 then None else Some(f.(passwordBlock := Some(t.value)))
    else if t.kind == 3 then
      if |t.value| < 2 then None else Some(f.(mtu := FromBe16(t.value[0], t.value[1])))
    else if t.kind == 8 && |t.value| > 0 then Some(f.(encrypt := t.value[0] != 0))
    else Some(f)
  }

  function OpenItems(f: OpenFields, ts: seq<Tlv>): Option<OpenFields>
    decreases |ts|
  {
    if ts == [] then Some(f)
    else
      match OpenItem(f, ts[0])
      case None => None
      case Some(f') => OpenItems(f', ts[1..])
  }

  function CheckedRequest(f: OpenFields): Option<OpenRequest>
  {
    if f.username == [] || f.passwordBlock.None? || f.mtu < MIN_MTU || f.mtu > MAX_MTU then None
    else Some(OpenRequest(f.username, f.passwordBlock.value, f.mtu, f.encrypt))
  }

  function ParseOpen(h: Hash, packet: Bytes): Option<OpenRequest>
  {
    if |packet| < SIGNED_HEADER || packet[0] != OPEN || !Verified(h, packet) then None
    else
      match ParseTlvs(packet[SIGNED_HEADER..])
      case None => None
      case Some(ts) =>
        match OpenItems(OpenFields([], None, DEFAULT_MTU, packet[1] != 0), ts)
        case None => None
        case Some(f) => CheckedRequest(f)
  }

  method ParseTLVs(input: Bytes) returns (r: Option<seq<Tlv>>)
    ensures r == ParseTlvs(input)
  {
    var data := input;
    var tlvs: seq<Tlv> := [];
    assert forall ts: seq<Tlv> :: tlvs + ts == ts;
    while |data| > 0
      invariant ParseTlvs(input) == match ParseTlvs(data) case None => None case Some(ts) => Some(tlvs + ts)
      decreases |data|
    {
      if |data| < 2 {
        return None;
      }
      var tlvLength := Val(data[1]);
      if tlvLength < 2 || tlvLength > |data| {
        return None;
      }
      ghost var read := tlvs;
      tlvs := tlvs + [Tlv(data[0], data[2..tlvLength])];
      assert forall ts: seq<Tlv> :: read + ([tlvs[|read|]] + ts) == tlvs + ts;
      data := data[tlvLength..];
    }
    assert tlvs + [] == tlvs;
    return Some(tlvs);
  }

  method ParseOpenPacket(h: Hash, packet: Bytes) returns (r: Option<OpenRequest>)
    ensures r == ParseOpen(h, packet)
  {
    if |packet| < SIGNED_HEADER || packet[0] != OPEN || !Verified(h, packet) {
      return None;
    }
    var username: Bytes, mtu: nat, encrypt := [], DEFAULT_MTU, packet[1] != 0;
    var passwordBlock: Option<Block> := None;
    var tlvs := ParseTLVs(packet[SIGNED_HEADER..]);
    if tlvs.None? {
      return None;
    }
    ghost var start := OpenFields([], None, DEFAULT_MTU, packet[1] != 0);
    for i := 0 to |tlvs.value|
      invariant OpenItems(start, tlvs.value) == OpenItems(OpenFields(username, passwordBlock, mtu, encrypt), tlvs.value[i..])
    {
      var item := tlvs.value[i];
      assert tlvs.value[i..][0] == item && tlvs.value[i..][1..] == tlvs.value[i + 1..];
      if item.kind == 1 {
        username := item.value;
      } else if item.kind == 2 {
        if |item.value| != 16 {
          return None;
        }
        passwordBlock := Some(item.value);
      } else if item.kind == 3 {
        if |item.value| < 2 {
          return None;
        }
        mtu := FromBe16(item.value[0], item.value[1]);
      } else if item.kind == 8 {
        if |item.value| > 0 {
          encrypt := item.value[0] != 0;
        }
      }
    }
    if username == [] || passwordBlock.None? || mtu < MIN_MTU || mtu > MAX_MTU {
      return None;
    }
    return Some(OpenRequest(username, passwordBlock.value, mtu, encrypt));
  }

  predicate PasswordMatches(h: Hash, username: Bytes, password: Bytes, block: Block)
  {
    block == PasswordBlock(h, username, password)
  }

  // ----- Building packets -----

  function DnsItems(dns: seq<Address>): (ts: seq<Tlv>)
    ensures Fits(ts)
  {
    if |dns| == 0 then []
    else
      var dns0: Bytes := dns[0];
      if |dns| == 1 then [Tlv(5, dns0)] else [Tlv(6, dns0 + dns[1])]
  }

  function AckItems(mtu: nat, address: Address, dns: seq<Address>, encrypt: bool): (ts: seq<Tlv>)
    requires mtu < 0x1_0000
    ensures Fits(ts)
  {
    [Tlv(3, Be16(mtu)), Tlv(4, address)] + DnsItems(dns) + [Tlv(8, [if encrypt then 1 else 0])]
  }

  function OpenAck(h: Hash, token: Token, id: SessionId, mtu: nat, address: Address, dns: seq<Address>, encrypt: bool): Bytes
    requires mtu < 0x1_0000
  {
    Signed(h, Header(OPENACK, if encrypt then 1 else 0, token, id), Serialize(AckItems(mtu, address, dns, encrypt)))
  }

  function OpenReject(h: Hash): Bytes
  {
    Signed(h, Header(OPENREJ, 0, [0, 0], [0, 0, 0, 0]), [])
  }

  function EchoResp(h: Hash, token: Token, id: SessionId, payload: Bytes): Bytes
  {
    Signed(h, Header(ECHORESP, 0, token, id), payload)
  }

  method SignPacket(h: Hash, packet: array<bv8>)
    requires packet.Length >= SIGNED_HEADER
    modifies packet
    ensures packet[..] == Signed(h, old(packet[..8]), old(packet[24..]))
  {
    var digest := h(packet[..HEADER] + MAGIC);
    forall i | 0 <= i < 16 {
      packet[HEADER + i] := digest[i];
    }
    ghost var want := Signed(h, old(packet[..8]), old(packet[24..]));
    assert want[8..24] == digest;
    assert packet[..8] == want[..8] && packet[8..24] == want[8..24] && packet[24..] == want[24..];
    assert packet[..] == packet[..8] + packet[8..24] + packet[24..];
    assert want == want[..8] + want[8..24] + want[24..];
  }

  // The start of every signed packet: header fields and signature, with room behind them.
  method StartSigned(h: Hash, kind: bv8, flag: bv8, token: Token, id: SessionId, room: nat) returns (packet: array<bv8>)
    ensures fresh(packet) && packet[..] == Signed(h, Header(kind, flag, token, id), seq(room, _ => 0))
  {
    packet := new bv8[SIGNED_HEADER + room](_ => 0);
    Copy(Header(kind, flag, token, id), packet, 0);
    assert packet[..8] == Header(kind, flag, token, id) && packet[24..] == seq(room, _ => 0);
    SignPacket(h, packet);
  }

  method BuildOpenReject(h: Hash) returns (packet: array<bv8>)
    ensures fresh(packet) && packet[..] == OpenReject(h)
  {
    packet := StartSigned(h, OPENREJ, 0, [0, 0], [0, 0, 0, 0], 0);
    assert seq(0, _ => 0 as bv8) == [];
  }

  method BuildEchoResp(h: Hash, token: Token, id: SessionId, payload: Bytes) returns (packet: array<bv8>)
    ensures fresh(packet) && packet[..] == EchoResp(h, token, id, payload)
  {
    packet := StartSigned(h, ECHORESP, 0, token, id, |payload|);
    SignedBody(h, Header(ECHORESP, 0, token, id), seq(|payload|, _ => 0));
    SignedBody(h, Header(ECHORESP, 0, token, id), payload);
    Copy(payload, packet, SIGNED_HEADER);
    assert packet[..SIGNED_HEADER] == Signed(h, Header(ECHORESP, 0, token, id), []);
    assert packet[..] == packet[..SIGNED_HEADER] + payload;
  }

  method BuildDataPacket(token: Token, id: SessionId, payload: Bytes, encrypt: bool, key: XorKey) returns (packet: array<bv8>)
    ensures fresh(packet) && packet[..] == DataPacket(token, id, payload, encrypt, key)
  {
    packet := new bv8[HEADER + |payload|];
    var kind: bv8, flag: bv8 := if encrypt then DATA_ENC else DATA, if encrypt then 1 else 0;
    Copy(Header(kind, flag, token, id), packet, 0);
    Copy(payload, packet, HEADER);
    assert packet[..HEADER] == Header(kind, flag, token, id) && packet[HEADER..] == payload;
    assert packet[HEADER..packet.Length] == payload;
    if encrypt {
      XorRange(key, packet, HEADER, packet.Length);
      assert packet[HEADER..] == packet[HEADER..packet.Length];
    }
    assert packet[..] == packet[..HEADER] + packet[HEADER..];
  }

  // Appends one item to the packet.
  method AppendTLV(packet: Bytes, kind: bv8, value: Bytes) returns (r: Bytes)
    ensures r == packet + TlvBytes(Tlv(kind, value))
  {
    r := packet + [kind, Byte((|value| + 2) % 256)];
    r := r + value;
  }

  method BuildOpenAck(h: Hash, token: Token, id: SessionId, mtu: nat, address: Address, dns: seq<Address>, encrypt: bool)
    returns (packet: Bytes)
    requires mtu < 0x1_0000
    ensures packet == OpenAck(h, token, id, mtu, address, dns, encrypt)
  {
    hide TlvBytes, Be16, Serialize, Signed, Header;
    var flag: bv8 := if encrypt then 1 else 0;
    var start := StartSigned(h, OPENACK, flag, token, id, 0);
    packet := start[..];
    assert seq(0, _ => 0 as bv8) == [];
    ghost var head := packet;
    packet := AppendTLV(packet, 3, Be16(mtu));
    packet := AppendTLV(packet, 4, address);
    SerializePair(Tlv(3, Be16(mtu)), Tlv(4, address));
    ghost var ts := [Tlv(3, Be16(mtu)), Tlv(4, address)];
    assert packet == head + Serialize(ts);
    if |dns| == 1 {
      AppendedItem(head, ts, Tlv(5, dns[0]));
      packet := AppendTLV(packet, 5, dns[0]);
      ts := ts + [Tlv(5, dns[0])];
    } else if |dns| >= 2 {
      var dns0: Bytes := dns[0];
      var dnsPair := dns0 + dns[1];
      AppendedItem(head, ts, Tlv(6, dnsPair));
      packet := AppendTLV(packet, 6, dnsPair);
      ts := ts + [Tlv(6, dnsPair)];
    }
    AppendedItem(head, ts, Tlv(8, [flag]));
    packet := AppendTLV(packet, 8, [flag]);
    assert ts + [Tlv(8, [flag])] == AckItems(mtu, address, dns, encrypt);
    SignedBody(h, Header(OPENACK, flag, token, id), Serialize(AckItems(mtu, address, dns, encrypt)));
  }

  lemma SignedBody(h: Hash, header: Bytes, body: Bytes)
    requires |header| == HEADER
    ensures Signed(h, header, body) == Signed(h, header, []) + body
  {
  }

  lemma SerializeAppend(ts: seq<Tlv>, us: seq<Tlv>)
    ensures Serialize(ts + us) == Serialize(ts) + Serialize(us)
  {
    if ts == [] {
      assert ts + us == us;
    } else {
      assert (ts + us)[1..] == ts[1..] + us;
    }
  }

  lemma AppendedItem(start: Bytes, ts: seq<Tlv>, t: Tlv)
    ensures start + Serialize(ts + [t]) == start + Serialize(ts) + TlvBytes(t)
  {
    hide TlvBytes;
    SerializeAppend(ts, [t]);
    assert Serialize([t]) == TlvBytes(t) + Serialize([]);
  }

  lemma SerializePair(t: Tlv, u: Tlv)
    ensures Serialize([t, u]) == TlvBytes(t) + TlvBytes(u)
  {
    assert [t, u][1..] == [u] && [u][1..] == [];
    assert Serialize([u]) == TlvBytes(u);
  }
}
