/** IPv4 packets as the server reads them (server/ip.go; RFC 791, section 3.1). */
module Ipv4 {
  import opened Wire

  datatype Ipv4Packet = Ipv4Packet(packet: Bytes, source: Address, destination: Address)

  function ParseIpv4(payload: Bytes): (r: Option<Ipv4Packet>)
  {
    if |payload| < 20 || payload[0] >> 4 != 4 then None
    else
      var ihl := Val(payload[0] & 0x0f) * 4;
      if ihl < 20 || |payload| < ihl then None
      else
        var totalLength := FromBe16(payload[2], payload[3]);
        if totalLength < ihl || totalLength > |payload| then None
        else Some(Ipv4Packet(payload[..totalLength], payload[12..16], payload[16..20]))
  }

  // ----- What the parser accepts -----

  // The fields of a packet: the eight bytes between the length and the addresses are of no concern to the server.
  datatype Fields = Fields(service: bv8, middle: Bytes, source: Address, destination: Address, options: Bytes, body: Bytes)

  ghost predicate FieldsOk(f: Fields)
  {
    |f.middle| == 8 && |f.options| % 4 == 0 && |f.options| <= 40 && 20 + |f.options| + |f.body| < 0x1_0000
  }

  // Version 4 and a header length in words, and so on (RFC 791, section 3.1).
  function PacketOf(f: Fields): (s: Bytes)
    requires |f.middle| == 8 && |f.options| % 4 == 0 && |f.options| <= 40 && 20 + |f.options| + |f.body| < 0x1_0000
    ensures |s| == 20 + |f.options| + |f.body|
  {
    [Byte(0x40 + 5 + |f.options| / 4), f.service] + Be16(20 + |f.options| + |f.body|) + f.middle
    + f.source + f.destination + f.options + f.body
  }

  // The first byte of a header of n words.
  lemma FirstByte(b: bv8, n: nat)
    requires n < 16
    ensures b == Byte(0x40 + n) <==> b >> 4 == 4 && Val(b & 0x0f) == n
  {
    hide Byte;
    Nibbles(b);
    if b >> 4 == 4 && Val(b & 0x0f) == n {
      SameVal(b, Byte(0x40 + n));
    }
    if b == Byte(0x40 + n) {
      SameVal(b >> 4, 4);
    }
  }

  lemma Nibbles(b: bv8)
    ensures Val(b) == 16 * Val(b >> 4) + Val(b & 0x0f) && Val(b >> 4) < 16 && Val(b & 0x0f) < 16 && Val(4) == 4
  {
    assert b == ((b >> 4) << 4) | (b & 0x0f);
  }

  // A packet built from its fields is parsed to exactly its addresses and itself, whatever follows it in the buffer.
  lemma ParseOfPacket(f: Fields, rest: Bytes)
    requires FieldsOk(f)
    ensures ParseIpv4(PacketOf(f) + rest) == Some(Ipv4Packet(PacketOf(f), f.source, f.destination))
  {
    hide Byte, Be16, FromBe16, Val;
    var (s, payload) := (PacketOf(f), PacketOf(f) + rest);
    FirstByte(payload[0], 5 + |f.options| / 4);
    assert payload[2..4] == Be16(|s|);
    assert payload[12..16] == f.source && payload[16..20] == f.destination && payload[..|s|] == s;
  }

  // The server's conditions: length, version, header length and total length.
  predicate WellFormed(payload: Bytes)
  {
    |payload| >= 20 && payload[0] >> 4 == 4 && 20 <= 4 * Val(payload[0] & 0x0f) <= FromBe16(payload[2], payload[3]) <= |payload|
  }

  // Everything else is refused, and what is accepted starts with a packet that has fields.
  lemma ParsesExactly(payload: Bytes)
    ensures ParseIpv4(payload) ==
            if WellFormed(payload)
            then Some(Ipv4Packet(payload[..FromBe16(payload[2], payload[3])], payload[12..16], payload[16..20]))
            else None
    ensures WellFormed(payload) <==> exists f, rest :: FieldsOk(f) && payload == PacketOf(f) + rest
  {
    hide Byte, Be16;
    if WellFormed(payload) {
      HasFields(payload);
    }
    forall f, rest | FieldsOk(f) && payload == PacketOf(f) + rest
      ensures WellFormed(payload)
    {
      ParseOfPacket(f, rest);
    }
  }

  lemma HasFields(payload: Bytes)
    requires WellFormed(payload)
    ensures exists f, rest :: FieldsOk(f) && payload == PacketOf(f) + rest
  {
    hide Byte, Val, FromBe16, Be16;
    var (words, total) := (Val(payload[0] & 0x0f), FromBe16(payload[2], payload[3]));
    Nibbles(payload[0]);
    FirstByte(payload[0], words);
    var f := Fields(payload[1], payload[4..12], payload[12..16], payload[16..20], payload[20..4 * words], payload[4 * words..total]);
    Be16Of(payload[2], payload[3]);
    assert 5 + |f.options| / 4 == words;
    PacketCut(payload, f, words, total);
  }

  lemma PacketCut(payload: Bytes, f: Fields, words: nat, total: nat)
    requires 20 <= 4 * words <= total <= |payload| && total < 0x1_0000 && words < 16
    requires f == Fields(payload[1], payload[4..12], payload[12..16], payload[16..20], payload[20..4 * words], payload[4 * words..total])
    requires payload[0] == Byte(0x40 + words) && 5 + |f.options| / 4 == words && [payload[2], payload[3]] == Be16(total)
    ensures FieldsOk(f) && payload == PacketOf(f) + payload[total..]
  {
    hide Byte, Be16;
    FirstTwenty(payload);
    TwoCuts(payload, 20, 4 * words, total);
    var head := payload[..20];
    assert PacketOf(f) == head + f.options + f.body;
  }

  lemma FirstTwenty(s: Bytes)
    requires |s| >= 20
    ensures s[..20] == [s[0], s[1]] + [s[2], s[3]] + s[4..12] + s[12..16] + s[16..20]
  {
  }

  lemma TwoCuts(s: Bytes, i: nat, j: nat, k: nat)
    requires i <= j <= k <= |s|
    ensures s == s[..i] + s[i..j] + s[j..k] + s[k..]
  {
  }

  lemma Be16Of(hi: bv8, lo: bv8)
    ensures [hi, lo] == Be16(FromBe16(hi, lo))
  {
    hide Byte;
    var (n, s) := (FromBe16(hi, lo), Be16(FromBe16(hi, lo)));
    assert n / 256 == Val(hi) && n % 256 == Val(lo);
    ByteOfVal(hi);
    ByteOfVal(lo);
  }

  // The packet cut out of a payload is itself an IPv4 packet that fills its buffer, with the same addresses.
  lemma CutPacketParses(payload: Bytes)
    requires ParseIpv4(payload).Some?
    ensures
      var p := ParseIpv4(payload).value;
      && 20 <= |p.packet| <= |payload| && p.packet <= payload
      && |p.packet| == FromBe16(payload[2], payload[3])
      && ParseIpv4(p.packet) == Some(p)
  {
    var p := ParseIpv4(payload).value;
    assert p.packet[..|p.packet|] == p.packet;
    assert p.packet[12..16] == payload[12..16] && p.packet[16..20] == payload[16..20];
  }
}
