/** The client of src/iwand.c: one record, updated in place by the handlers, the timer and the reset. */
module ClientEngine {
  import opened AesCipher
  import opened AesBlocks
  import opened Wire
  import opened Buffers
  import opened Fragments
  import opened SegmentRouting
  import opened ClientModel
  import opened FragmentTable
  import Md5
  import Protocol

  // The digest the client computes, on top of one compression function.
  function HashOf(f: Md5.Compression): Hash
  {
    (msg: Bytes) => Md5.Md5(f, msg)
  }

  // ----- Signatures -----

  method SignatureOf(f: Md5.Compression, header: Bytes) returns (digest: Block)
    requires |header| == HEADER
    ensures digest == HashOf(f)(header + MAGIC)
  {
    hide Md5.Takes, Md5.Fold, Md5.Whole, Md5.Wrap64, Md5.Context.Valid;
    var ctx := new Md5.Context(f);
    Md5.ShortInput(0, HEADER);
    ctx.Update(header);
    Md5.ShortInput(HEADER, |MAGIC|);
    ctx.Update(MAGIC);
    assert [] + header + MAGIC == header + MAGIC;
    digest := ctx.Final();
  }

  method PktSign(f: Md5.Compression, packet: array<bv8>)
    requires packet.Length >= SIGNED_HEADER
    modifies packet
    ensures packet[..] == Signed(HashOf(f), old(packet[..8]), old(packet[24..]))
  {
    var digest := SignatureOf(f, packet[..HEADER]);
    Copy(digest, packet, HEADER);
    ghost var want := Signed(HashOf(f), old(packet[..8]), old(packet[24..]));
    assert want == want[..8] + want[8..24] + want[24..];
    assert packet[..8] == want[..8] && packet[8..24] == digest == want[8..24] && packet[24..] == want[24..];
    assert packet[..] == packet[..8] + packet[8..24] + packet[24..];
  }

  method PktVerify(f: Md5.Compression, packet: Bytes) returns (ok: bool)
    ensures ok == Verified(HashOf(f), packet)
  {
    if |packet| < SIGNED_HEADER {
      return false;
    }
    var digest := SignatureOf(f, packet[..HEADER]);
    ok := digest == packet[HEADER..SIGNED_HEADER];
  }

  // A signed packet, from its header fields and what follows the signature.
  method SignedPacket(f: Md5.Compression, kind: bv8, flag: bv8, token: Token, id: SessionId, body: Bytes) returns (packet: Bytes)
    ensures packet == Signed(HashOf(f), Header(kind, flag, token, id), body)
  {
    hide Signed;
    var buf := new bv8[SIGNED_HEADER + |body|];
    Copy(Header(kind, flag, token, id), buf, 0);
    Copy(body, buf, SIGNED_HEADER);
    assert buf[..8] == Header(kind, flag, token, id) && buf[24..] == body;
    PktSign(f, buf);
    packet := buf[..];
  }

  // ----- The client record -----

  class Client {
    const g: ClientConfig
    const f: Md5.Compression
    // Written once at start, by the key setup.
    var srMode: nat
    var xorKey: XorKey
    const srDecryptKey: array<bv32>
    const srEncryptKey: array<bv32>

    var state: State
    // Server MTU, peer address, DNS servers, duplication and encryption flags.
    var terms: Terms
    var sessionToken: Token
    var sessionId: SessionId
    var domain: bool
    var serverAddr: Address
    var serverPort: nat
    var socketOpen: bool
    var lastRecvTime: nat
    var lastOpenTime: nat
    var echoCounter: nat
    var curDelay: nat
    var minDelay: nat
    var maxDelay: nat
    const frags: Table

    ghost predicate KeysOk()
      reads `srMode, `xorKey, srDecryptKey, srEncryptKey
    {
      && srDecryptKey.Length == srEncryptKey.Length == 44
      && ClientConfigOk(g)
      && srMode == EffectiveMode(|g.srLinks|, g.srMode)
      && xorKey == DerivedKey(HashOf(f), g.username, g.password)
      && (|g.srLinks| > 0 ==>
            && srEncryptKey[..] == ExpandedKey(SrKey(g.srPassword, g.srLinks))
            && srDecryptKey[..] == Reversed(ExpandedKey(SrKey(g.srPassword, g.srLinks))))
    }

    ghost predicate Separate()
    {
      {this, srDecryptKey, srEncryptKey} !! frags.Repr()
    }

    ghost predicate Valid()
      reads this, srDecryptKey, srEncryptKey, frags.Repr()
    {
      KeysOk() && Separate() && frags.Valid()
    }

    ghost function View(): View
      reads this, frags
    {
      ClientModel.View.View(
        state, terms, sessionToken, sessionId, domain, serverAddr, serverPort, socketOpen,
        lastRecvTime, lastOpenTime, echoCounter, curDelay, minDelay, maxDelay, frags.view)
    }

    // ----- Start -----

    // The record before the program has done anything.
    constructor (g: ClientConfig, f: Md5.Compression)
      requires ClientConfigOk(g)
      ensures Blank() && this.g == g && this.f == f
      ensures fresh(frags.Repr()) && fresh(srDecryptKey) && fresh(srEncryptKey)
    {
      this.g, this.f := g, f;
      srMode, xorKey, terms := g.srMode, [0, 0, 0, 0, 0, 0, 0, 0], NO_TERMS;
      srDecryptKey := new bv32[44];
      srEncryptKey := new bv32[44];
      sessionToken, sessionId := [0, 0], [0, 0, 0, 0];
      lastRecvTime, lastOpenTime, echoCounter := 0, 0, 0;
      curDelay, minDelay, maxDelay := 0, INITIAL_MIN_DELAY, 0;
      serverAddr, serverPort, socketOpen, domain, state := NO_ADDRESS, 0, false, false, NotReady;
      frags := new Table();
    }

    ghost predicate Blank()
      reads this, srDecryptKey, srEncryptKey, frags.Repr()
    {
      && srDecryptKey.Length == srEncryptKey.Length == 44 && srDecryptKey != srEncryptKey
      && ClientConfigOk(g) && srMode == g.srMode && Separate() && frags.Valid()
      && View() == ClientModel.View.View(NotReady, NO_TERMS, [0, 0], [0, 0, 0, 0], false, NO_ADDRESS, 0, false,
                                         0, 0, 0, 0, INITIAL_MIN_DELAY, 0, NoSlots())
    }

    method SetupKeys()
      requires Blank()
      modifies `srMode, `xorKey, srDecryptKey, srEncryptKey
      ensures Valid() && View() == old(View())
    {
      hide Table.Valid, NoSlots, SrKey, ExpandedKey, Reversed, DerivedKey, EffectiveMode, ClientConfigOk;
      DeriveXorKey();
      SrSetupKeys();
    }

    // Derives the keys, resolves the server and opens the socket.
    method Startup(resolved: Option<Address>)
      requires Blank()
      modifies this, srDecryptKey, srEncryptKey
      ensures Valid() && View() == Start(g, resolved)
    {
      hide Table.Valid, NoSlots, KeysOk;
      SetupKeys();
      serverPort := g.port;
      var ok := ResolveServer(resolved);
      state := if ok then IpReady else DnsNeeded;
      socketOpen := true;
    }

    method DeriveXorKey()
      requires ClientConfigOk(g)
      modifies `xorKey
      ensures xorKey == DerivedKey(HashOf(f), g.username, g.password)
    {
      var digest := Md5.Hash(f, g.username + g.password);
      xorKey := digest[..8];
    }

    method SrSetupKeys()
      requires ClientConfigOk(g) && srDecryptKey.Length == srEncryptKey.Length == 44 && srDecryptKey != srEncryptKey
      modifies `srMode, srDecryptKey, srEncryptKey
      ensures srMode == EffectiveMode(|g.srLinks|, old(srMode))
      ensures |g.srLinks| > 0 ==>
                && srEncryptKey[..] == ExpandedKey(SrKey(g.srPassword, g.srLinks))
                && srDecryptKey[..] == Reversed(ExpandedKey(SrKey(g.srPassword, g.srLinks)))
    {
      hide ExpandedKey, Reversed;
      if |g.srLinks| == 0 {
        return;
      }
      var keybuf := new bv8[128];
      var klen := |g.srPassword|;
      Copy(g.srPassword, keybuf, 0);
      FlattenLength(g.srLinks);
      if klen + 4 * |g.srLinks| <= keybuf.Length {
        Copy(Flatten(g.srLinks), keybuf, klen);
        klen := klen + 4 * |g.srLinks|;
      }
      ghost var material := g.srPassword + Flatten(g.srLinks);
      assert keybuf[..klen] == material;
      while klen < 32
        modifies keybuf
        invariant |material| <= klen <= 128
        invariant forall k | 0 <= k < klen :: keybuf[k] == if k < |material| then material[k] else 0
      {
        keybuf[klen] := 0;
        klen := klen + 1;
      }
      assert keybuf[..16] == SrKey(g.srPassword, g.srLinks);
      if srMode == 2 {
        srMode := 1;
      }
      SetDecryptKey(keybuf[..16], srDecryptKey);
      SetEncryptKey(keybuf[..16], srEncryptKey);
    }

    // A numeric server needs no resolver; the last answer of the resolver comes in from outside.
    method ResolveServer(resolved: Option<Address>) returns (ok: bool)
      modifies `serverAddr, `domain
      ensures ok == (g.server.Some? || resolved.Some?)
      ensures
        var addr := if g.server.Some? then g.server.value else if resolved.Some? then resolved.value else old(serverAddr);
        View() == old(View()).(serverAddr := addr, domain := g.server.None?)
    {
      if g.server.Some? {
        serverAddr := g.server.value;
        domain := false;
        return true;
      }
      domain := true;
      if resolved.None? {
        return false;
      }
      serverAddr := resolved.value;
      return true;
    }

    // ----- OPENACK -----

    // The switch over the kind of one item.
    method ReadTerm(kind: bv8, val: Bytes)
      modifies `terms
      ensures terms == WithTerm(old(terms), Tlv(kind, val))
    {
      match kind
      case 3 =>
        if |val| >= 2 {
          terms := terms.(serverMtu := FromBe16(val[0], val[1]));
        }
      case 4 =>
        if |val| >= 4 {
          terms := terms.(peerIp := val[..4]);
        }
      case 5 =>
        if |val| >= 4 {
          terms := terms.(dns0 := val[..4]);
        }
      case 6 =>
        if |val| >= 4 {
          terms := terms.(dns0 := val[..4]);
        }
        if |val| >= 8 {
          terms := terms.(dns1 := val[4..8]);
        }
      case 7 =>
        if |val| >= 1 {
          terms := terms.(dup := val[0]);
        }
      case 8 =>
        if |val| >= 1 {
          terms := terms.(encrypt := val[0]);
        }
      case _ =>
    }

    // The loop over the items of an OPENACK.
    method ReadTerms(data: Bytes)
      modifies `terms
      ensures terms == WithTerms(old(terms), ItemPrefix(data))
    {
      hide WithTerm, WithTerms, ItemPrefix, Val;
      var at: nat, remain: nat := 0, |data|;
      assert data[0..] == data;
      while remain > 0
        invariant at + remain == |data|
        invariant WithTerms(terms, ItemPrefix(data[at..])) == WithTerms(old(terms), ItemPrefix(data))
      {
        if remain < 2 {
          break;
        }
        var kind, tlen := data[at], Val(data[at + 1]);
        if tlen < 2 || tlen > remain {
          break;
        }
        ItemRead(terms, data[at..]);
        SliceOfRest(data, at, tlen);
        ReadTerm(kind, data[at + 2..at + tlen]);
        at, remain := at + tlen, remain - tlen;
      }
      NoItemLeft(terms, data[at..]);
    }

    method Establish(packet: Bytes, now: nat)
      requires |packet| >= HEADER
      modifies `state, `sessionToken, `sessionId, `lastRecvTime, `echoCounter
      ensures View() == old(View()).(state := Established, token := packet[2..4], id := packet[4..8], lastRecv := now,
                                     echoCounter := 0)
    {
      state := Established;
      sessionToken := packet[2..4];
      sessionId := packet[4..8];
      lastRecvTime := now;
      echoCounter := 0;
    }

    // Address and MTU of the TUN device; a failure closes the session.
    method SetUpTun(tunOk: bool) returns (accepted: bool, effects: seq<Effect>)
      modifies `state
      ensures accepted == tunOk
      ensures View() == if tunOk then old(View()) else old(View()).(state := Closed)
      ensures effects == if tunOk then [SetTun(terms.peerIp, EffectiveMtu(g, terms.serverMtu))] else []
    {
      var effMtu := g.mtu;
      if terms.serverMtu >= 68 && terms.serverMtu < effMtu {
        effMtu := terms.serverMtu;
      }
      if !tunOk {
        state := Closed;
        return false, [];
      }
      return true, [SetTun(terms.peerIp, effMtu)];
    }

    method HandleOpenack(packet: Bytes, now: nat, tunOk: bool) returns (accepted: bool, effects: seq<Effect>)
      requires Valid()
      modifies this
      ensures Valid() && Reaction(View(), effects, accepted) == OnOpenAck(g, HashOf(f), old(View()), packet, now, tunOk)
    {
      hide KeysOk, Verified, WithTerms, ItemPrefix, EffectiveMtu, Table.Valid;
      if state != AuthSent {
        return false, [];
      }
      var ok := PktVerify(f, packet);
      if !ok {
        return false, [];
      }
      SignedLength(HashOf(f), packet);
      ReadTerms(packet[SIGNED_HEADER..]);
      if terms.peerIp == NO_ADDRESS {
        return false, [];
      }
      Establish(packet, now);
      accepted, effects := SetUpTun(tunOk);
    }

    // ----- Other packets from the server -----

    method HandleData(packet: Bytes) returns (accepted: bool, effects: seq<Effect>)
      requires Valid() && |packet| >= HEADER
      ensures Reaction(View(), effects, accepted) == OnData(xorKey, View(), packet)
    {
      hide KeysOk, XorData, Table.Valid;
      if state != Established || |packet| <= HEADER {
        return false, [];
      }
      var decrypted := new bv8[PACKET_BUFFER];
      var length := |packet| - HEADER;
      if length > decrypted.Length {
        return false, [];
      }
      Copy(packet[HEADER..], decrypted, 0);
      assert decrypted[0..length] == packet[HEADER..];
      if packet[0] == DATA_ENC {
        XorRange(xorKey, decrypted, 0, length);
      }
      return true, [ToTun(decrypted[0..length])];
    }

    method HandleEchoResp(packet: Bytes, usec: nat) returns (accepted: bool)
      requires Valid()
      modifies `curDelay, `minDelay, `maxDelay
      ensures Valid() && Reaction(View(), [], accepted) == OnEchoResp(HashOf(f), old(View()), packet, usec)
    {
      hide KeysOk, Verified, FromLittleEndian, Elapsed, Table.Valid;
      if state != Established {
        return false;
      }
      var ok := PktVerify(f, packet);
      if !ok {
        return false;
      }
      if |packet| >= SIGNED_HEADER + 8 {
        var delay := Elapsed(usec, FromLittleEndian(packet[24..32]));
        curDelay := delay;
        if delay > maxDelay {
          maxDelay := delay;
        }
        if delay < minDelay {
          minDelay := delay;
        }
      }
      return true;
    }

    method HandleClose(packet: Bytes) returns (accepted: bool)
      requires Valid()
      modifies `state
      ensures Valid() && Reaction(View(), [], accepted) == OnClose(HashOf(f), old(View()), packet)
    {
      hide KeysOk, Verified, Table.Valid;
      if state != Established {
        return false;
      }
      var ok := PktVerify(f, packet);
      if !ok {
        return false;
      }
      state := Closed;
      return true;
    }

    method HandleOpenrej()
      requires Valid()
      modifies `state
      ensures Valid() && Reaction(View(), [], false) == OnOpenRej(old(View()))
    {
      hide KeysOk, Table.Valid;
      if state != AuthSent {
        return;
      }
      state := Closed;
    }

    method HandleIpfrag(packet: Bytes, now: nat) returns (accepted: bool, effects: seq<Effect>)
      requires Valid()
      modifies frags.Repr()
      ensures Valid() && Reaction(View(), effects, accepted) == OnIpfrag(xorKey, old(View()), packet, now)
    {
      hide IpfragStep;
      if state != Established {
        return false, [];
      }
      var written, taken := frags.HandleIpfrag(packet, terms.encrypt != 0, xorKey, now);
      return taken, if written.Some? then [ToTun(written.value)] else [];
    }

    // ----- Segment routing -----

    // Decrypts one block in place.
    method DecryptAt(data: array<bv8>, off: nat)
      requires KeysOk() && |g.srLinks| > 0 && off + 16 <= data.Length
      modifies data
      ensures data[..off + 16] == old(data[..off]) + Decrypt(SrKey(g.srPassword, g.srLinks), old(data[off..off + 16]))
      ensures forall k | off + 16 <= k < data.Length :: data[k] == old(data[k])
    {
      hide SrKey, InvCipher, ExpandedKey, Reversed, DerivedKey;
      var tmp := new bv8[16];
      DecryptBlock(data[off..off + 16], tmp, srDecryptKey);
      Copy(tmp[..], data, off);
    }

    // Decrypts the first len bytes in place, block by block.
    method SrDecrypt(data: array<bv8>, len: nat, flags: bv8) returns (ok: bool)
      requires KeysOk() && |g.srLinks| > 0 && len <= data.Length
      modifies data
      ensures SrDecrypted(SrKey(g.srPassword, g.srLinks), flags & 7, old(data[..len])) == if ok then Some(data[..len]) else None
    {
      hide SrKey, Decrypt, KeysOk;
      var blockSize := if flags & 7 == 1 then 16 else 32;
      if len % blockSize != 0 {
        return false;
      }
      hide Divides;
      ghost var (key, input) := (SrKey(g.srPassword, g.srLinks), data[..len]);
      var off := 0;
      while off < len
        invariant off <= len && off % 16 == 0 && Divides(blockSize, len - off)
        invariant forall k | off <= k < len :: data[k] == input[k]
        invariant data[..off] == if blockSize == 16 then EcbDecrypt(key, input[..off]) else input[..off]
      {
        NextBlock(blockSize, off, len);
        if blockSize == 16 {
          assert data[off..off + 16] == input[off..off + 16];
          EcbAppend(key, input[..off], input[off..off + 16]);
          OneMoreBlock(input, off);
          DecryptAt(data, off);
        }
        off := off + blockSize;
      }
      assert input[..off] == input;
      return true;
    }

    // Strips the outer headers and decrypts; length 0 means that the packet is dropped.
    method Decapsulate(packet: Bytes) returns (buf: array<bv8>, length: nat)
      requires KeysOk()
      ensures fresh(buf) && length <= buf.Length
      ensures Inner(|g.srLinks|, EffectiveMode(|g.srLinks|, g.srMode), SrKey(g.srPassword, g.srLinks), packet)
              == if length == 0 then None else Some(buf[..length])
    {
      hide SrDecrypted, SrKey, DerivedKey, ExpandedKey, Reversed, Val, PadLength;
      buf, length := new bv8[PACKET_BUFFER], 0;
      if |packet| < HEADER + 4 {
        return;
      }
      var srHdrLen := Val(packet[9]) * 4 + 4;
      if |packet| <= HEADER + srHdrLen {
        return;
      }
      var innerLen := |packet| - HEADER - srHdrLen;
      if innerLen > buf.Length {
        return;
      }
      Copy(packet[HEADER + srHdrLen..], buf, 0);
      assert buf[..innerLen] == packet[HEADER + srHdrLen..];
      if |g.srLinks| > 0 && srMode > 0 {
        var algorithm := packet[10] & 7;
        if Val(algorithm) == srMode {
          var ok := SrDecrypt(buf, innerLen, packet[10]);
          if !ok {
            return;
          }
          var padlen := PadLength(packet[10]);
          if 0 < padlen < innerLen {
            assert buf[..innerLen][..innerLen - padlen] == buf[..innerLen - padlen];
            innerLen := innerLen - padlen;
          }
        } else if algorithm != 0 {
          return;
        }
      }
      length := innerLen;
    }

    method HandleSegrt(packet: Bytes, now: nat) returns (accepted: bool, effects: seq<Effect>)
      requires Valid()
      modifies frags.Repr()
      ensures Valid() && Reaction(View(), effects, accepted) == OnSegrt(g, xorKey, old(View()), packet, now)
    {
      hide Inner, OnIpfrag, SrKey, XorData, Table.Valid;
      if state != Established {
        return false, [];
      }
      var buf, length := Decapsulate(packet);
      if length == 0 {
        return false, [];
      }
      ghost var inner := buf[..length];
      if buf[0] == IPFRAG_SR {
        accepted, effects := HandleIpfrag(buf[..length], now);
        return;
      }
      if buf[0] != DATA && buf[0] != DATA_ENC {
        return false, [];
      }
      if length <= HEADER {
        return false, [];
      }
      assert buf[HEADER..length] == inner[HEADER..];
      if buf[0] == DATA_ENC {
        XorRange(xorKey, buf, HEADER, length);
      }
      return true, [ToTun(buf[HEADER..length])];
    }

    method HandleRecv(packet: Bytes, e: Env) returns (effects: seq<Effect>)
      requires Valid()
      modifies this, frags.Repr()
      ensures Valid() && (View(), effects) == OnRecv(g, HashOf(f), old(View()), packet, e)
    {
      hide DerivedKey, OnData, OnOpenAck, OnOpenRej, OnEchoResp, OnClose, OnIpfrag, OnSegrt, Table.Valid;
      effects := [];
      if |packet| < HEADER {
        return;
      }
      var kind, accepted := packet[0], false;
      if kind == DATA || kind == DATA_ENC {
        accepted, effects := HandleData(packet);
      } else if kind == OPENACK {
        accepted, effects := HandleOpenack(packet, e.now, e.tunOk);
      } else if kind == OPENREJ {
        HandleOpenrej();
      } else if kind == ECHORESP {
        accepted := HandleEchoResp(packet, e.usec);
      } else if kind == CLOSE {
        accepted := HandleClose(packet);
      } else if kind == IPFRAG {
        accepted, effects := HandleIpfrag(packet, e.now);
      } else if kind == SEGRT {
        accepted, effects := HandleSegrt(packet, e.now);
      }
      if accepted {
        lastRecvTime := e.now;
      }
    }

    // ----- The TUN device -----

    // Room for the header is left at the start of the buffer.
    method HandleTunRecv(data: Bytes) returns (effects: seq<Effect>)
      requires Valid() && |data| <= PACKET_BUFFER - HEADER
      ensures effects == OnTunRead(g, HashOf(f), View(), data)
    {
      hide XorData, DerivedKey, Header;
      var buf := new bv8[PACKET_BUFFER];
      Copy(data, buf, HEADER);
      assert buf[HEADER..HEADER + |data|] == data;
      if |data| == 0 || state != Established {
        return [];
      }
      var kind, flag := DATA, 0;
      if terms.encrypt != 0 {
        kind, flag := DATA_ENC, terms.encrypt;
        XorRange(xorKey, buf, HEADER, HEADER + |data|);
      }
      ghost var payload := buf[HEADER..HEADER + |data|];
      Copy(Header(kind, flag, sessionToken, sessionId), buf, 0);
      assert buf[..HEADER + |data|] == Header(kind, flag, sessionToken, sessionId) + payload;
      return [ToServer(buf[..HEADER + |data|])];
    }

    // ----- Building packets -----

    // The password, padded with zeros and cut to one block, under the digest of the user name.
    method PasswordItem() returns (block: Block)
      requires ClientConfigOk(g)
      ensures block == PasswordBlock(HashOf(f), g.username, g.password)
    {
      hide ExpandedKey, Cipher;
      var digest := Md5.Hash(f, MAGIC + g.username);
      var aesKey := new bv32[44];
      SetEncryptKey(digest, aesKey);
      var passBlock := new bv8[16](_ => 0);
      Copy(g.password[..if |g.password| > 16 then 16 else |g.password|], passBlock, 0);
      assert passBlock[..] == Padded(g.password);
      var out := new bv8[16];
      EncryptBlock(passBlock[..], out, aesKey);
      block := out[..];
    }

    method BuildOpenPkt() returns (packet: Bytes)
      requires ClientConfigOk(g)
      ensures packet == OpenPacket(g, HashOf(f))
    {
      hide PasswordBlock, Signed, TlvBytes, Serialize, Header, Be16;
      var start := SignedPacket(f, OPEN, g.encrypt, [0, 0], [0, 0, 0, 0], []);
      var block := PasswordItem();
      ghost var (a, b, c) := (Tlv(3, Be16(g.mtu)), Tlv(1, g.username), Tlv(2, block));
      packet := Protocol.AppendTLV(start, 3, Be16(g.mtu));
      packet := Protocol.AppendTLV(packet, 1, g.username);
      packet := Protocol.AppendTLV(packet, 2, block);
      SerializeThree(start, a, b, c);
      ghost var ts := [a, b, c];
      if g.encrypt != 0 {
        packet := Protocol.AppendTLV(packet, 8, [g.encrypt]);
        Protocol.AppendedItem(start, ts, Tlv(8, [g.encrypt]));
        ts := ts + [Tlv(8, [g.encrypt])];
      }
      if g.pipeid != 0 || g.pipeidx != 0 {
        var val := Be16(g.pipeid + 0x8000 * g.pipeidx);
        packet := Protocol.AppendTLV(packet, 0x0a, val);
        Protocol.AppendedItem(start, ts, Tlv(0x0a, val));
        ts := ts + [Tlv(0x0a, val)];
      }
      assert ts == OpenItems(g, HashOf(f));
      Protocol.SignedBody(HashOf(f), Header(OPEN, g.encrypt, [0, 0], [0, 0, 0, 0]), Serialize(ts));
    }

    method BuildEchoReq(usec: nat) returns (packet: Bytes)
      ensures packet == EchoPacket(HashOf(f), View(), usec)
    {
      hide LittleEndian;
      var body := LittleEndian(usec, 8) + LittleEndian(curDelay, 4) + LittleEndian(minDelay, 4) + LittleEndian(maxDelay, 4)
                  + [0, 0, 0, 0] + [0x54, 0x44, 0x52, 0] + [0, 0, 0, 0] + [0, 0, 0, 0];
      packet := SignedPacket(f, ECHOREQ, 0, sessionToken, sessionId, body);
    }

    method SendClose() returns (effects: seq<Effect>)
      ensures effects == if state == Established && socketOpen then [ToServer(ClosePacket(HashOf(f), View()))] else []
    {
      if state != Established || !socketOpen {
        return [];
      }
      var packet := SignedPacket(f, CLOSE, 0, sessionToken, sessionId, []);
      return [ToServer(packet)];
    }

    // ----- Reset and timer -----

    // The session and its fragments are forgotten.
    method ClearSession()
      requires Valid()
      modifies `sessionToken, `sessionId, `terms, frags.Repr()
      ensures Valid() && View() == old(View()).(token := [0, 0], id := [0, 0, 0, 0], terms := NO_TERMS,
                                                slots := FreedSlots(old(View()).slots))
    {
      hide KeysOk, Table.Valid, FreedSlots;
      sessionToken := [0, 0];
      sessionId := [0, 0, 0, 0];
      frags.FreeAll();
      terms := NO_TERMS;
    }

    method ClearTimers()
      modifies `curDelay, `minDelay, `maxDelay, `echoCounter, `lastRecvTime, `lastOpenTime
      ensures View() == old(View()).(curDelay := 0, minDelay := INITIAL_MIN_DELAY, maxDelay := 0,
                                     echoCounter := 0, lastRecv := 0, lastOpen := 0)
    {
      curDelay, minDelay, maxDelay := 0, INITIAL_MIN_DELAY, 0;
      echoCounter := 0;
      lastRecvTime := 0;
      lastOpenTime := 0;
    }

    // What a reset tells the server and does to the TUN device.
    method Disconnect() returns (effects: seq<Effect>)
      ensures forall socketOk :: effects == Reset(HashOf(f), View(), socketOk).1
    {
      hide ClosePacket;
      effects := [];
      if state == Established || state == Closed {
        effects := SendClose();
        effects := effects + [ClearTun];
      }
    }

    method Restart(socketOk: bool)
      modifies `socketOpen, `state
      ensures View() == old(View()).(socketOpen := socketOk, state := if domain then DnsNeeded else IpReady)
    {
      socketOpen := socketOk;
      state := if domain then DnsNeeded else IpReady;
    }

    method ClientReset(socketOk: bool) returns (effects: seq<Effect>)
      requires Valid()
      modifies this, frags.Repr()
      ensures Valid() && (View(), effects) == Reset(HashOf(f), old(View()), socketOk)
    {
      hide KeysOk, Table.Valid, ClosePacket, FreedSlots;
      effects := Disconnect();
      ClearSession();
      ClearTimers();
      Restart(socketOk);
    }

    // Without an answer the state stays, and the next tick tries again.
    method TryResolve(resolved: Option<Address>)
      modifies `serverAddr, `domain, `state
      ensures
        var addr := if g.server.Some? then g.server else resolved;
        View() == if addr.Some? then old(View()).(state := IpReady, serverAddr := addr.value, domain := g.server.None?)
                  else old(View()).(domain := true)
    {
      var ok := ResolveServer(resolved);
      if ok {
        state := IpReady;
      }
    }

    method BeginAuth(now: nat)
      modifies `serverPort, `lastRecvTime, `lastOpenTime, `state
      ensures View() == old(View()).(serverPort := g.port, lastRecv := now, lastOpen := 0, state := AuthSent)
    {
      serverPort := g.port;
      lastRecvTime := now;
      lastOpenTime := 0;
      state := AuthSent;
    }

    // The second half of the first two cases, which the first falls through to.
    method AwaitAnswer(e: Env) returns (effects: seq<Effect>)
      requires Valid()
      modifies this, frags.Repr()
      ensures Valid() && (View(), effects) == AuthTick(g, HashOf(f), old(View()), e)
    {
      hide Table.Valid, Reset, OpenPacket, Elapsed;
      effects := [];
      if Elapsed(e.now, lastRecvTime) > AUTH_TIMEOUT {
        effects := ClientReset(e.socketOk);
        return;
      }
      if Elapsed(e.now, lastOpenTime) >= AUTH_RETRY_INTERVAL {
        lastOpenTime := e.now;
        var packet := BuildOpenPkt();
        effects := [ToServer(packet)];
      }
    }

    method KeepAlive(e: Env) returns (effects: seq<Effect>)
      requires Valid() && socketOpen && state == Established
      modifies this, frags.Repr()
      ensures Valid() && (View(), effects) == Tick(g, HashOf(f), old(View()), e)
    {
      hide KeysOk, Table.Valid, Reset, EchoPacket, Elapsed, Separate;
      effects := [];
      if Elapsed(e.now, lastRecvTime) > DATA_TIMEOUT {
        effects := ClientReset(e.socketOk);
        return;
      }
      echoCounter := (echoCounter + 1) % TWO32;
      if echoCounter % 2 == 0 {
        var packet := BuildEchoReq(e.usec);
        effects := [ToServer(packet)];
      }
    }

    method TimerTick(e: Env) returns (effects: seq<Effect>)
      requires Valid()
      modifies this, frags.Repr()
      ensures Valid() && (View(), effects) == Tick(g, HashOf(f), old(View()), e)
    {
      hide Table.Valid, Reset, OpenPacket, EchoPacket, Elapsed, KeysOk, Separate;
      effects := [];
      if !socketOpen {
        socketOpen := e.socketOk;
        if !socketOpen {
          return;
        }
      }
      match state
      case NotReady =>
      case DnsNeeded =>
        TryResolve(e.resolved);
      case IpReady =>
        BeginAuth(e.now);
        effects := AwaitAnswer(e);
      case AuthSent =>
        effects := AwaitAnswer(e);
      case Established =>
        effects := KeepAlive(e);
      case Closed =>
        effects := ClientReset(e.socketOk);
    }
  }

  lemma SerializeThree(start: Bytes, a: Tlv, b: Tlv, c: Tlv)
    ensures start + Serialize([a, b, c]) == start + TlvBytes(a) + TlvBytes(b) + TlvBytes(c)
  {
    hide TlvBytes;
    Protocol.SerializePair(b, c);
    assert [a, b, c][1..] == [b, c];
  }

  lemma SliceOfRest(data: Bytes, at: nat, n: nat)
    requires 2 <= n && at + n <= |data|
    ensures data[at..][2..n] == data[at + 2..at + n] && data[at..][n..] == data[at + n..]
  {
    var rest := data[at..];
    assert rest[2..n] == data[at + 2..at + n];
    assert rest[n..] == data[at + n..];
  }

  lemma OneMoreBlock(data: Bytes, off: nat)
    requires off + 16 <= |data|
    ensures data[..off] + data[off..off + 16] == data[..off + 16]
  {
  }

  predicate Divides(size: nat, n: nat)
    requires size > 0
  {
    n % size == 0
  }

  lemma NextBlock(size: nat, off: nat, len: nat)
    requires (size == 16 || size == 32) && off < len && off % 16 == 0 && Divides(size, len - off)
    ensures off + size <= len && (off + size) % 16 == 0 && Divides(size, len - off - size)
  {
  }

  lemma {:induction false} EcbAppend(key: Block, data: Bytes, block: Block)
    requires |data| % 16 == 0
    ensures EcbDecrypt(key, data + block) == EcbDecrypt(key, data) + Decrypt(key, block)
    decreases |data|
  {
    hide Decrypt;
    if |data| == 0 {
      assert data + block == block && block[..16] == block && block[16..] == [];
    } else {
      assert (data + block)[..16] == data[..16] && (data + block)[16..] == data[16..] + block;
      EcbAppend(key, data[16..], block);
    }
  }

  lemma ItemRead(t: Terms, data: Bytes)
    requires FrontLength(data).Some?
    ensures
      var n := FrontLength(data).value;
      WithTerms(t, ItemPrefix(data)) == WithTerms(WithTerm(t, Tlv(data[0], data[2..n])), ItemPrefix(data[n..]))
  {
    hide WithTerm;
    var n := FrontLength(data).value;
    assert ([FrontItem(data)] + ItemPrefix(data[n..]))[1..] == ItemPrefix(data[n..]);
  }

  lemma NoItemLeft(t: Terms, data: Bytes)
    requires FrontLength(data).None?
    ensures WithTerms(t, ItemPrefix(data)) == t
  {
  }

  lemma SignedLength(h: Hash, packet: Bytes)
    requires Verified(h, packet)
    ensures |packet| >= SIGNED_HEADER
  {
  }
}
