/** Client and server agree after OPEN and OPENACK. */
module Handshake {
  import opened AesCipher
  import opened Wire
  import opened Protocol
  import opened Config
  import opened Sessions
  import Client = ClientModel
  import Routing

  // ----- OPEN -----

  lemma OpenItemsCons(f: OpenFields, t: Tlv, rest: seq<Tlv>)
    ensures OpenItems(f, [t] + rest) == if OpenItem(f, t).Some? then OpenItems(OpenItem(f, t).value, rest) else None
  {
    assert ([t] + rest)[1..] == rest;
  }

  // The server accepts the client's OPEN and reads out of it what the client put in.
  lemma ServerReadsOpen(g: Client.ClientConfig, h: Hash)
    requires Client.ClientConfigOk(g)
    ensures ParseOpen(h, Client.OpenPacket(g, h)) ==
            Some(OpenRequest(g.username, PasswordBlock(h, g.username, g.password), g.mtu, g.encrypt != 0))
  {
    hide PasswordBlock, TlvBytes, Be16, OpenItems, Serialize, ParseTlvs;
    var ts := Client.OpenItems(g, h);
    assert Fits(ts);
    ParseOfSerialized(ts);
    var block := PasswordBlock(h, g.username, g.password);
    var first := OpenFields([], None, DEFAULT_MTU, g.encrypt != 0);
    var second := first.(mtu := g.mtu);
    var third := second.(username := g.username);
    OpenItemsCons(first, Tlv(3, Be16(g.mtu)), [Tlv(1, g.username)] + ([Tlv(2, block)] + ts[3..]));
    OpenItemsCons(second, Tlv(1, g.username), [Tlv(2, block)] + ts[3..]);
    OpenItemsCons(third, Tlv(2, block), ts[3..]);
    OptionalItems(g, h, third.(passwordBlock := Some(block)));
    assert ts == [Tlv(3, Be16(g.mtu))] + ([Tlv(1, g.username)] + ([Tlv(2, block)] + ts[3..]));
  }

  lemma OptionalItems(g: Client.ClientConfig, h: Hash, read: OpenFields)
    requires Client.ClientConfigOk(g) && read.encrypt == (g.encrypt != 0)
    ensures OpenItems(read, Client.OpenItems(g, h)[3..]) == Some(read)
  {
    hide PasswordBlock, Be16;
    var encrypted: seq<Tlv> := if g.encrypt != 0 then [Tlv(8, [g.encrypt])] else [];
    var piped: seq<Tlv> := if g.pipeid != 0 || g.pipeidx != 0 then [Tlv(0x0a, Be16(g.pipeid + 0x8000 * g.pipeidx))] else [];
    assert Client.OpenItems(g, h)[3..] == encrypted + piped;
    assert OpenItems(read, piped) == Some(read);
    if encrypted != [] {
      assert (encrypted + piped)[1..] == piped;
    } else {
      assert encrypted + piped == piped;
    }
  }

  // ----- OPENACK -----

  lemma WithTermsCons(t: Client.Terms, item: Tlv, rest: seq<Tlv>)
    ensures Client.WithTerms(t, [item] + rest) == Client.WithTerms(Client.WithTerm(t, item), rest)
  {
    assert ([item] + rest)[1..] == rest;
  }

  // The client reads out of an OPENACK what the server put in, whatever terms it had read before.
  lemma ClientReadsAck(h: Hash, token: Token, id: SessionId, mtu: nat, address: Address, dns: seq<Address>, encrypt: bool,
                       before: Client.Terms)
    requires mtu < 0x1_0000
    ensures
      var packet := OpenAck(h, token, id, mtu, address, dns, encrypt);
      var terms := Client.WithTerms(before, ItemPrefix(packet[SIGNED_HEADER..]));
      && Verified(h, packet) && packet[0] == OPENACK && packet[2..4] == token && packet[4..8] == id
      && terms.serverMtu == mtu && terms.peerIp == address && terms.encrypt == (if encrypt then 1 else 0)
      && (|dns| >= 1 ==> terms.dns0 == dns[0]) && (|dns| >= 2 ==> terms.dns1 == dns[1])
  {
    hide TlvBytes, Be16, Client.WithTerms, Serialize, ParseTlvs, ItemPrefix, DnsItems;
    var ts := AckItems(mtu, address, dns, encrypt);
    ParseOfSerialized(ts);
    SerializedOfParse(Serialize(ts));
    var last := Tlv(8, [if encrypt then 1 else 0]);
    var second := before.(serverMtu := mtu);
    var third := second.(peerIp := address);
    assert ts == [Tlv(3, Be16(mtu))] + ([Tlv(4, address)] + (DnsItems(dns) + [last]));
    WithTermsCons(before, Tlv(3, Be16(mtu)), [Tlv(4, address)] + (DnsItems(dns) + [last]));
    WithTermsCons(second, Tlv(4, address), DnsItems(dns) + [last]);
    assert address[..4] == address;
    DnsRead(third, dns, last);
  }

  lemma DnsRead(t: Client.Terms, dns: seq<Address>, last: Tlv)
    requires last.kind == 8 && |last.value| == 1
    ensures
      var r := Client.WithTerms(t, DnsItems(dns) + [last]);
      && r == t.(dns0 := r.dns0, dns1 := r.dns1, encrypt := last.value[0])
      && (|dns| >= 1 ==> r.dns0 == dns[0]) && (|dns| >= 2 ==> r.dns1 == dns[1])
  {
    if |dns| == 0 {
      WithTermsCons(t, last, []);
      assert DnsItems(dns) + [last] == [last] + [];
    } else {
      var item := DnsItems(dns)[0];
      assert DnsItems(dns) + [last] == [item] + ([last] + []);
      WithTermsCons(t, item, [last] + []);
      WithTermsCons(Client.WithTerm(t, item), last, []);
      assert item.value[..4] == dns[0];
      if |dns| >= 2 {
        assert item.value[4..8] == dns[1];
      }
    }
  }

  // ----- The last item of a kind counts -----

  // The value of the last item that is of the kind and has at least n bytes.
  function LastValue(ts: seq<Tlv>, kind: bv8, n: nat): (r: Option<Bytes>)
    ensures r.Some? ==> |r.value| >= n
  {
    if ts == [] then None
    else
      var later := LastValue(ts[1..], kind, n);
      if later.Some? then later
      else if ts[0].kind == kind && |ts[0].value| >= n then Some(ts[0].value)
      else None
  }

  // What the client reads out of a list of items: of each kind the last one that is long enough.
  lemma {:induction false} TermsAreTheLast(t: Client.Terms, ts: seq<Tlv>)
    ensures
      var r := Client.WithTerms(t, ts);
      && r.serverMtu == (match LastValue(ts, 3, 2) case Some(m) => FromBe16(m[0], m[1]) case None => t.serverMtu)
      && r.peerIp == (match LastValue(ts, 4, 4) case Some(p) => p[..4] case None => t.peerIp)
      && r.dns1 == (match LastValue(ts, 6, 8) case Some(d) => d[4..8] case None => t.dns1)
    decreases |ts|
  {
    hide FromBe16;
    if ts != [] {
      TermsAreTheLast(Client.WithTerm(t, ts[0]), ts[1..]);
    }
  }

  lemma {:induction false} FlagsAreTheLast(t: Client.Terms, ts: seq<Tlv>)
    ensures
      var r := Client.WithTerms(t, ts);
      && r.dup == (match LastValue(ts, 7, 1) case Some(u) => u[0] case None => t.dup)
      && r.encrypt == (match LastValue(ts, 8, 1) case Some(e) => e[0] case None => t.encrypt)
    decreases |ts|
  {
    hide FromBe16;
    if ts != [] {
      FlagsAreTheLast(Client.WithTerm(t, ts[0]), ts[1..]);
    }
  }

  // What the server reads: the same, and an item of kind 2 or 3 with a wrong length is an error.
  lemma {:induction false} FieldsAreTheLast(f: OpenFields, ts: seq<Tlv>)
    ensures OpenItems(f, ts).None? <==>
            exists k :: 0 <= k < |ts| && ((ts[k].kind == 2 && |ts[k].value| != 16) || (ts[k].kind == 3 && |ts[k].value| < 2))
    ensures OpenItems(f, ts).Some? ==>
              var r := OpenItems(f, ts).value;
              var (u, b, m, e) := (LastValue(ts, 1, 0), LastValue(ts, 2, 0), LastValue(ts, 3, 0), LastValue(ts, 8, 1));
              && r.username == (if u.Some? then u.value else f.username)
              && (if b.Some? then |b.value| == 16 && r.passwordBlock == Some(b.value) else r.passwordBlock == f.passwordBlock)
              && (if m.Some? then |m.value| >= 2 && r.mtu == FromBe16(m.value[0], m.value[1]) else r.mtu == f.mtu)
              && r.encrypt == (if e.Some? then e.value[0] != 0 else f.encrypt)
    decreases |ts|
  {
    if ts != [] {
      var f' := OpenItem(f, ts[0]);
      if f'.Some? {
        FieldsAreTheLast(f'.value, ts[1..]);
        assert forall k | 0 <= k < |ts| - 1 :: ts[1..][k] == ts[k + 1];
      }
    }
  }

  // The server accepts a request exactly when it is signed, its items are well formed and complete, and its MTU is in
  // range.
  lemma AcceptedRequests(h: Hash, packet: Bytes)
    ensures ParseOpen(h, packet).Some? <==>
            && |packet| >= SIGNED_HEADER && packet[0] == OPEN && Verified(h, packet) && ParseTlvs(packet[SIGNED_HEADER..]).Some?
            && var ts := ParseTlvs(packet[SIGNED_HEADER..]).value;
               var (u, m) := (LastValue(ts, 1, 0), LastValue(ts, 3, 0));
               && (forall k | 0 <= k < |ts| :: (ts[k].kind == 2 ==> |ts[k].value| == 16) && (ts[k].kind == 3 ==> |ts[k].value| >= 2))
               && u.Some? && u.value != [] && LastValue(ts, 2, 0).Some?
               && (m.Some? ==> |m.value| >= 2 && 46 <= FromBe16(m.value[0], m.value[1]) <= 1600)
  {
    hide Verified, ParseTlvs, LastValue, OpenItems;
    if |packet| >= SIGNED_HEADER && packet[0] == OPEN && Verified(h, packet) && ParseTlvs(packet[SIGNED_HEADER..]).Some? {
      FieldsAreTheLast(OpenFields([], None, DEFAULT_MTU, packet[1] != 0), ParseTlvs(packet[SIGNED_HEADER..]).value);
    }
  }

  // ----- Which clients are accepted -----

  // The server knows the user the client is configured for.
  ghost predicate Registered(c: Normalized, g: Client.ClientConfig)
  {
    g.username in c.users && c.users[g.username].password == g.password
  }

  // It does, and cannot tell the two passwords apart: they agree once padded with zeros and cut to sixteen bytes.
  ghost predicate Accepted(c: Normalized, g: Client.ClientConfig)
  {
    g.username in c.users && SameStart(g.password, c.users[g.username].password)
  }

  // The client's OPEN is accepted exactly then.
  lemma AcceptedCredentials(c: Normalized, h: Hash, g: Client.ClientConfig)
    requires ConfigOk(c, h) && Client.ClientConfigOk(g)
    ensures Authenticated(c, h, Client.OpenPacket(g, h)).Some? <==> Accepted(c, g)
  {
    hide Client.OpenPacket, ParseOpen, Padded, Encrypt, Decrypt;
    ServerReadsOpen(g, h);
    if g.username in c.users {
      var key := h(MAGIC + g.username);
      CipherRoundTrip(key, Padded(g.password));
      CipherRoundTrip(key, Padded(c.users[g.username].password));
      SamePadding(g.password, c.users[g.username].password);
    }
  }

  // Passwords of at most sixteen bytes, without zeros, are accepted for each other only when they are equal.
  lemma ShortPasswordsExact(c: Normalized, h: Hash, g: Client.ClientConfig)
    requires ConfigOk(c, h) && Client.ClientConfigOk(g) && g.username in c.users
    requires
      var password := c.users[g.username].password;
      |g.password| <= 16 && |password| <= 16 && 0 !in g.password && 0 !in password
    ensures Authenticated(c, h, Client.OpenPacket(g, h)).Some? <==> Registered(c, g)
  {
    hide Authenticated, Client.OpenPacket;
    AcceptedCredentials(c, h, g);
    ShortTextsDiffer(g.password, c.users[g.username].password);
  }

  // A server with one user, and a client for it.
  function OneUserServer(h: Hash, password: Bytes): Normalized
  {
    var user: Bytes := [0x75];
    Normalized(DEFAULT_LISTEN, DEFAULT_MTU, [], false, "", NO_ADDRESS, 0, true,
               map[user := User(user, password, [10, 0, 0, 2], true, DerivedKey(h, user, password))])
  }

  function OneUserClient(password: Bytes): Client.ClientConfig
  {
    Client.ClientConfig([0x75], password, Some([192, 0, 2, 1]), 4567, DEFAULT_MTU, 1, 0, 0, [], 0, [])
  }

  // Passwords of seventeen bytes that differ in the last one: the client is accepted although it is not registered.
  lemma LongPasswordsCollide(h: Hash)
    ensures
      var c := OneUserServer(h, seq(16, _ => 0x61) + [0x62]);
      var g := OneUserClient(seq(16, _ => 0x61) + [0x63]);
      && ConfigOk(c, h) && Client.ClientConfigOk(g)
      && Authenticated(c, h, Client.OpenPacket(g, h)).Some? && !Registered(c, g)
  {
    hide DerivedKey, Authenticated, Client.OpenPacket;
    var (p, q) := (seq(16, _ => 0x61) + [0x62], seq(16, _ => 0x61) + [0x63]);
    var (c, g) := (OneUserServer(h, p), OneUserClient(q));
    assert p[16] != q[16];
    assert forall k | 0 <= k < 16 :: ByteAt(p, k) == 0x61 && ByteAt(q, k) == 0x61;
    AcceptedCredentials(c, h, g);
  }

  // ----- Both sides -----

  // Client and server hold the same session: identifiers, address and encryption.
  ghost predicate SameSession(t: Table, k: SessionKey, v: Client.View)
  {
    && k in t && v.state == Client.Established
    && v.token == k.token && v.id == k.id
    && v.terms.peerIp == t[k].user.address
    && (v.terms.encrypt != 0) == t[k].encrypt
  }

  // And the same key.
  ghost predicate Linked(h: Hash, t: Table, k: SessionKey, g: Client.ClientConfig, v: Client.View)
  {
    SameSession(t, k, v) && t[k].user.xorKey == DerivedKey(h, g.username, g.password)
  }

  // An OPEN of an accepted client, answered by the server and read by the client, gives both the same session, and the
  // client's TUN device the assigned address. They are linked exactly when the keys they derive from their passwords,
  // which may differ after the sixteenth byte, are the same.
  lemma HandshakeLinks(c: Normalized, h: Hash, t: Table, remote: Remote, token: Token, id: SessionId,
                       g: Client.ClientConfig, v: Client.View, e: Client.Env)
    requires ConfigOk(c, h) && TableOk(c.users, t)
    requires Client.ClientConfigOk(g) && Accepted(c, g) && v.state == Client.AuthSent && e.tunOk
    ensures
      var k := SessionKey(remote, token, id);
      var user := c.users[g.username];
      var (t', out) := PacketStep(c, h, t, remote, Client.OpenPacket(g, h), token, id);
      && t' == Kept(t, remote, g.username)[k := Info(user, g.encrypt != 0 && user.allowEncrypt, MinMtu(c.mtu, g.mtu))]
      && TableOk(c.users, t')
      && out.Udp? && out.to == remote
      && var (v', effects) := Client.OnRecv(g, h, v, out.packet, e);
         && SameSession(t', k, v')
         && v' == v.(state := Client.Established, terms := v'.terms, token := token, id := id, lastRecv := e.now, echoCounter := 0)
         && (Linked(h, t', k, g, v') <==>
             DerivedKey(h, g.username, g.password) == DerivedKey(h, g.username, user.password))
         && effects == [Client.SetTun(user.address, Client.EffectiveMtu(g, MinMtu(c.mtu, g.mtu)))]
  {
    hide ParseOpen, OpenAck, PasswordBlock, DerivedKey, TableOk, UsersOk, Kept, Padded, Client.WithTerms, Client.OpenPacket;
    AcceptedCredentials(c, h, g);
    ServerReadsOpen(g, h);
    OpenPacketKind(g, h);
    AuthenticatedUser(c, h, Client.OpenPacket(g, h));
    ConfiguredUser(c, h, g.username);
    var user := c.users[g.username];
    var (mtu, encrypt) := (MinMtu(c.mtu, g.mtu), g.encrypt != 0 && user.allowEncrypt);
    ClientReadsAck(h, token, id, mtu, user.address, c.dns, encrypt, v.terms);
    StepKeepsTableOk(c, h, t, remote, Client.OpenPacket(g, h), token, id);
    AckLength(h, token, id, mtu, user.address, c.dns, encrypt);
  }

  // If the TUN device cannot be set up, the client closes the session at once.
  lemma FailedSetupCloses(c: Normalized, h: Hash, t: Table, remote: Remote, token: Token, id: SessionId,
                          g: Client.ClientConfig, v: Client.View, e: Client.Env)
    requires ConfigOk(c, h) && TableOk(c.users, t)
    requires Client.ClientConfigOk(g) && Accepted(c, g) && v.state == Client.AuthSent && !e.tunOk
    ensures
      var out := PacketStep(c, h, t, remote, Client.OpenPacket(g, h), token, id).1;
      && out.Udp?
      && var (v', effects) := Client.OnRecv(g, h, v, out.packet, e);
         v'.state == Client.Closed && effects == []
  {
    hide ParseOpen, OpenAck, PasswordBlock, DerivedKey, TableOk, UsersOk, Kept, Padded, Client.WithTerms, Client.OpenPacket;
    AcceptedCredentials(c, h, g);
    ServerReadsOpen(g, h);
    OpenPacketKind(g, h);
    ConfiguredUser(c, h, g.username);
    var user := c.users[g.username];
    var (mtu, encrypt) := (MinMtu(c.mtu, g.mtu), g.encrypt != 0 && user.allowEncrypt);
    ClientReadsAck(h, token, id, mtu, user.address, c.dns, encrypt, v.terms);
    AckLength(h, token, id, mtu, user.address, c.dns, encrypt);
  }

  lemma OpenPacketKind(g: Client.ClientConfig, h: Hash)
    requires Client.ClientConfigOk(g)
    ensures |Client.OpenPacket(g, h)| >= HEADER && Client.OpenPacket(g, h)[0] == OPEN
  {
  }

  lemma AckLength(h: Hash, token: Token, id: SessionId, mtu: nat, address: Address, dns: seq<Address>, encrypt: bool)
    requires mtu < 0x1_0000
    ensures |OpenAck(h, token, id, mtu, address, dns, encrypt)| >= HEADER
  {
  }

  lemma ConfiguredUser(c: Normalized, h: Hash, username: Bytes)
    requires ConfigOk(c, h) && username in c.users
    ensures
      var user := c.users[username];
      && user.username == username && user.address != NO_ADDRESS && user.xorKey == DerivedKey(h, username, user.password)
  {
  }

  // The TUN MTU is the smaller of the two configured ones exactly when that is at least 68 or is the client's own.
  lemma AgreedMtu(g: Client.ClientConfig, serverMtu: nat)
    ensures
      var smaller := if serverMtu < g.mtu then serverMtu else g.mtu;
      Client.EffectiveMtu(g, MinMtu(serverMtu, g.mtu)) == smaller <==> smaller >= 68 || g.mtu <= serverMtu
  {
  }

  // A server MTU of 60 is announced but not used by a client configured for 1400.
  lemma SmallServerMtuIgnored(g: Client.ClientConfig)
    requires g.mtu == 1400
    ensures MinMtu(60, g.mtu) == 60 && Client.EffectiveMtu(g, MinMtu(60, g.mtu)) == 1400
  {
  }

  // ----- What ends a session -----

  // The packet ends session k at the server: a CLOSE of it, or an OPEN that authenticates and comes from its remote or
  // for its user.
  predicate Displaces(c: Normalized, h: Hash, t: Table, k: SessionKey, remote: Remote, packet: Bytes)
    requires k in t
  {
    |packet| >= HEADER &&
    if packet[0] == OPEN then
      match Authenticated(c, h, packet)
      case None => false
      case Some((user, _)) => Evicted(k, t[k], remote, user.username)
    else packet[0] == CLOSE && Verified(h, packet) && KeyOf(remote, packet) == k
  }

  // Every other packet, from whatever remote, leaves the session and its client linked; one that does end it leaves
  // nothing of it, unless the server draws the same identifiers again.
  lemma LinkedUntilDisplaced(c: Normalized, h: Hash, t: Table, remote: Remote, packet: Bytes, token: Token, id: SessionId,
                             k: SessionKey, g: Client.ClientConfig, v: Client.View)
    requires ConfigOk(c, h) && Linked(h, t, k, g, v)
    ensures
      var t' := PacketStep(c, h, t, remote, packet, token, id).0;
      && (!Displaces(c, h, t, k, remote, packet) ==> Linked(h, t', k, g, v) && t'[k] == t[k])
      && (Displaces(c, h, t, k, remote, packet) && SessionKey(remote, token, id) != k ==> k !in t')
  {
    hide Authenticated, OpenAck, OpenReject, DerivedKey, DataStep, EchoStep, Verified;
  }

  // No packet of the run ends the session.
  ghost predicate Undisturbed(c: Normalized, h: Hash, t: Table, k: SessionKey, datagrams: seq<Routing.Datagram>)
    requires MtuOk(c.mtu)
    decreases |datagrams|
  {
    datagrams == [] ||
    (var d := datagrams[0];
     && k in t && !Displaces(c, h, t, k, d.remote, d.packet)
     && Undisturbed(c, h, PacketStep(c, h, t, d.remote, d.packet, d.token, d.id).0, k, datagrams[1..]))
  }

  // Over every run of packets that do not end it, the session and its client stay linked.
  lemma {:induction false} LinkSurvives(c: Normalized, h: Hash, t: Table, datagrams: seq<Routing.Datagram>,
                                        k: SessionKey, g: Client.ClientConfig, v: Client.View)
    requires ConfigOk(c, h) && Linked(h, t, k, g, v) && Undisturbed(c, h, t, k, datagrams)
    ensures Linked(h, Routing.RunServer(c, h, t, datagrams), k, g, v)
    ensures Routing.RunServer(c, h, t, datagrams)[k] == t[k]
    decreases |datagrams|
  {
    hide PacketStep, Displaces, DerivedKey;
    if datagrams != [] {
      var d := datagrams[0];
      LinkedUntilDisplaced(c, h, t, d.remote, d.packet, d.token, d.id, k, g, v);
      LinkSurvives(c, h, PacketStep(c, h, t, d.remote, d.packet, d.token, d.id).0, datagrams[1..], k, g, v);
    }
  }
}
