/** What goes in at one end of the tunnel comes out at the other. */
module Tunnel {
  import opened Wire
  import opened Protocol
  import opened Config
  import opened Ipv4
  import opened Sessions
  import opened Handshake
  import Client = ClientModel
  import ClientRuns
  import Routing

  // The largest payload a TUN read leaves room for.
  const MAX_PAYLOAD := 2040

  // What a linked client sends for a payload is what the server's session decodes to that payload.
  lemma ServerDecodes(h: Hash, t: Table, k: SessionKey, g: Client.ClientConfig, v: Client.View, payload: Bytes)
    requires Linked(h, t, k, g, v) && payload != []
    ensures
      var effects := Client.OnTunRead(g, h, v, payload);
      && |effects| == 1 && effects[0].ToServer?
      && var packet := effects[0].packet;
         && |packet| == HEADER + |payload| && (packet[0] == DATA || packet[0] == DATA_ENC)
         && KeyOf(k.remote, packet) == k
         && Payload(OutboundOf(k, t[k]), packet) == Some(payload)
  {
    hide XorData, DerivedKey;
    var key := DerivedKey(h, g.username, g.password);
    XorDataTwice(key, payload);
    var packet := Client.OnTunRead(g, h, v, payload)[0].packet;
    assert packet[..HEADER] == Header(packet[0], packet[1], v.token, v.id);
    assert packet[2..4] == packet[..HEADER][2..4] && packet[4..8] == packet[..HEADER][4..8];
    assert packet[HEADER..] == if v.terms.encrypt != 0 then XorData(key, payload) else payload;
  }

  // What the server frames for a session is what the linked client writes to its TUN device.
  lemma ClientDecodes(h: Hash, t: Table, k: SessionKey, g: Client.ClientConfig, v: Client.View, payload: Bytes, e: Client.Env)
    requires Linked(h, t, k, g, v) && 1 <= |payload| <= MAX_PAYLOAD
    ensures
      var out := Framed(OutboundOf(k, t[k]), payload);
      out.to == k.remote && Client.OnRecv(g, h, v, out.packet, e) == (v.(lastRecv := e.now), [Client.ToTun(payload)])
  {
    hide XorData, DerivedKey;
    var to := OutboundOf(k, t[k]);
    XorDataTwice(to.xorKey, payload);
    var packet := Framed(to, payload).packet;
    assert packet[HEADER..] == if to.encrypt then XorData(to.xorKey, payload) else payload;
  }

  // The packet may be routed from the session: in exit mode it fills its buffer and has the sender's own address,
  // unless strict source is off.
  ghost predicate MaySend(c: Normalized, s: Info, payload: Bytes)
  {
    && WellFormed(payload)
    && (c.exitEnabled ==>
          && FromBe16(payload[2], payload[3]) == |payload|
          && (c.strictSource ==> payload[12..16] == s.user.address))
  }

  // An IPv4 packet read from client a's TUN device is written byte for byte to the TUN device of the client that holds
  // its destination address, bytes 16 to 19, whichever of the two sessions are encrypted, with and without exit mode.
  lemma TunnelIsTransparent(c: Normalized, h: Hash, t: Table,
                            ka: SessionKey, ga: Client.ClientConfig, va: Client.View,
                            kb: SessionKey, gb: Client.ClientConfig, vb: Client.View,
                            payload: Bytes, e: Client.Env)
    requires ConfigOk(c, h) && TableOk(c.users, t)
    requires Linked(h, t, ka, ga, va) && Linked(h, t, kb, gb, vb)
    requires |payload| <= MAX_PAYLOAD && MaySend(c, t[ka], payload)
    requires payload[16..20] == vb.terms.peerIp
    ensures
      var sent := Client.OnTunRead(ga, h, va, payload);
      && |sent| == 1 && sent[0].ToServer? && |sent[0].packet| >= HEADER
      && var out := DataStep(c, t, ka.remote, sent[0].packet);
         && out.Udp? && out.to == kb.remote
         && Client.OnRecv(gb, h, vb, out.packet, e) == (vb.(lastRecv := e.now), [Client.ToTun(payload)])
  {
    hide XorData, DerivedKey, Client.OnTunRead, Client.OnRecv, DataPacket, ParseIpv4;
    ParsesExactly(payload);
    assert payload[..|payload|] == payload;
    ServerDecodes(h, t, ka, ga, va, payload);
    ClientDecodes(h, t, kb, gb, vb, payload, e);
    HolderIs(c, h, t, kb, vb.terms.peerIp);
  }

  // In exit mode, what goes to the exit device is exactly that: a packet that may be sent, to an address nobody holds.
  lemma UnheldGoesToDevice(c: Normalized, h: Hash, t: Table, k: SessionKey, g: Client.ClientConfig, v: Client.View, payload: Bytes)
    requires ConfigOk(c, h) && TableOk(c.users, t) && Linked(h, t, k, g, v) && payload != []
    ensures
      var sent := Client.OnTunRead(g, h, v, payload);
      && |sent| == 1 && sent[0].ToServer? && |sent[0].packet| >= HEADER
      && var out := DataStep(c, t, k.remote, sent[0].packet);
         && (out.Device? <==>
             && c.exitEnabled && WellFormed(payload)
             && (c.strictSource ==> payload[12..16] == t[k].user.address)
             && Holder(t, payload[16..20]).None?)
         && (out.Device? ==> out.packet == payload[..FromBe16(payload[2], payload[3])])
  {
    hide XorData, DerivedKey, Client.OnTunRead, DataPacket, ParseIpv4;
    ParsesExactly(payload);
    ServerDecodes(h, t, k, g, v, payload);
  }

  // A DATA packet of the other kind than the session's is dropped.
  lemma WrongKindIsDropped(c: Normalized, t: Table, remote: Remote, packet: Bytes)
    requires |packet| > HEADER && KeyOf(remote, packet) in t
    requires (packet[0] == DATA_ENC) != t[KeyOf(remote, packet)].encrypt
    ensures DataStep(c, t, remote, packet) == Nothing
  {
  }

  lemma HolderIs(c: Normalized, h: Hash, t: Table, k: SessionKey, a: Address)
    requires ConfigOk(c, h) && TableOk(c.users, t) && Owns(t, k, a)
    ensures Holder(t, a) == Some(OutboundOf(k, t[k]))
  {
    OneHolder(h, c.users, t, Holder(t, a).value.key, k, a);
  }

  // A packet that comes back from the exit device reaches the TUN device of the client it is addressed to.
  lemma ReturnTrafficArrives(c: Normalized, h: Hash, t: Table, k: SessionKey, g: Client.ClientConfig, v: Client.View,
                             payload: Bytes, e: Client.Env)
    requires ConfigOk(c, h) && TableOk(c.users, t) && Linked(h, t, k, g, v)
    requires |payload| <= MAX_PAYLOAD && WellFormed(payload) && payload[16..20] == v.terms.peerIp
    ensures
      var out := ExitStep(t, payload);
      && out.Udp? && out.to == k.remote
      && Client.OnRecv(g, h, v, out.packet, e) ==
         (v.(lastRecv := e.now), [Client.ToTun(payload[..FromBe16(payload[2], payload[3])])])
  {
    hide XorData, DerivedKey, Client.OnRecv, DataPacket, ParseIpv4;
    ParsesExactly(payload);
    ClientDecodes(h, t, k, g, v, payload[..FromBe16(payload[2], payload[3])], e);
    HolderIs(c, h, t, k, v.terms.peerIp);
  }

  // Without exit mode, a packet for an address nobody holds comes back to its sender unchanged.
  lemma EchoedToSender(c: Normalized, h: Hash, t: Table, k: SessionKey, g: Client.ClientConfig, v: Client.View,
                       payload: Bytes, e: Client.Env)
    requires ConfigOk(c, h) && TableOk(c.users, t) && Linked(h, t, k, g, v) && !c.exitEnabled
    requires 1 <= |payload| <= MAX_PAYLOAD
    requires WellFormed(payload) ==> Holder(t, payload[16..20]).None?
    ensures
      var sent := Client.OnTunRead(g, h, v, payload);
      && |sent| == 1 && sent[0].ToServer?
      && var out := DataStep(c, t, k.remote, sent[0].packet);
         && out.Udp? && out.to == k.remote
         && Client.OnRecv(g, h, v, out.packet, e) == (v.(lastRecv := e.now), [Client.ToTun(payload)])
  {
    hide XorData, DerivedKey, Client.OnTunRead, Client.OnRecv, DataPacket, ParseIpv4;
    ParsesExactly(payload);
    ServerDecodes(h, t, k, g, v, payload);
    ClientDecodes(h, t, k, g, v, payload, e);
  }

  // The tick that begins a client's attempt, its OPEN handled by the server, and the answer handled by the client.
  ghost function Connect(c: Normalized, h: Hash, t: Table, remote: Remote, token: Token, id: SessionId,
                         g: Client.ClientConfig, v: Client.View, tick: Client.Env, e: Client.Env): (Table, Client.View)
    requires MtuOk(c.mtu) && Client.Loaded(g)
  {
    var (v1, sent) := Client.Tick(g, h, v, tick);
    if |sent| != 1 || !sent[0].ToServer? then (t, v1)
    else
      var (t', out) := PacketStep(c, h, t, remote, sent[0].packet, token, id);
      (t', if out.Udp? && out.to == remote then Client.OnRecv(g, h, v1, out.packet, e).0 else v1)
  }

  // A client that is about to begin an attempt, and an environment for the tick that begins it.
  ghost predicate Ready(v: Client.View, tick: Client.Env)
  {
    v.state == Client.IpReady && (v.socketOpen || tick.socketOk) && 2 <= tick.now < TWO32
  }

  lemma ConnectLinks(c: Normalized, h: Hash, t: Table, remote: Remote, token: Token, id: SessionId,
                     g: Client.ClientConfig, v: Client.View, tick: Client.Env, e: Client.Env)
    requires ConfigOk(c, h) && TableOk(c.users, t)
    requires Client.ClientConfigOk(g) && Registered(c, g) && Ready(v, tick) && e.tunOk
    ensures
      var k := SessionKey(remote, token, id);
      var (t', v') := Connect(c, h, t, remote, token, id, g, v, tick, e);
      && t' == PacketStep(c, h, t, remote, Client.OpenPacket(g, h), token, id).0
      && TableOk(c.users, t') && Linked(h, t', k, g, v') && t'[k].user == c.users[g.username]
  {
    hide PacketStep, Client.OnRecv, Client.OpenPacket, Client.Tick, TableOk, UsersOk, Padded, DerivedKey, Client.EffectiveMtu,
         MinMtu, Kept;
    ClientRuns.FirstTick(g, h, v, tick);
    HandshakeLinks(c, h, t, remote, token, id, g, Client.Tick(g, h, v, tick).0, e);
  }

  // A payload read by one client, passed through the server and handled by the other: what that one does.
  ghost function Transmit(c: Normalized, h: Hash, t: Table, from: Remote, ga: Client.ClientConfig, va: Client.View,
                          to: Remote, gb: Client.ClientConfig, vb: Client.View, payload: Bytes, e: Client.Env): seq<Client.Effect>
  {
    var sent := Client.OnTunRead(ga, h, va, payload);
    if |sent| != 1 || !sent[0].ToServer? || |sent[0].packet| < HEADER then []
    else
      var out := DataStep(c, t, from, sent[0].packet);
      if out.Udp? && out.to == to then Client.OnRecv(gb, h, vb, out.packet, e).1 else []
  }

  // From two unconnected clients to a delivered packet: both begin an attempt and authenticate, in turn and each at its
  // own times; other packets reach the server that do not end the two sessions; and then what the first client reads
  // from its TUN device is what the second writes to its own.
  lemma EndToEnd(c: Normalized, h: Hash, t: Table,
                 ra: Remote, tokenA: Token, idA: SessionId, ga: Client.ClientConfig, va: Client.View, tickA: Client.Env, ackA: Client.Env,
                 rb: Remote, tokenB: Token, idB: SessionId, gb: Client.ClientConfig, vb: Client.View, tickB: Client.Env, ackB: Client.Env,
                 traffic: seq<Routing.Datagram>, payload: Bytes, e: Client.Env)
    requires ConfigOk(c, h) && TableOk(c.users, t)
    requires Client.ClientConfigOk(ga) && Registered(c, ga) && Ready(va, tickA) && ackA.tunOk
    requires Client.ClientConfigOk(gb) && Registered(c, gb) && Ready(vb, tickB) && ackB.tunOk
    requires ra != rb && ga.username != gb.username
    requires
      var t1 := Connect(c, h, t, ra, tokenA, idA, ga, va, tickA, ackA).0;
      var t2 := Connect(c, h, t1, rb, tokenB, idB, gb, vb, tickB, ackB).0;
      && Undisturbed(c, h, t2, SessionKey(ra, tokenA, idA), traffic)
      && Undisturbed(c, h, t2, SessionKey(rb, tokenB, idB), traffic)
    requires |payload| <= MAX_PAYLOAD && WellFormed(payload) && payload[16..20] == c.users[gb.username].address
    requires c.exitEnabled ==>
               && FromBe16(payload[2], payload[3]) == |payload|
               && (c.strictSource ==> payload[12..16] == c.users[ga.username].address)
    ensures
      var (t1, va') := Connect(c, h, t, ra, tokenA, idA, ga, va, tickA, ackA);
      var (t2, vb') := Connect(c, h, t1, rb, tokenB, idB, gb, vb, tickB, ackB);
      var t3 := Routing.RunServer(c, h, t2, traffic);
      Transmit(c, h, t3, ra, ga, va', rb, gb, vb', payload, e) == [Client.ToTun(payload)]
  {
    hide PacketStep, DataStep, WellFormed, Client.OnRecv, Client.OnTunRead, Client.OpenPacket, TableOk, UsersOk, Linked, Connect,
         Ready, Undisturbed, Routing.RunServer;
    var (ka, kb) := (SessionKey(ra, tokenA, idA), SessionKey(rb, tokenB, idB));
    ConnectLinks(c, h, t, ra, tokenA, idA, ga, va, tickA, ackA);
    var (t1, va') := Connect(c, h, t, ra, tokenA, idA, ga, va, tickA, ackA);
    ConnectLinks(c, h, t1, rb, tokenB, idB, gb, vb, tickB, ackB);
    var (t2, vb') := Connect(c, h, t1, rb, tokenB, idB, gb, vb, tickB, ackB);
    ConfiguredUser(c, h, ga.username);
    LinkedAddress(h, t1, ka, ga, va');
    SecondKeepsFirst(c, h, t1, ka, ga, va', rb, tokenB, idB, gb);
    LinkSurvives(c, h, t2, traffic, ka, ga, va');
    LinkSurvives(c, h, t2, traffic, kb, gb, vb');
    Routing.RunsKeepSessionsUnique(c, h, t2, traffic);
    var t3 := Routing.RunServer(c, h, t2, traffic);
    LinkedAddress(h, t2, ka, ga, va');
    LinkedAddress(h, t3, ka, ga, va');
    LinkedAddress(h, t3, kb, gb, vb');
    TunnelIsTransparent(c, h, t3, ka, ga, va', kb, gb, vb', payload, e);
  }

  lemma LinkedAddress(h: Hash, t: Table, k: SessionKey, g: Client.ClientConfig, v: Client.View)
    requires Linked(h, t, k, g, v)
    ensures k in t && v.terms.peerIp == t[k].user.address
  {
  }

  // The handshake of another registered client, from another remote, leaves a linked pair linked.
  lemma SecondKeepsFirst(c: Normalized, h: Hash, t: Table, k: SessionKey, g: Client.ClientConfig, v: Client.View,
                         remote: Remote, token: Token, id: SessionId, g': Client.ClientConfig)
    requires ConfigOk(c, h) && Linked(h, t, k, g, v) && remote != k.remote
    requires Client.ClientConfigOk(g') && g'.username in c.users && t[k].user.username != g'.username
    ensures
      var t' := PacketStep(c, h, t, remote, Client.OpenPacket(g', h), token, id).0;
      Linked(h, t', k, g, v) && t'[k] == t[k]
  {
    hide Client.OpenPacket, ParseOpen, PasswordBlock, DerivedKey, PasswordMatches, Linked, PacketStep;
    LinkedAddress(h, t, k, g, v);
    OpenPacketKind(g', h);
    ServerReadsOpen(g', h);
    ConfiguredUser(c, h, g'.username);
    LinkedUntilDisplaced(c, h, t, remote, Client.OpenPacket(g', h), token, id, k, g, v);
  }
}
