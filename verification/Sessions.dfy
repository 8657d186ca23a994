/** What the server does with its sessions, as functions on one table (the specification of server/server.go). */
module Sessions {
  import opened AesCipher
  import opened Wire
  import opened Protocol
  import opened Config
  import opened Ipv4

  datatype Remote = Remote(ip: Bytes, port: nat)

  datatype SessionKey = SessionKey(remote: Remote, token: Token, id: SessionId)

  datatype Info = Info(user: User, encrypt: bool, mtu: nat)

  type Table = map<SessionKey, Info>

  // What is copied out of a session while the lock is held.
  datatype Outbound = Outbound(key: SessionKey, encrypt: bool, xorKey: XorKey, address: Address)

  datatype Output = Nothing | Udp(to: Remote, packet: Bytes) | Device(packet: Bytes)

  function OutboundOf(k: SessionKey, s: Info): Outbound
  {
    Outbound(k, s.encrypt, s.user.xorKey, s.user.address)
  }

  // ----- The table -----

  // Every session belongs to a configured user, and there is at most one for each remote and each user name.
  ghost predicate TableOk(users: map<Bytes, User>, t: Table)
  {
    && (forall k | k in t :: t[k].user.username in users && users[t[k].user.username] == t[k].user && t[k].mtu < 0x1_0000)
    && (forall j, k | j in t && k in t && j.remote == k.remote :: j == k)
    && (forall j, k | j in t && k in t && t[j].user.username == t[k].user.username :: j == k)
  }

  ghost predicate Owns(t: Table, k: SessionKey, a: Address)
  {
    k in t && t[k].user.address == a
  }

  // The session that holds an address.
  ghost function Holder(t: Table, a: Address): (r: Option<Outbound>)
    ensures r.Some? ==> Owns(t, r.value.key, a) && r.value == OutboundOf(r.value.key, t[r.value.key])
    ensures r.None? ==> forall k :: !Owns(t, k, a)
  {
    if k :| Owns(t, k, a) then Some(OutboundOf(k, t[k])) else None
  }

  lemma SubTableOk(users: map<Bytes, User>, t: Table, t': Table)
    requires TableOk(users, t) && forall k | k in t' :: k in t && t'[k] == t[k]
    ensures TableOk(users, t')
  {
  }

  // Addresses have one holder, because no two users share one.
  lemma OneHolder(h: Hash, users: map<Bytes, User>, t: Table, j: SessionKey, k: SessionKey, a: Address)
    requires UsersOk(h, users) && TableOk(users, t) && Owns(t, j, a) && Owns(t, k, a)
    ensures j == k
  {
  }

  predicate Evicted(k: SessionKey, s: Info, remote: Remote, username: Bytes)
  {
    k.remote == remote || s.user.username == username
  }

  function Kept(t: Table, remote: Remote, username: Bytes): Table
  {
    map k | k in t && !Evicted(k, t[k], remote, username) :: t[k]
  }

  lemma KeptTableOk(users: map<Bytes, User>, t: Table, remote: Remote, username: Bytes)
    requires TableOk(users, t)
    ensures TableOk(users, Kept(t, remote, username))
  {
  }

  // A session put in place of those of its remote and user.
  lemma InsertedTableOk(users: map<Bytes, User>, t: Table, k: SessionKey, s: Info)
    requires TableOk(users, t) && s.mtu < 0x1_0000
    requires s.user.username in users && users[s.user.username] == s.user
    ensures k !in Kept(t, k.remote, s.user.username)
    ensures TableOk(users, Kept(t, k.remote, s.user.username)[k := s])
  {
  }

  // ----- OPEN, ECHO and CLOSE -----

  // The user an OPEN packet authenticates as.
  function Authenticated(c: Normalized, h: Hash, packet: Bytes): Option<(User, OpenRequest)>
  {
    match ParseOpen(h, packet)
    case None => None
    case Some(request) =>
      if request.username !in c.users then None
      else
        var user := c.users[request.username];
        if PasswordMatches(h, user.username, user.password, request.passwordBlock) then Some((user, request)) else None
  }

  function MinMtu(a: nat, b: nat): nat
  {
    if b < a then b else a
  }

  function OpenStep(c: Normalized, h: Hash, t: Table, remote: Remote, packet: Bytes, token: Token, id: SessionId): (Table, Output)
    requires MtuOk(c.mtu)
  {
    match Authenticated(c, h, packet)
    case None => (t, Udp(remote, OpenReject(h)))
    case Some((user, request)) =>
      var info := Info(user, request.encrypt && user.allowEncrypt, MinMtu(c.mtu, request.mtu));
      (Kept(t, remote, user.username)[SessionKey(remote, token, id) := info],
       Udp(remote, OpenAck(h, token, id, info.mtu, user.address, c.dns, info.encrypt)))
  }

  function KeyOf(remote: Remote, packet: Bytes): SessionKey
    requires |packet| >= HEADER
  {
    SessionKey(remote, packet[2..4], packet[4..8])
  }

  function EchoStep(h: Hash, t: Table, remote: Remote, packet: Bytes): Output
    requires |packet| >= HEADER
  {
    if Verified(h, packet) && KeyOf(remote, packet) in t then
      Udp(remote, EchoResp(h, packet[2..4], packet[4..8], packet[SIGNED_HEADER..]))
    else Nothing
  }

  function CloseStep(h: Hash, t: Table, remote: Remote, packet: Bytes): Table
    requires |packet| >= HEADER
  {
    if Verified(h, packet) then t - {KeyOf(remote, packet)} else t
  }

  // ----- DATA -----

  // The payload of a DATA or DATA_ENC packet, if its kind is the one the session uses.
  function Payload(source: Outbound, packet: Bytes): Option<Bytes>
    requires |packet| >= HEADER
  {
    if (packet[0] == DATA_ENC) != source.encrypt then None
    else if source.encrypt then Some(XorData(source.xorKey, packet[HEADER..]))
    else Some(packet[HEADER..])
  }

  // The IPv4 packet to route, if there is one and its sender may send it.
  function Routable(c: Normalized, source: Outbound, payload: Bytes): Option<Ipv4Packet>
  {
    match ParseIpv4(payload)
    case None => None
    case Some(p) => if c.exitEnabled && c.strictSource && p.source != source.address then None else Some(p)
  }

  function Framed(to: Outbound, payload: Bytes): Output
  {
    Udp(to.key.remote, DataPacket(to.key.token, to.key.id, payload, to.encrypt, to.xorKey))
  }

  // What becomes of a payload, given the holder of its destination when it is routable.
  function Forward(c: Normalized, source: Outbound, payload: Bytes, target: Option<Outbound>): Output
  {
    match Routable(c, source, payload)
    case Some(p) =>
      var carried := if c.exitEnabled then p.packet else payload;
      if target.Some? then Framed(target.value, carried)
      else if c.exitEnabled then Device(carried)
      else Framed(source, payload)
    case None =>
      if c.exitEnabled then Nothing else Framed(source, payload)
  }

  ghost function DataStep(c: Normalized, t: Table, remote: Remote, packet: Bytes): Output
    requires |packet| >= HEADER
  {
    var key := KeyOf(remote, packet);
    if |packet| == HEADER || key !in t then Nothing
    else
      var source := OutboundOf(key, t[key]);
      match Payload(source, packet)
      case None => Nothing
      case Some(payload) =>
        var p := Routable(c, source, payload);
        Forward(c, source, payload, if p.Some? then Holder(t, p.value.destination) else None)
  }

  // A packet read from the exit device.
  ghost function ExitStep(t: Table, payload: Bytes): Output
  {
    match ParseIpv4(payload)
    case None => Nothing
    case Some(p) =>
      match Holder(t, p.destination)
      case None => Nothing
      case Some(target) => Framed(target, p.packet)
  }

  // ----- Whole packets -----

  ghost function PacketStep(c: Normalized, h: Hash, t: Table, remote: Remote, packet: Bytes, token: Token, id: SessionId): (Table, Output)
    requires MtuOk(c.mtu)
  {
    if |packet| < HEADER then (t, Nothing)
    else if packet[0] == OPEN then OpenStep(c, h, t, remote, packet, token, id)
    else if packet[0] == ECHOREQ then (t, EchoStep(h, t, remote, packet))
    else if packet[0] == CLOSE then (CloseStep(h, t, remote, packet), Nothing)
    else if packet[0] == DATA || packet[0] == DATA_ENC then (t, DataStep(c, t, remote, packet))
    else (t, Nothing)
  }

  ghost predicate ConfigOk(c: Normalized, h: Hash)
  {
    MtuOk(c.mtu) && UsersOk(h, c.users)
  }

  // Whatever arrives and whatever identifiers are drawn, a new session never lands on a live one, and the table keeps
  // at most one session for each remote, user and address.
  lemma StepKeepsTableOk(c: Normalized, h: Hash, t: Table, remote: Remote, packet: Bytes, token: Token, id: SessionId)
    requires ConfigOk(c, h) && TableOk(c.users, t)
    ensures TableOk(c.users, PacketStep(c, h, t, remote, packet, token, id).0)
    ensures |packet| >= HEADER && packet[0] == OPEN && Authenticated(c, h, packet).Some? ==>
              SessionKey(remote, token, id) !in Kept(t, remote, Authenticated(c, h, packet).value.0.username)
  {
    hide OpenAck, OpenReject, ParseOpen, PasswordMatches, UsersOk, TableOk, Kept;
    if Authenticated(c, h, packet).Some? {
      AuthenticatedUser(c, h, packet);
      var (user, request) := Authenticated(c, h, packet).value;
      InsertedTableOk(c.users, t, SessionKey(remote, token, id),
                      Info(user, request.encrypt && user.allowEncrypt, MinMtu(c.mtu, request.mtu)));
    }
    if |packet| >= HEADER {
      SubTableOk(c.users, t, t - {KeyOf(remote, packet)});
    }
  }

  lemma AuthenticatedUser(c: Normalized, h: Hash, packet: Bytes)
    requires ConfigOk(c, h) && Authenticated(c, h, packet).Some?
    ensures
      var user := Authenticated(c, h, packet).value.0;
      user.username in c.users && c.users[user.username] == user
  {
  }
}
