/** The client as a state machine: what each handler of src/iwand.c does to the session and what it sends and writes. */
module ClientModel {
  import opened AesCipher
  import opened Wire
  import opened Fragments
  import opened FragmentTable
  import opened SegmentRouting

  const AUTH_TIMEOUT := 6
  const AUTH_RETRY_INTERVAL := 2
  const DATA_TIMEOUT := 15
  const INITIAL_MIN_DELAY := 5000000

  // The configuration, with texts as bytes. An address is given for a numeric server, none for a domain name.
  datatype ClientConfig = ClientConfig(
    username: Bytes, password: Bytes, server: Option<Address>, port: nat, mtu: nat, encrypt: bv8, pipeid: nat, pipeidx: nat,
    srLinks: seq<Address>, srMode: nat, srPassword: Bytes)

  // What cfg_load and cfg_valid let through.
  ghost predicate ClientConfigOk(g: ClientConfig)
  {
    && 1 <= |g.username| <= 31 && 1 <= |g.password| <= 31
    && 1 <= g.port < 0x1_0000 && 46 <= g.mtu <= 1600 && g.encrypt <= 1 && g.pipeid <= 32767 && g.pipeidx <= 1
    && |g.srLinks| <= 6 && g.srMode <= 2 && |g.srPassword| <= 31
  }

  // The ranges that the packet builders rely on.
  predicate Loaded(g: ClientConfig)
  {
    g.mtu < 0x1_0000 && g.pipeid <= 32767 && g.pipeidx <= 1
  }

  datatype State = NotReady | DnsNeeded | IpReady | AuthSent | Established | Closed

  // The fields that an OPENACK carries.
  datatype Terms = Terms(serverMtu: nat, peerIp: Address, dns0: Address, dns1: Address, dup: bv8, encrypt: bv8)

  datatype View = View(
    state: State, terms: Terms, token: Token, id: SessionId,
    domain: bool, serverAddr: Address, serverPort: nat, socketOpen: bool,
    lastRecv: nat, lastOpen: nat, echoCounter: nat,
    curDelay: nat, minDelay: nat, maxDelay: nat, slots: seq<Slot>)

  datatype Effect = ToServer(packet: Bytes) | ToTun(data: Bytes) | SetTun(address: Address, mtu: nat) | ClearTun

  const NO_TERMS := Terms(0, NO_ADDRESS, NO_ADDRESS, NO_ADDRESS, 0, 0)

  // ----- OPEN -----

  function OpenItems(g: ClientConfig, h: Hash): seq<Tlv>
    requires Loaded(g)
  {
    [Tlv(3, Be16(g.mtu)), Tlv(1, g.username), Tlv(2, PasswordBlock(h, g.username, g.password))]
    + (if g.encrypt != 0 then [Tlv(8, [g.encrypt])] else [])
    + (if g.pipeid != 0 || g.pipeidx != 0 then [Tlv(0x0a, Be16(g.pipeid + 0x8000 * g.pipeidx))] else [])
  }

  function OpenPacket(g: ClientConfig, h: Hash): Bytes
    requires Loaded(g)
  {
    Signed(h, Header(OPEN, g.encrypt, [0, 0], [0, 0, 0, 0]), Serialize(OpenItems(g, h)))
  }

  // ----- OPENACK -----

  function WithTerm(t: Terms, item: Tlv): Terms
  {
    var v, n := item.value, |item.value|;
    if item.kind == 3 && n >= 2 then t.(serverMtu := FromBe16(v[0], v[1]))
    else if item.kind == 4 && n >= 4 then t.(peerIp := v[..4])
    else if item.kind == 5 && n >= 4 then t.(dns0 := v[..4])
    else if item.kind == 6 && n >= 8 then t.(dns0 := v[..4], dns1 := v[4..8])
    else if item.kind == 6 && n >= 4 then t.(dns0 := v[..4])
    else if item.kind == 7 && n >= 1 then t.(dup := v[0])
    else if item.kind == 8 && n >= 1 then t.(encrypt := v[0])
    else t
  }

  function WithTerms(t: Terms, items: seq<Tlv>): Terms
    decreases |items|
  {
    if items == [] then t else WithTerms(WithTerm(t, items[0]), items[1..])
  }

  function EffectiveMtu(g: ClientConfig, serverMtu: nat): nat
  {
    if 68 <= serverMtu < g.mtu then serverMtu else g.mtu
  }

  // A new view, the effects, and whether the packet counts as a sign of life.
  datatype Reaction = Reaction(v: View, effects: seq<Effect>, accepted: bool)

  function OnOpenAck(g: ClientConfig, h: Hash, v: View, packet: Bytes, now: nat, tunOk: bool): Reaction
  {
    if v.state != AuthSent || !Verified(h, packet) then Reaction(v, [], false)
    else
      var terms := WithTerms(v.terms, ItemPrefix(packet[SIGNED_HEADER..]));
      if terms.peerIp == NO_ADDRESS then Reaction(v.(terms := terms), [], false)
      else
        var v' := v.(state := Established, terms := terms, token := packet[2..4], id := packet[4..8],
                     lastRecv := now, echoCounter := 0);
        if tunOk then Reaction(v', [SetTun(terms.peerIp, EffectiveMtu(g, terms.serverMtu))], true)
        else Reaction(v'.(state := Closed), [], false)
  }

  // ----- The other packets -----

  function OnData(key: XorKey, v: View, packet: Bytes): Reaction
    requires |packet| >= HEADER
  {
    if v.state != Established || |packet| <= HEADER || |packet| > HEADER + PACKET_BUFFER then Reaction(v, [], false)
    else
      var payload := packet[HEADER..];
      Reaction(v, [ToTun(if packet[0] == DATA_ENC then XorData(key, payload) else payload)], true)
  }

  // The clock counts microseconds in 64 bits; the delay keeps the low 32.
  function OnEchoResp(h: Hash, v: View, packet: Bytes, usec: nat): Reaction
  {
    if v.state != Established || !Verified(h, packet) then Reaction(v, [], false)
    else if |packet| < SIGNED_HEADER + 8 then Reaction(v, [], true)
    else
      var delay := Elapsed(usec, FromLittleEndian(packet[24..32]));
      Reaction(v.(curDelay := delay,
                  maxDelay := if delay > v.maxDelay then delay else v.maxDelay,
                  minDelay := if delay < v.minDelay then delay else v.minDelay), [], true)
  }

  function OnClose(h: Hash, v: View, packet: Bytes): Reaction
  {
    if v.state != Established || !Verified(h, packet) then Reaction(v, [], false)
    else Reaction(v.(state := Closed), [], true)
  }

  function OnOpenRej(v: View): Reaction
  {
    Reaction(if v.state == AuthSent then v.(state := Closed) else v, [], false)
  }

  function OnIpfrag(key: XorKey, v: View, packet: Bytes, now: nat): Reaction
  {
    if v.state != Established then Reaction(v, [], false)
    else
      var (slots, written, accepted) := IpfragStep(v.slots, packet, v.terms.encrypt != 0, key, now);
      Reaction(v.(slots := slots), if written.Some? then [ToTun(written.value)] else [], accepted)
  }

  function OnSegrt(g: ClientConfig, key: XorKey, v: View, packet: Bytes, now: nat): Reaction
  {
    if v.state != Established then Reaction(v, [], false)
    else
      match Inner(|g.srLinks|, EffectiveMode(|g.srLinks|, g.srMode), SrKey(g.srPassword, g.srLinks), packet)
      case None => Reaction(v, [], false)
      case Some(inner) =>
        if inner[0] == IPFRAG_SR then OnIpfrag(key, v, inner, now)
        else if (inner[0] != DATA && inner[0] != DATA_ENC) || |inner| <= HEADER then Reaction(v, [], false)
        else
          var payload := inner[HEADER..];
          Reaction(v, [ToTun(if inner[0] == DATA_ENC then XorData(key, payload) else payload)], true)
  }

  // Everything from outside that a step depends on. The clocks are read once a step.
  datatype Env = Env(now: nat, usec: nat, tunOk: bool, socketOk: bool, resolved: Option<Address>)

  function Dispatch(g: ClientConfig, h: Hash, v: View, packet: Bytes, e: Env): Reaction
    requires |packet| >= HEADER
  {
    var key := DerivedKey(h, g.username, g.password);
    if packet[0] == DATA || packet[0] == DATA_ENC then OnData(key, v, packet)
    else if packet[0] == OPENACK then OnOpenAck(g, h, v, packet, e.now, e.tunOk)
    else if packet[0] == OPENREJ then OnOpenRej(v)
    else if packet[0] == ECHORESP then OnEchoResp(h, v, packet, e.usec)
    else if packet[0] == CLOSE then OnClose(h, v, packet)
    else if packet[0] == IPFRAG then OnIpfrag(key, v, packet, e.now)
    else if packet[0] == SEGRT then OnSegrt(g, key, v, packet, e.now)
    else Reaction(v, [], false)
  }

  // A packet from the server; only accepted ones count as a sign of life.
  function OnRecv(g: ClientConfig, h: Hash, v: View, packet: Bytes, e: Env): (View, seq<Effect>)
  {
    if |packet| < HEADER then (v, [])
    else
      var r := Dispatch(g, h, v, packet, e);
      (if r.accepted then r.v.(lastRecv := e.now) else r.v, r.effects)
  }

  // A read from the TUN device.
  function OnTunRead(g: ClientConfig, h: Hash, v: View, data: Bytes): seq<Effect>
  {
    if |data| == 0 || v.state != Established then []
    else if v.terms.encrypt != 0 then
      [ToServer(Header(DATA_ENC, v.terms.encrypt, v.token, v.id) + XorData(DerivedKey(h, g.username, g.password), data))]
    else
      [ToServer(Header(DATA, 0, v.token, v.id) + data)]
  }

  // ----- Reset and timer -----

  function ClosePacket(h: Hash, v: View): Bytes
  {
    Signed(h, Header(CLOSE, 0, v.token, v.id), [])
  }

  function Reset(h: Hash, v: View, socketOk: bool): (View, seq<Effect>)
  {
    (View(if v.domain then DnsNeeded else IpReady, NO_TERMS, [0, 0], [0, 0, 0, 0],
          v.domain, v.serverAddr, v.serverPort, socketOk, 0, 0, 0, 0, INITIAL_MIN_DELAY, 0, FreedSlots(v.slots)),
     if v.state == Established && v.socketOpen then [ToServer(ClosePacket(h, v)), ClearTun]
     else if v.state == Established || v.state == Closed then [ClearTun]
     else [])
  }

  function EchoPacket(h: Hash, v: View, usec: nat): Bytes
  {
    Signed(h, Header(ECHOREQ, 0, v.token, v.id),
           LittleEndian(usec, 8) + LittleEndian(v.curDelay, 4) + LittleEndian(v.minDelay, 4) + LittleEndian(v.maxDelay, 4)
           + [0, 0, 0, 0] + [0x54, 0x44, 0x52, 0] + [0, 0, 0, 0] + [0, 0, 0, 0])
  }

  // Waiting for the answer to an OPEN: give up, repeat it, or wait on.
  function AuthTick(g: ClientConfig, h: Hash, v: View, e: Env): (View, seq<Effect>)
    requires Loaded(g)
  {
    if Elapsed(e.now, v.lastRecv) > AUTH_TIMEOUT then Reset(h, v, e.socketOk)
    else if Elapsed(e.now, v.lastOpen) >= AUTH_RETRY_INTERVAL then (v.(lastOpen := e.now), [ToServer(OpenPacket(g, h))])
    else (v, [])
  }

  function Tick(g: ClientConfig, h: Hash, v: View, e: Env): (View, seq<Effect>)
    requires Loaded(g)
  {
    if !v.socketOpen && !e.socketOk then (v, [])
    else
      var v := v.(socketOpen := true);
      match v.state
      case NotReady => (v, [])
      case DnsNeeded =>
        // Resolving a numeric server cannot fail; a name may have no address.
        if g.server.Some? then (v.(state := IpReady, serverAddr := g.server.value, domain := false), [])
        else if e.resolved.Some? then (v.(state := IpReady, serverAddr := e.resolved.value, domain := true), [])
        else (v.(domain := true), [])
      case IpReady =>
        AuthTick(g, h, v.(state := AuthSent, serverPort := g.port, lastRecv := e.now, lastOpen := 0), e)
      case AuthSent => AuthTick(g, h, v, e)
      case Established =>
        if Elapsed(e.now, v.lastRecv) > DATA_TIMEOUT then Reset(h, v, e.socketOk)
        else
          var v := v.(echoCounter := (v.echoCounter + 1) % TWO32);
          (v, if v.echoCounter % 2 == 0 then [ToServer(EchoPacket(h, v, e.usec))] else [])
      case Closed => Reset(h, v, e.socketOk)
  }

  // The state in which the main loop starts, after one attempt to resolve the server.
  function Start(g: ClientConfig, resolved: Option<Address>): View
  {
    var addr := if g.server.Some? then g.server else resolved;
    View(if addr.Some? then IpReady else DnsNeeded, NO_TERMS, [0, 0], [0, 0, 0, 0],
         g.server.None?, if addr.Some? then addr.value else NO_ADDRESS, g.port, true,
         0, 0, 0, 0, INITIAL_MIN_DELAY, 0, NoSlots())
  }
}
