/** Single exchanges between a client and the server: refusal, echo and close. */
module Exchanges {
  import opened AesCipher
  import opened Wire
  import opened Protocol
  import opened Config
  import opened Sessions
  import opened Handshake
  import Client = ClientModel
  import ClientRuns

  // An OPEN that does not authenticate changes no session and ends the client's attempt; the next tick resets it.
  lemma RefusalEndsTheAttempt(c: Normalized, h: Hash, t: Table, remote: Remote, packet: Bytes, token: Token, id: SessionId,
                              g: Client.ClientConfig, v: Client.View, e: Client.Env, tick: Client.Env)
    requires ConfigOk(c, h) && Client.ClientConfigOk(g) && v.state == Client.AuthSent
    requires |packet| >= HEADER && packet[0] == OPEN && Authenticated(c, h, packet).None?
    requires v.socketOpen || tick.socketOk
    ensures
      var (t', out) := PacketStep(c, h, t, remote, packet, token, id);
      && t' == t && out == Udp(remote, OpenReject(h))
      && var (v', effects) := Client.OnRecv(g, h, v, out.packet, e);
         && v' == v.(state := Client.Closed) && effects == []
         && Client.Tick(g, h, v', tick) == Client.Reset(h, v'.(socketOpen := true), tick.socketOk)
  {
    hide Authenticated, Signed, DerivedKey, Client.Reset;
    RejectKind(h);
  }

  lemma RejectKind(h: Hash)
    ensures |OpenReject(h)| >= HEADER && OpenReject(h)[0] == OPENREJ
  {
  }

  // The client's echo request, answered by the server, measures the time between sending and receiving.
  lemma EchoMeasuresTime(c: Normalized, h: Hash, t: Table, k: SessionKey, g: Client.ClientConfig, v: Client.View,
                         sent: nat, token: Token, id: SessionId, e: Client.Env)
    requires ConfigOk(c, h) && Linked(h, t, k, g, v) && sent < Pow256(8)
    ensures
      var (t', out) := PacketStep(c, h, t, k.remote, Client.EchoPacket(h, v, sent), token, id);
      && t' == t && out.Udp? && out.to == k.remote && ClientRuns.IsEchoAnswer(h, out.packet)
      && out.packet[SIGNED_HEADER..] == Client.EchoPacket(h, v, sent)[SIGNED_HEADER..]
      && var (v', effects) := Client.OnRecv(g, h, v, out.packet, e);
         effects == [] && v'.lastRecv == e.now && v'.curDelay == (e.usec - sent) % TWO32
  {
    hide Signed, DerivedKey, LittleEndian, FromLittleEndian;
    LittleEndianRoundTrip(sent, 8);
    var request := Client.EchoPacket(h, v, sent);
    assert request[2..4] == request[..8][2..4] && request[4..8] == request[..8][4..8];
    assert KeyOf(k.remote, request) == k;
    var answer := EchoResp(h, request[2..4], request[4..8], request[SIGNED_HEADER..]);
    assert request[0] == request[..8][0] && answer[0] == answer[..8][0];
    assert answer[24..32] == answer[24..][..8] == LittleEndian(sent, 8);
  }

  // The client's CLOSE removes its session and no other.
  lemma CloseRemovesTheSession(c: Normalized, h: Hash, t: Table, k: SessionKey, g: Client.ClientConfig, v: Client.View,
                               token: Token, id: SessionId)
    requires ConfigOk(c, h) && Linked(h, t, k, g, v)
    ensures PacketStep(c, h, t, k.remote, Client.ClosePacket(h, v), token, id) == (t - {k}, Nothing)
  {
    hide Signed, DerivedKey;
    var packet := Client.ClosePacket(h, v);
    assert packet[0] == packet[..8][0] && packet[2..4] == packet[..8][2..4] && packet[4..8] == packet[..8][4..8];
  }

  // Echo requests and CLOSEs that are not signed or belong to no session, data without payload or for no session, and unknown kinds of
  // packets: the server does nothing. An OPEN that is not signed is refused.
  lemma ServerIgnoresStrays(c: Normalized, h: Hash, t: Table, remote: Remote, packet: Bytes, token: Token, id: SessionId)
    requires ConfigOk(c, h) && |packet| >= HEADER && (packet[0] != OPEN || !Verified(h, packet))
    requires
      var known := SessionKey(remote, packet[2..4], packet[4..8]) in t;
      && ((packet[0] == ECHOREQ || packet[0] == CLOSE) && Verified(h, packet) ==> !known)
      && (packet[0] == DATA || packet[0] == DATA_ENC ==> !known || |packet| == HEADER)
    ensures PacketStep(c, h, t, remote, packet, token, id) == (t, if packet[0] == OPEN then Udp(remote, OpenReject(h)) else Nothing)
  {
    hide Verified, ParseTlvs, OpenReject;
    if packet[0] == CLOSE && Verified(h, packet) {
      assert t - {KeyOf(remote, packet)} == t;
    }
  }
}
