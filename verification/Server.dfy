/** The server's two session maps and the handlers that update them (server/server.go). */
module Server {
  import opened AesCipher
  import opened Wire
  import opened Protocol
  import opened Config
  import opened Ipv4
  import opened Sessions

  class Session {
    const key: SessionKey
    const user: User
    const remote: Remote
    const encrypt: bool
    const mtu: nat

    constructor (key: SessionKey, user: User, remote: Remote, encrypt: bool, mtu: nat)
      ensures this.key == key && this.user == user && this.remote == remote && this.encrypt == encrypt && this.mtu == mtu
    {
      this.key, this.user, this.remote, this.encrypt, this.mtu := key, user, remote, encrypt, mtu;
    }

    function Contents(): Info
    {
      Info(user, encrypt, mtu)
    }

    function ToOutbound(): Outbound
    {
      Outbound(SessionKey(remote, key.token, key.id), encrypt, user.xorKey, user.address)
    }
  }

  ghost function TableOf(sessions: map<SessionKey, Session>): Table
  {
    map k | k in sessions :: sessions[k].Contents()
  }

  // Both maps hold the same sessions: each under its own key, and under the address of its user.
  ghost predicate Indexed(sessions: map<SessionKey, Session>, byAddress: map<Address, Session>)
  {
    && (forall k | k in sessions :: sessions[k].key == k && sessions[k].remote == k.remote)
    && (forall k | k in sessions :: sessions[k].user.address in byAddress && byAddress[sessions[k].user.address] == sessions[k])
    && (forall a | a in byAddress :: byAddress[a].user.address == a)
    && (forall a | a in byAddress :: byAddress[a].key in sessions && sessions[byAddress[a].key] == byAddress[a])
  }

  lemma IndexedWithout(sessions: map<SessionKey, Session>, byAddress: map<Address, Session>, s: Session)
    requires Indexed(sessions, byAddress) && s.key in sessions && sessions[s.key] == s
    ensures Indexed(sessions - {s.key}, byAddress - {s.user.address})
    ensures s.user.address in byAddress && byAddress[s.user.address] == s
  {
  }

  lemma IndexedWith(sessions: map<SessionKey, Session>, byAddress: map<Address, Session>, s: Session)
    requires Indexed(sessions, byAddress) && s.key !in sessions && s.user.address !in byAddress && s.remote == s.key.remote
    ensures Indexed(sessions[s.key := s], byAddress[s.user.address := s])
  {
  }

  lemma IndexedAt(sessions: map<SessionKey, Session>, byAddress: map<Address, Session>, k: SessionKey)
    requires Indexed(sessions, byAddress) && k in sessions
    ensures sessions[k].key == k && sessions[k].ToOutbound() == OutboundOf(k, sessions[k].Contents())
  {
  }

  // The first map determines the second.
  lemma SecondMap(sessions: map<SessionKey, Session>, byAddress: map<Address, Session>,
                  sessions': map<SessionKey, Session>, byAddress': map<Address, Session>)
    requires Indexed(sessions, byAddress) && Indexed(sessions', byAddress')
    requires forall k | k in sessions' :: k in sessions && sessions'[k] == sessions[k]
    ensures byAddress' == map a | a in byAddress && byAddress[a].key in sessions' :: byAddress[a]
  {
    var wanted := map a | a in byAddress && byAddress[a].key in sessions' :: byAddress[a];
    assert forall a | a in byAddress' :: sessions'[byAddress'[a].key] == byAddress'[a];
    assert forall a | a in wanted :: sessions'[wanted[a].key] == wanted[a];
  }

  lemma TableEvicted(sessions: map<SessionKey, Session>, kept: map<SessionKey, Session>, remote: Remote, username: Bytes)
    requires kept == map k | k in sessions && !Evicted(k, sessions[k].Contents(), remote, username) :: sessions[k]
    ensures TableOf(kept) == Kept(TableOf(sessions), remote, username)
    ensures forall k | k in kept :: kept[k].user.username != username
  {
  }

  lemma TableWith(sessions: map<SessionKey, Session>, s: Session)
    requires s.key !in TableOf(sessions)
    ensures s.key !in sessions && TableOf(sessions[s.key := s]) == TableOf(sessions)[s.key := s.Contents()]
  {
  }

  class Server {
    const config: Normalized
    const h: Hash
    var sessions: map<SessionKey, Session>
    var byAddress: map<Address, Session>

    ghost function Table(): Table
      reads this
    {
      TableOf(sessions)
    }

    ghost predicate Valid()
      reads this
    {
      ConfigOk(config, h) && Indexed(sessions, byAddress) && TableOk(config.users, Table())
    }

    constructor (config: Normalized, h: Hash)
      requires ConfigOk(config, h)
      ensures Valid() && this.config == config && this.h == h && Table() == map[]
    {
      this.config, this.h := config, h;
      sessions, byAddress := map[], map[];
    }

    method RemoveSession(current: Session)
      requires Indexed(sessions, byAddress) && current.key in sessions && sessions[current.key] == current
      modifies this
      ensures Indexed(sessions, byAddress)
      ensures sessions == old(sessions) - {current.key} && byAddress == old(byAddress) - {current.user.address}
    {
      hide Indexed;
      IndexedWithout(sessions, byAddress, current);
      sessions := sessions - {current.key};
      if current.user.address in byAddress && byAddress[current.user.address] == current {
        byAddress := byAddress - {current.user.address};
      }
    }

    // The loop over the map while entries are deleted from it. Whatever order the keys come in, what stays is exactly
    // what matches neither the remote nor the user.
    method RemoveSessionsForRemoteOrUser(remote: Remote, username: Bytes)
      requires Indexed(sessions, byAddress)
      modifies this
      ensures Indexed(sessions, byAddress)
      ensures sessions == map k | k in old(sessions) && !Evicted(k, old(sessions)[k].Contents(), remote, username) :: old(sessions)[k]
      ensures byAddress == map a | a in old(byAddress) && old(byAddress)[a].key in sessions :: old(byAddress)[a]
    {
      hide Indexed;
      var pending := sessions.Keys;
      while pending != {}
        invariant Indexed(sessions, byAddress) && pending <= sessions.Keys
        invariant forall k | k in sessions :: k in old(sessions) && sessions[k] == old(sessions)[k]
        invariant forall k | k in old(sessions) ::
            k in sessions <==> k in pending || !Evicted(k, old(sessions)[k].Contents(), remote, username)
        decreases |pending|
      {
        var k :| k in pending;
        pending := pending - {k};
        var current := sessions[k];
        IndexedAt(sessions, byAddress, k);
        if current.key.remote == remote || current.user.username == username {
          RemoveSession(current);
        }
      }
      SecondMap(old(sessions), old(byAddress), sessions, byAddress);
    }

    // The critical section of an OPEN. Nothing is overwritten: the old sessions of the remote and of the user are gone.
    method Insert(next: Session)
      requires Valid() && next.remote == next.key.remote && next.mtu < 0x1_0000
      requires next.user.username in config.users && config.users[next.user.username] == next.user
      modifies this
      ensures Valid() && Table() == Kept(old(Table()), next.remote, next.user.username)[next.key := next.Contents()]
    {
      hide Indexed, UsersOk, TableOk, Kept, TableOf;
      ghost var before := Table();
      InsertedTableOk(config.users, before, next.key, next.Contents());
      RemoveSessionsForRemoteOrUser(next.key.remote, next.user.username);
      TableEvicted(old(sessions), sessions, next.remote, next.user.username);
      KeptTableOk(config.users, before, next.remote, next.user.username);
      FreeAddress(next.user);
      IndexedWith(sessions, byAddress, next);
      TableWith(sessions, next);
      sessions := sessions[next.key := next];
      byAddress := byAddress[next.user.address := next];
    }

    lemma FreeAddress(user: User)
      requires ConfigOk(config, h) && Indexed(sessions, byAddress)
      requires user.username in config.users && config.users[user.username] == user
      requires TableOk(config.users, Table()) && forall k | k in sessions :: sessions[k].user.username != user.username
      ensures user.address !in byAddress
    {
      forall k | k in sessions
        ensures sessions[k].user.address != user.address
      {
        assert Table()[k] == sessions[k].Contents();
      }
    }

    method HandleOpen(remote: Remote, packet: Bytes, token: Token, id: SessionId) returns (out: Output)
      requires Valid() && |packet| >= HEADER
      modifies this
      ensures Valid() && (Table(), out) == OpenStep(config, h, old(Table()), remote, packet, token, id)
    {
      hide ParseOpen, PasswordMatches, OpenAck, OpenReject, Kept, Indexed, TableOk, UsersOk;
      var request := ParseOpenPacket(h, packet);
      if request.None? || request.value.username !in config.users {
        var rejection := BuildOpenReject(h);
        return Udp(remote, rejection[..]);
      }
      var user := config.users[request.value.username];
      if !PasswordMatches(h, user.username, user.password, request.value.passwordBlock) {
        var rejection := BuildOpenReject(h);
        return Udp(remote, rejection[..]);
      }
      AuthenticatedUser(config, h, packet);
      var effectiveMtu := config.mtu;
      if request.value.mtu < effectiveMtu {
        effectiveMtu := request.value.mtu;
      }
      var encrypt := request.value.encrypt && user.allowEncrypt;
      var key := SessionKey(remote, token, id);
      var next := new Session(key, user, remote, encrypt, effectiveMtu);
      Insert(next);
      var response := BuildOpenAck(h, token, id, effectiveMtu, user.address, config.dns, encrypt);
      return Udp(remote, response);
    }

    method SessionForPacket(remote: Remote, packet: Bytes) returns (r: Option<Outbound>)
      requires Valid() && |packet| >= HEADER
      ensures
        var key := KeyOf(remote, packet);
        r == if key in Table() then Some(OutboundOf(key, Table()[key])) else None
    {
      var key := KeyOf(remote, packet);
      if key !in sessions {
        return None;
      }
      IndexedAt(sessions, byAddress, key);
      return Some(sessions[key].ToOutbound());
    }

    // The second map finds the one holder of the address.
    method OutboundForAddress(destination: Address) returns (r: Option<Outbound>)
      requires Valid()
      ensures r == Holder(Table(), destination)
    {
      if destination !in byAddress {
        assert forall k :: !Owns(Table(), k, destination);
        return None;
      }
      var current := byAddress[destination];
      IndexedAt(sessions, byAddress, current.key);
      assert Owns(Table(), current.key, destination);
      OneHolder(h, config.users, Table(), current.key, Holder(Table(), destination).value.key, destination);
      return Some(current.ToOutbound());
    }

    method HandleEchoReq(remote: Remote, packet: Bytes) returns (out: Output)
      requires Valid() && |packet| >= HEADER
      ensures out == EchoStep(h, Table(), remote, packet)
    {
      if !Verified(h, packet) {
        return Nothing;
      }
      var outbound := SessionForPacket(remote, packet);
      if outbound.None? {
        return Nothing;
      }
      var to := outbound.value;
      var response := BuildEchoResp(h, to.key.token, to.key.id, packet[SIGNED_HEADER..]);
      return Udp(to.key.remote, response[..]);
    }

    method HandleClose(remote: Remote, packet: Bytes)
      requires Valid() && |packet| >= HEADER
      modifies this
      ensures Valid() && Table() == CloseStep(h, old(Table()), remote, packet)
    {
      hide TableOk, ConfigOk;
      if !Verified(h, packet) {
        return;
      }
      var key := KeyOf(remote, packet);
      ghost var before := Table();
      if key !in sessions {
        assert before - {key} == before;
        return;
      }
      IndexedAt(sessions, byAddress, key);
      RemoveSession(sessions[key]);
      assert Table() == before - {key};
      SubTableOk(config.users, before, Table());
    }

    method SendData(to: Outbound, payload: Bytes) returns (out: Output)
      ensures out == Framed(to, payload)
    {
      var packet := BuildDataPacket(to.key.token, to.key.id, payload, to.encrypt, to.xorKey);
      return Udp(to.key.remote, packet[..]);
    }

    method HandleData(remote: Remote, packet: Bytes) returns (out: Output)
      requires Valid() && |packet| >= HEADER && (packet[0] == DATA || packet[0] == DATA_ENC)
      ensures out == DataStep(config, Table(), remote, packet)
    {
      hide ParseIpv4, Holder, XorData, DataPacket, TableOk, ConfigOk, Indexed;
      if |packet| <= HEADER {
        return Nothing;
      }
      var found := SessionForPacket(remote, packet);
      if found.None? {
        return Nothing;
      }
      var source := found.value;
      if (packet[0] == DATA_ENC && !source.encrypt) || (packet[0] == DATA && source.encrypt) {
        return Nothing;
      }
      var payload := packet[HEADER..];
      if packet[0] == DATA_ENC {
        payload := XorData(source.xorKey, payload);
      }
      var originalPayload := payload;
      var parsed := ParseIpv4(payload);
      if parsed.Some? {
        if config.exitEnabled {
          payload := parsed.value.packet;
        }
        if config.exitEnabled && config.strictSource && parsed.value.source != source.address {
          return Nothing;
        }
        var target := OutboundForAddress(parsed.value.destination);
        if target.Some? {
          out := SendData(target.value, payload);
          return;
        }
        if config.exitEnabled {
          return Device(payload);
        }
      } else if config.exitEnabled {
        return Nothing;
      }
      out := SendData(source, originalPayload);
    }

    method HandleExitPacket(payload: Bytes) returns (out: Output)
      requires Valid()
      ensures out == ExitStep(Table(), payload)
    {
      var parsed := ParseIpv4(payload);
      if parsed.None? {
        return Nothing;
      }
      var target := OutboundForAddress(parsed.value.destination);
      if target.None? {
        return Nothing;
      }
      out := SendData(target.value, parsed.value.packet);
    }

    // Every packet, whatever it is, leaves both maps exact and does to the sessions what the one-table model says.
    method HandlePacket(remote: Remote, packet: Bytes, token: Token, id: SessionId) returns (out: Output)
      requires Valid()
      modifies this
      ensures Valid() && (Table(), out) == PacketStep(config, h, old(Table()), remote, packet, token, id)
    {
      hide OpenStep, EchoStep, DataStep, CloseStep, TableOk, ConfigOk, Indexed;
      if |packet| < HEADER {
        return Nothing;
      }
      if packet[0] == OPEN {
        out := HandleOpen(remote, packet, token, id);
      } else if packet[0] == ECHOREQ {
        out := HandleEchoReq(remote, packet);
      } else if packet[0] == CLOSE {
        HandleClose(remote, packet);
        out := Nothing;
      } else if packet[0] == DATA || packet[0] == DATA_ENC {
        out := HandleData(remote, packet);
      } else {
        out := Nothing;
      }
    }
  }
}
