/** What the server's routing guarantees, over whole runs and under every interleaving with the exit-device reader. */
module Routing {
  import opened Wire
  import opened Protocol
  import opened Config
  import opened Ipv4
  import opened Sessions

  // ----- Sequential runs -----

  datatype Datagram = Datagram(remote: Remote, packet: Bytes, token: Token, id: SessionId)

  ghost function RunServer(c: Normalized, h: Hash, t: Table, datagrams: seq<Datagram>): Table
    requires MtuOk(c.mtu)
    decreases |datagrams|
  {
    if datagrams == [] then t
    else
      var d := datagrams[0];
      RunServer(c, h, PacketStep(c, h, t, d.remote, d.packet, d.token, d.id).0, datagrams[1..])
  }

  // Over every run, however the identifiers are drawn: one session a remote, one a user, one an address.
  lemma {:induction false} RunsKeepSessionsUnique(c: Normalized, h: Hash, t: Table, datagrams: seq<Datagram>)
    requires ConfigOk(c, h) && TableOk(c.users, t)
    ensures TableOk(c.users, RunServer(c, h, t, datagrams))
    ensures
      var t' := RunServer(c, h, t, datagrams);
      forall j, k | j in t' && k in t' && (j.remote == k.remote || t'[j].user.username == t'[k].user.username
                                           || t'[j].user.address == t'[k].user.address) :: j == k
    decreases |datagrams|
  {
    hide PacketStep;
    if datagrams != [] {
      var d := datagrams[0];
      StepKeepsTableOk(c, h, t, d.remote, d.packet, d.token, d.id);
      RunsKeepSessionsUnique(c, h, PacketStep(c, h, t, d.remote, d.packet, d.token, d.id).0, datagrams[1..]);
    } else {
      forall j, k | j in t && k in t && t[j].user.address == t[k].user.address
        ensures j == k
      {
        OneHolder(h, c.users, t, j, k, t[j].user.address);
      }
    }
  }

  // ----- Where data goes -----

  // In exit mode nothing is echoed: the packet q that the payload starts with goes to the holder of its destination, or to
  // the device if there is none.
  // It fills its buffer exactly, and with strict source it carries the sender's own address.
  ghost predicate ForwardedToExit(c: Normalized, t: Table, remote: Remote, packet: Bytes, out: Output)
    requires |packet| >= HEADER
  {
    var key := KeyOf(remote, packet);
    && key in t
    && var payload := Payload(OutboundOf(key, t[key]), packet);
       payload.Some? && exists q: Bytes :: q <= payload.value && RoutedFrom(c, t[key], q) && out == Routed(t, q)
  }

  ghost predicate RoutedFrom(c: Normalized, s: Info, q: Bytes)
  {
    WellFormed(q) && |q| == FromBe16(q[2], q[3]) && (c.strictSource ==> q[12..16] == s.user.address)
  }

  ghost function Routed(t: Table, q: Bytes): Output
    requires |q| >= 20
  {
    match Holder(t, q[16..20]) case Some(target) => Framed(target, q) case None => Device(q)
  }

  lemma ExitModeForwarding(c: Normalized, h: Hash, t: Table, remote: Remote, packet: Bytes)
    requires ConfigOk(c, h) && TableOk(c.users, t) && c.exitEnabled && |packet| >= HEADER
    requires DataStep(c, t, remote, packet) != Nothing
    ensures ForwardedToExit(c, t, remote, packet, DataStep(c, t, remote, packet))
  {
    hide ParseIpv4, DataPacket;
    var key := KeyOf(remote, packet);
    var payload := Payload(OutboundOf(key, t[key]), packet).value;
    CutPacketParses(payload);
    ParsesExactly(payload);
    var q := ParseIpv4(payload).value.packet;
    ParsesExactly(q);
    assert RoutedFrom(c, t[key], q) && DataStep(c, t, remote, packet) == Routed(t, q);
  }

  // Without exit mode the payload goes unchanged to the holder of its destination, or back to its sender.
  ghost predicate ForwardedLocally(t: Table, remote: Remote, packet: Bytes, out: Output)
    requires |packet| >= HEADER
  {
    var key := KeyOf(remote, packet);
    && key in t
    && var source := OutboundOf(key, t[key]);
       var payload := Payload(source, packet);
       && payload.Some?
       && out == if WellFormed(payload.value) && Holder(t, payload.value[16..20]).Some?
                 then Framed(Holder(t, payload.value[16..20]).value, payload.value)
                 else Framed(source, payload.value)
  }

  lemma LocalForwarding(c: Normalized, t: Table, remote: Remote, packet: Bytes)
    requires !c.exitEnabled && |packet| >= HEADER && DataStep(c, t, remote, packet) != Nothing
    ensures ForwardedLocally(t, remote, packet, DataStep(c, t, remote, packet))
  {
    hide ParseIpv4, WellFormed;
    var key := KeyOf(remote, packet);
    ParsesExactly(Payload(OutboundOf(key, t[key]), packet).value);
  }

  // ----- Interleavings -----

  // A datagram handled by the serve loop, or a packet returned by the exit device, with what is sent for it. Times are
  // positions in the history of tables.
  datatype Entry = Served(d: Datagram, out: Output, since: nat) | Returned(payload: Bytes, out: Output, since: nat)
  datatype Sent = Sent(entry: Entry, at: nat)

  // The serve loop gives up the lock between finding the sender's session, finding the target and sending.
  datatype Job = Idle | Looking(d: Datagram, source: Outbound, payload: Bytes, since: nat) | Sending(entry: Entry)

  datatype DeviceJob = Waiting | Parsed(payload: Bytes, since: nat) | Returning(entry: Entry)

  datatype System = System(t: Table, serve: Job, device: DeviceJob, log: seq<Sent>, history: seq<Table>)

  datatype Action = Receive(d: Datagram) | FindTarget | Send | Read(payload: Bytes) | FindHolder | Return

  // One action between two acquisitions of the lock. An action that is not enabled does nothing. The history records
  // the table after every action.
  ghost function Act(c: Normalized, h: Hash, s: System, a: Action): System
    requires MtuOk(c.mtu) && s.history != []
  {
    var now := |s.history| - 1;
    var s' :=
      match a
      case Receive(d) => if s.serve == Idle then Received(c, h, s, d, now) else s
      case FindTarget => if s.serve.Looking? then TargetFound(c, s) else s
      case Send => if s.serve.Sending? then s.(serve := Idle, log := s.log + [Sent(s.serve.entry, now)]) else s
      case Read(payload) => if s.device == Waiting && ParseIpv4(payload).Some? then s.(device := Parsed(payload, now)) else s
      case FindHolder =>
        if s.device.Parsed? then
          var out := ExitStep(s.t, s.device.payload);
          s.(device := if out == Nothing then Waiting else Returning(Returned(s.device.payload, out, s.device.since)))
        else s
      case Return => if s.device.Returning? then s.(device := Waiting, log := s.log + [Sent(s.device.entry, now)]) else s;
    s'.(history := s.history + [s'.t])
  }

  // Data packets stop after the first lookup; everything else is settled by one critical section.
  ghost function Received(c: Normalized, h: Hash, s: System, d: Datagram, now: nat): System
    requires MtuOk(c.mtu)
  {
    if |d.packet| > HEADER && (d.packet[0] == DATA || d.packet[0] == DATA_ENC) then
      var key := KeyOf(d.remote, d.packet);
      if key !in s.t then s
      else
        var source := OutboundOf(key, s.t[key]);
        match Payload(source, d.packet)
        case None => s
        case Some(payload) => s.(serve := Looking(d, source, payload, now))
    else
      var (t', out) := PacketStep(c, h, s.t, d.remote, d.packet, d.token, d.id);
      s.(t := t', serve := if out == Nothing then Idle else Sending(Served(d, out, now)))
  }

  ghost function TargetFound(c: Normalized, s: System): System
    requires s.serve.Looking?
  {
    var p := Routable(c, s.serve.source, s.serve.payload);
    var out := Forward(c, s.serve.source, s.serve.payload, if p.Some? then Holder(s.t, p.value.destination) else None);
    s.(serve := if out == Nothing then Idle else Sending(Served(s.serve.d, out, s.serve.since)))
  }

  ghost function ActAll(c: Normalized, h: Hash, s: System, actions: seq<Action>): System
    requires MtuOk(c.mtu) && s.history != []
    decreases |actions|
  {
    if actions == [] then s else ActAll(c, h, Act(c, h, s, actions[0]), actions[1..])
  }

  // The entry is what the sequential handler sends when it runs without interruption on table t.
  ghost predicate AsIfAt(c: Normalized, h: Hash, t: Table, e: Entry)
    requires MtuOk(c.mtu)
  {
    match e
    case Served(d, out, _) => PacketStep(c, h, t, d.remote, d.packet, d.token, d.id).1 == out
    case Returned(payload, out, _) => ExitStep(t, payload) == out
  }

  // It is so for a table the server had between receiving the packet and time at.
  ghost predicate AsIfAtomic(c: Normalized, h: Hash, history: seq<Table>, e: Entry, at: nat)
    requires MtuOk(c.mtu)
  {
    exists i :: e.since <= i <= at && i < |history| && AsIfAt(c, h, history[i], e)
  }

  ghost predicate SystemOk(c: Normalized, h: Hash, s: System)
    requires MtuOk(c.mtu)
  {
    var now := |s.history| - 1;
    && now >= 0 && s.history[now] == s.t
    && (forall i | 0 <= i < |s.history| :: TableOk(c.users, s.history[i]))
    && (forall i | 0 <= i < |s.log| :: s.log[i].at <= now && AsIfAtomic(c, h, s.history, s.log[i].entry, s.log[i].at))
    && (s.serve.Sending? ==> AsIfAtomic(c, h, s.history, s.serve.entry, now))
    && (s.device.Returning? ==> AsIfAtomic(c, h, s.history, s.device.entry, now))
    && (s.device.Parsed? ==> s.device.since <= now)
    && (s.serve.Looking? ==>
          // Only the serve loop changes the table, so the session it found is still there.
          && s.serve.since <= now
          && |s.serve.d.packet| > HEADER && (s.serve.d.packet[0] == DATA || s.serve.d.packet[0] == DATA_ENC)
          && KeyOf(s.serve.d.remote, s.serve.d.packet) in s.t
          && s.serve.source == OutboundOf(KeyOf(s.serve.d.remote, s.serve.d.packet), s.t[KeyOf(s.serve.d.remote, s.serve.d.packet)])
          && Payload(s.serve.source, s.serve.d.packet) == Some(s.serve.payload))
  }

  lemma StillAsIfAtomic(c: Normalized, h: Hash, history: seq<Table>, t: Table, e: Entry, at: nat, at': nat)
    requires MtuOk(c.mtu) && AsIfAtomic(c, h, history, e, at) && at <= at'
    ensures AsIfAtomic(c, h, history + [t], e, at')
  {
    var i :| e.since <= i <= at && i < |history| && AsIfAt(c, h, history[i], e);
    assert (history + [t])[i] == history[i];
  }

  lemma ActKeepsSystemOk(c: Normalized, h: Hash, s: System, a: Action)
    requires ConfigOk(c, h) && SystemOk(c, h, s)
    ensures SystemOk(c, h, Act(c, h, s, a))
  {
    hide AsIfAtomic, AsIfAt, PacketStep, ExitStep, TableOk, Routable, Forward, Holder, Payload;
    var s' := Act(c, h, s, a);
    NewEntryOk(c, h, s, a);
    forall e, at: nat, at': nat | AsIfAtomic(c, h, s.history, e, at) && at <= at'
      ensures AsIfAtomic(c, h, s.history + [s'.t], e, at')
    {
      StillAsIfAtomic(c, h, s.history, s'.t, e, at, at');
    }
    if a.Receive? {
      StepKeepsTableOk(c, h, s.t, a.d.remote, a.d.packet, a.d.token, a.d.id);
    }
    assert TableOk(c.users, s'.t);
  }

  lemma NewEntryOk(c: Normalized, h: Hash, s: System, a: Action)
    requires ConfigOk(c, h) && SystemOk(c, h, s)
    ensures
      var (s', now) := (Act(c, h, s, a), |s.history| - 1);
      && (s'.serve.Sending? ==> AsIfAtomic(c, h, s.history, s'.serve.entry, now))
      && (s'.device.Returning? ==> AsIfAtomic(c, h, s.history, s'.device.entry, now))
  {
    hide OpenStep, EchoStep, CloseStep, ExitStep, TableOk, Routable, Forward, Holder, Payload;
    var s' := Act(c, h, s, a);
    if s'.serve.Sending? && s'.serve != s.serve {
      assert AsIfAt(c, h, s.history[|s.history| - 1], s'.serve.entry);
    }
    if s'.device.Returning? && s'.device != s.device {
      assert AsIfAt(c, h, s.history[|s.history| - 1], s'.device.entry);
    }
  }

  // For every interleaving: whatever is sent is what the sequential handler sends, uninterrupted, on a table the server
  // had between receiving the packet and sending; and every table of the run keeps its sessions unique.
  lemma {:induction false} EveryInterleavingIsAtomic(c: Normalized, h: Hash, s: System, actions: seq<Action>)
    requires ConfigOk(c, h) && SystemOk(c, h, s)
    ensures SystemOk(c, h, ActAll(c, h, s, actions))
    decreases |actions|
  {
    hide Act, SystemOk;
    assert s.history != [] by {
      HistoryNotEmpty(c, h, s);
    }
    if actions != [] {
      ActKeepsSystemOk(c, h, s, actions[0]);
      EveryInterleavingIsAtomic(c, h, Act(c, h, s, actions[0]), actions[1..]);
    }
  }

  const START := System(map[], Idle, Waiting, [], [map[]])

  // The same from a server without sessions.
  lemma EveryRunIsAtomic(c: Normalized, h: Hash, actions: seq<Action>)
    requires ConfigOk(c, h)
    ensures
      var s := ActAll(c, h, START, actions);
      && (forall i | 0 <= i < |s.history| :: TableOk(c.users, s.history[i]))
      && (forall i | 0 <= i < |s.log| :: AsIfAtomic(c, h, s.history, s.log[i].entry, s.log[i].at))
  {
    hide AsIfAtomic, TableOk, Act;
    assert TableOk(c.users, map[]) by {
      NoSessions(c.users);
    }
    EveryInterleavingIsAtomic(c, h, START, actions);
  }

  // An entry of the log that answers a DATA packet was forwarded as one of the two modes says, on table t.
  ghost predicate Forwarded(c: Normalized, t: Table, e: Entry)
    requires e.Served? && |e.d.packet| >= HEADER
  {
    if c.exitEnabled then ForwardedToExit(c, t, e.d.remote, e.d.packet, e.out)
    else ForwardedLocally(t, e.d.remote, e.d.packet, e.out)
  }

  predicate AnswersData(e: Entry)
  {
    e.Served? && e.out != Nothing && |e.d.packet| >= HEADER && (e.d.packet[0] == DATA || e.d.packet[0] == DATA_ENC)
  }

  // For every interleaving, everything sent for a DATA packet was forwarded by the rules of its mode, on a table the
  // server had between receiving the packet and sending.
  lemma EveryLogIsForwarded(c: Normalized, h: Hash, actions: seq<Action>, k: nat)
    requires ConfigOk(c, h)
    requires k < |ActAll(c, h, START, actions).log| && AnswersData(ActAll(c, h, START, actions).log[k].entry)
    ensures
      var s := ActAll(c, h, START, actions);
      var sent := s.log[k];
      exists i :: sent.entry.since <= i <= sent.at && i < |s.history| && Forwarded(c, s.history[i], sent.entry)
  {
    hide ActAll, TableOk, UsersOk, DataStep, ForwardedToExit, ForwardedLocally;
    EveryRunIsAtomic(c, h, actions);
    var s := ActAll(c, h, START, actions);
    var sent := s.log[k];
    assert AsIfAtomic(c, h, s.history, sent.entry, sent.at);
    var i :| sent.entry.since <= i <= sent.at && i < |s.history| && AsIfAt(c, h, s.history[i], sent.entry);
    var (remote, packet) := (sent.entry.d.remote, sent.entry.d.packet);
    if c.exitEnabled {
      ExitModeForwarding(c, h, s.history[i], remote, packet);
    } else {
      LocalForwarding(c, s.history[i], remote, packet);
    }
    assert Forwarded(c, s.history[i], sent.entry);
  }

  lemma NoSessions(users: map<Bytes, User>)
    ensures TableOk(users, map[])
  {
  }

  lemma HistoryNotEmpty(c: Normalized, h: Hash, s: System)
    requires MtuOk(c.mtu) && SystemOk(c, h, s)
    ensures s.history != []
  {
  }
}
