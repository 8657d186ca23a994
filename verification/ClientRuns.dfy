/** What holds of the client over whole runs. */
module ClientRuns {
  import opened Wire
  import opened Fragments
  import opened FragmentTable
  import opened SegmentRouting
  import opened ClientModel

  datatype Event = Recv(packet: Bytes, env: Env) | TunRead(data: Bytes) | Timer(env: Env) | Reconnect(socketOk: bool)

  function Step(g: ClientConfig, h: Hash, v: View, e: Event): (View, seq<Effect>)
    requires Loaded(g)
  {
    match e
    case Recv(packet, env) => OnRecv(g, h, v, packet, env)
    case TunRead(data) => (v, OnTunRead(g, h, v, data))
    case Timer(env) => Tick(g, h, v, env)
    case Reconnect(socketOk) => Reset(h, v, socketOk)
  }

  function Run(g: ClientConfig, h: Hash, v: View, events: seq<Event>): (View, seq<Effect>)
    requires Loaded(g)
    decreases |events|
  {
    if events == [] then (v, [])
    else
      var (v', effects) := Step(g, h, v, events[0]);
      var (v'', effects') := Run(g, h, v', events[1..]);
      (v'', effects + effects')
  }

  // The time an event happens at; t is the time before it.
  function TimeOf(e: Event, t: nat): nat
  {
    if e.Recv? || e.Timer? then e.env.now else t
  }

  // The clock never goes back and has not wrapped around.
  ghost predicate Forward(t: nat, events: seq<Event>)
    decreases |events|
  {
    events == [] || (t <= TimeOf(events[0], t) < TWO32 && Forward(TimeOf(events[0], t), events[1..]))
  }

  function EndTime(t: nat, events: seq<Event>): nat
    decreases |events|
  {
    if events == [] then t else EndTime(TimeOf(events[0], t), events[1..])
  }

  // ----- Resolving the server -----

  // The answer an event gets for the server's address, if it asks and gets one. A numeric server answers for itself.
  function Answer(g: ClientConfig, v: View, e: Event): Option<Address>
  {
    if e.Timer? && v.state == DnsNeeded && (v.socketOpen || e.env.socketOk) then
      if g.server.Some? then g.server else e.env.resolved
    else None
  }

  function FirstAnswer(g: ClientConfig, resolved: Option<Address>): Option<Address>
  {
    if g.server.Some? then g.server else resolved
  }

  // The last answer after a run; latest is the one before it.
  function LastAnswer(g: ClientConfig, h: Hash, v: View, latest: Option<Address>, events: seq<Event>): Option<Address>
    requires Loaded(g)
    decreases |events|
  {
    if events == [] then latest
    else LastAnswer(g, h, Step(g, h, v, events[0]).0, Newer(latest, Answer(g, v, events[0])), events[1..])
  }

  function Newer(latest: Option<Address>, answer: Option<Address>): Option<Address>
  {
    if answer.Some? then answer else latest
  }

  // ----- Invariants -----

  // At time t, when latest is the last answer for the server's address.
  ghost predicate SessionOk(g: ClientConfig, v: View, t: nat, latest: Option<Address>)
  {
    && v.state != NotReady
    && (v.state == Established ==> v.terms.peerIp != NO_ADDRESS)
    && v.domain == g.server.None?
    // A numeric server is always resolved.
    && (g.server.Some? ==> v.state != DnsNeeded && v.serverAddr == g.server.value)
    // Outside DnsNeeded there has been an answer, and the address is always the last one.
    && (if latest.Some? then v.serverAddr == latest.value else v.state == DnsNeeded)
    // The socket is open and the port is the configured one whenever the client talks to the server.
    && (v.state == AuthSent || v.state == Established ==> v.socketOpen && v.serverPort == g.port)
    && v.lastRecv <= t && v.lastOpen <= t
    && SlotsOk(v.slots) && StampedBy(v.slots, t)
    // The delays are untouched, or lie between their extremes.
    && ((v.curDelay == v.maxDelay == 0 && v.minDelay == INITIAL_MIN_DELAY) || v.minDelay <= v.curDelay <= v.maxDelay)
  }

  lemma IpfragKeepsSlots(key: XorKey, v: View, packet: Bytes, t: nat, now: nat)
    requires SlotsOk(v.slots) && StampedBy(v.slots, t) && t <= now
    ensures
      var r := OnIpfrag(key, v, packet, now);
      SlotsOk(r.v.slots) && StampedBy(r.v.slots, now) && r.v == v.(slots := r.v.slots)
  {
    hide SlotsOk, SlotStep;
    if ParseFragment(packet).Some? {
      KeepsSlotsOk(v.slots, ParseFragment(packet).value, now);
      StepStamps(v.slots, ParseFragment(packet).value, t, now);
    }
  }

  lemma AckKeepsSessionOk(g: ClientConfig, h: Hash, v: View, packet: Bytes, now: nat, tunOk: bool, t: nat, latest: Option<Address>)
    requires SessionOk(g, v, t, latest) && t <= now
    ensures SessionOk(g, OnOpenAck(g, h, v, packet, now, tunOk).v, now, latest)
  {
    hide Verified, SlotsOk, WithTerms, ItemPrefix, EffectiveMtu;
  }

  lemma EchoKeepsSessionOk(g: ClientConfig, h: Hash, v: View, packet: Bytes, usec: nat, t: nat, latest: Option<Address>)
    requires SessionOk(g, v, t, latest)
    ensures SessionOk(g, OnEchoResp(h, v, packet, usec).v, t, latest)
  {
    hide Verified, SlotsOk, StampedBy, FromLittleEndian;
  }

  lemma SegrtKeepsSessionOk(g: ClientConfig, key: XorKey, v: View, packet: Bytes, now: nat, t: nat, latest: Option<Address>)
    requires SessionOk(g, v, t, latest) && t <= now
    ensures SessionOk(g, OnSegrt(g, key, v, packet, now).v, now, latest)
  {
    hide Inner, XorData, SlotsOk, StampedBy, OnIpfrag, SrKey, EffectiveMode;
    LaterSessionOk(g, v, t, now, latest);
    var inner := Inner(|g.srLinks|, EffectiveMode(|g.srLinks|, g.srMode), SrKey(g.srPassword, g.srLinks), packet);
    if inner.Some? {
      IpfragKeepsSlots(key, v, inner.value, t, now);
    }
  }

  lemma LaterSessionOk(g: ClientConfig, v: View, t: nat, now: nat, latest: Option<Address>)
    requires SessionOk(g, v, t, latest) && t <= now
    ensures SessionOk(g, v, now, latest) && SessionOk(g, v.(lastRecv := now), now, latest)
  {
    hide SlotsOk;
  }

  lemma EndKeepsSessionOk(g: ClientConfig, h: Hash, v: View, packet: Bytes, t: nat, latest: Option<Address>)
    requires SessionOk(g, v, t, latest)
    ensures SessionOk(g, OnClose(h, v, packet).v, t, latest) && SessionOk(g, OnOpenRej(v).v, t, latest)
  {
    hide SlotsOk, StampedBy, Verified;
  }

  lemma RecvKeepsSessionOk(g: ClientConfig, h: Hash, v: View, packet: Bytes, e: Env, t: nat, latest: Option<Address>)
    requires SessionOk(g, v, t, latest) && t <= e.now < TWO32
    ensures SessionOk(g, OnRecv(g, h, v, packet, e).0, e.now, latest)
  {
    hide SessionOk, XorData, OnIpfrag, OnOpenAck, OnEchoResp, OnSegrt, OnClose, OnOpenRej, DerivedKey;
    LaterSessionOk(g, v, t, e.now, latest);
    if |packet| >= HEADER {
      var key := DerivedKey(h, g.username, g.password);
      AckKeepsSessionOk(g, h, v, packet, e.now, e.tunOk, t, latest);
      EchoKeepsSessionOk(g, h, v, packet, e.usec, e.now, latest);
      SegrtKeepsSessionOk(g, key, v, packet, e.now, t, latest);
      EndKeepsSessionOk(g, h, v, packet, e.now, latest);
      FragKeepsSessionOk(g, key, v, packet, e.now, t, latest);
      LaterSessionOk(g, Dispatch(g, h, v, packet, e).v, e.now, e.now, latest);
    }
  }

  lemma FragKeepsSessionOk(g: ClientConfig, key: XorKey, v: View, packet: Bytes, now: nat, t: nat, latest: Option<Address>)
    requires SessionOk(g, v, t, latest) && t <= now
    ensures SessionOk(g, OnIpfrag(key, v, packet, now).v, now, latest)
  {
    hide OnIpfrag, SlotsOk, StampedBy;
    LaterSessionOk(g, v, t, now, latest);
    IpfragKeepsSlots(key, v, packet, t, now);
  }

  lemma ResetKeepsSessionOk(g: ClientConfig, h: Hash, v: View, socketOk: bool, t: nat, latest: Option<Address>)
    requires SessionOk(g, v, t, latest)
    ensures SessionOk(g, Reset(h, v, socketOk).0, t, latest)
  {
    hide ClosePacket;
    AllFreeOk(FreedSlots(v.slots));
  }

  lemma TickKeepsSessionOk(g: ClientConfig, h: Hash, v: View, e: Env, t: nat, latest: Option<Address>)
    requires Loaded(g) && SessionOk(g, v, t, latest) && t <= e.now < TWO32
    ensures SessionOk(g, Tick(g, h, v, e).0, e.now, Newer(latest, Answer(g, v, Timer(e))))
  {
    hide OpenPacket, EchoPacket, SlotsOk, Reset, Elapsed, StampedBy;
    LaterSessionOk(g, v, t, e.now, latest);
    var ready := v.(socketOpen := true);
    ResetKeepsSessionOk(g, h, ready, e.socketOk, e.now, latest);
    if v.state == IpReady {
      var sent := ready.(state := AuthSent, serverPort := g.port, lastRecv := e.now, lastOpen := 0);
      ResetKeepsSessionOk(g, h, sent, e.socketOk, e.now, latest);
    }
  }

  lemma StepKeepsSessionOk(g: ClientConfig, h: Hash, v: View, e: Event, t: nat, latest: Option<Address>)
    requires Loaded(g) && SessionOk(g, v, t, latest) && t <= TimeOf(e, t) < TWO32
    ensures SessionOk(g, Step(g, h, v, e).0, TimeOf(e, t), Newer(latest, Answer(g, v, e)))
  {
    hide SessionOk, OnRecv, Tick, Reset, OnTunRead;
    match e
    case Recv(packet, env) => RecvKeepsSessionOk(g, h, v, packet, env, t, latest);
    case TunRead(_) =>
    case Timer(env) => TickKeepsSessionOk(g, h, v, env, t, latest);
    case Reconnect(socketOk) => ResetKeepsSessionOk(g, h, v, socketOk, t, latest);
  }

  lemma {:induction false} RunKeepsSessionOk(g: ClientConfig, h: Hash, v: View, events: seq<Event>, t: nat, latest: Option<Address>)
    requires Loaded(g) && SessionOk(g, v, t, latest) && Forward(t, events)
    ensures SessionOk(g, Run(g, h, v, events).0, EndTime(t, events), LastAnswer(g, h, v, latest, events))
    decreases |events|
  {
    hide SessionOk, Step, Answer;
    if events != [] {
      var e := events[0];
      StepKeepsSessionOk(g, h, v, e, t, latest);
      RunKeepsSessionOk(g, h, Step(g, h, v, e).0, events[1..], TimeOf(e, t), Newer(latest, Answer(g, v, e)));
    }
  }

  // The last answer after a run from the start of the program.
  function Resolved(g: ClientConfig, h: Hash, resolved: Option<Address>, events: seq<Event>): Option<Address>
    requires Loaded(g)
  {
    LastAnswer(g, h, Start(g, resolved), FirstAnswer(g, resolved), events)
  }

  // Every run from the start of the main loop keeps the invariants.
  lemma EveryRunKeepsSessionOk(g: ClientConfig, h: Hash, resolved: Option<Address>, events: seq<Event>, t: nat)
    requires Loaded(g) && Forward(t, events)
    ensures SessionOk(g, Run(g, h, Start(g, resolved), events).0, EndTime(t, events), Resolved(g, h, resolved, events))
  {
    StartOk(g, resolved, t);
    RunKeepsSessionOk(g, h, Start(g, resolved), events, t, FirstAnswer(g, resolved));
  }

  lemma StartOk(g: ClientConfig, resolved: Option<Address>, t: nat)
    ensures SessionOk(g, Start(g, resolved), t, FirstAnswer(g, resolved))
  {
    AllFreeOk(NoSlots());
  }

  // Whatever has happened, everything the client sends goes to the configured port of the last address that the server
  // resolved to: sending leaves both as they are, and there has been an answer.
  lemma SendsToResolvedServer(g: ClientConfig, h: Hash, resolved: Option<Address>, past: seq<Event>, e: Event, t: nat, packet: Bytes)
    requires Loaded(g) && Forward(t, past)
    requires ToServer(packet) in Step(g, h, Run(g, h, Start(g, resolved), past).0, e).1
    ensures
      var v := Run(g, h, Start(g, resolved), past).0;
      var v' := Step(g, h, v, e).0;
      && v.state != DnsNeeded && Resolved(g, h, resolved, past) == Some(v.serverAddr)
      && v'.serverAddr == v.serverAddr && v'.serverPort == g.port
  {
    hide Run, LastAnswer, Forward, EndTime;
    EveryRunKeepsSessionOk(g, h, resolved, past, t);
    SenderState(g, h, Run(g, h, Start(g, resolved), past).0, e, EndTime(t, past), Resolved(g, h, resolved, past), packet);
  }

  lemma SenderState(g: ClientConfig, h: Hash, v: View, e: Event, t: nat, latest: Option<Address>, packet: Bytes)
    requires Loaded(g) && SessionOk(g, v, t, latest) && ToServer(packet) in Step(g, h, v, e).1
    ensures
      var v' := Step(g, h, v, e).0;
      && (v.state == IpReady || v.state == AuthSent || v.state == Established)
      && v'.serverAddr == v.serverAddr && v'.serverPort == g.port
  {
    hide OpenPacket, EchoPacket, ClosePacket, SlotsOk, StampedBy, OnRecv, OnTunRead, DerivedKey, Elapsed;
    if e.Recv? {
      NothingSentOnRecv(g, h, v, e.packet, e.env, packet);
    }
    if e.TunRead? {
      assert v.state == Established by {
        SentWhenEstablished(g, h, v, e.data);
      }
    }
  }

  lemma SentWhenEstablished(g: ClientConfig, h: Hash, v: View, data: Bytes)
    ensures OnTunRead(g, h, v, data) != [] ==> v.state == Established
  {
  }

  // Receiving never sends.
  lemma NothingSentOnRecv(g: ClientConfig, h: Hash, v: View, packet: Bytes, e: Env, sent: Bytes)
    ensures ToServer(sent) !in OnRecv(g, h, v, packet, e).1
  {
    hide IpfragStep, Inner, WithTerms, ItemPrefix, XorData, EffectiveMtu, EffectiveMode, SrKey, Verified, FromLittleEndian,
         DerivedKey;
  }

  // ----- Delays since the last reset -----

  // The delay an event measures, if it does.
  function Measured(h: Hash, v: View, e: Event): Option<nat>
  {
    if e.Recv? && |e.packet| >= SIGNED_HEADER + 8 && e.packet[0] == ECHORESP && v.state == Established && Verified(h, e.packet)
    then Some((e.env.usec - FromLittleEndian(e.packet[24..32])) % TWO32)
    else None
  }

  predicate Resets(h: Hash, v: View, e: Event)
  {
    match e
    case Reconnect(_) => true
    case Timer(env) =>
      (v.socketOpen || env.socketOk) &&
      (match v.state
       case AuthSent => Elapsed(env.now, v.lastRecv) > AUTH_TIMEOUT
       case Established => Elapsed(env.now, v.lastRecv) > DATA_TIMEOUT
       case Closed => true
       case _ => false)
    case _ => false
  }

  // All delays measured since the last reset, after ds and the events.
  function Delays(g: ClientConfig, h: Hash, v: View, ds: seq<nat>, events: seq<Event>): seq<nat>
    requires Loaded(g)
    decreases |events|
  {
    if events == [] then ds
    else
      var m := Measured(h, v, events[0]);
      var ds' := if Resets(h, v, events[0]) then [] else if m.Some? then ds + [m.value] else ds;
      Delays(g, h, Step(g, h, v, events[0]).0, ds', events[1..])
  }

  function Largest(ds: seq<nat>): nat
  {
    if ds == [] then 0
    else
      var rest := Largest(ds[..|ds| - 1]);
      if ds[|ds| - 1] > rest then ds[|ds| - 1] else rest
  }

  function Smallest(ds: seq<nat>): nat
  {
    if ds == [] then INITIAL_MIN_DELAY
    else
      var rest := Smallest(ds[..|ds| - 1]);
      if ds[|ds| - 1] < rest then ds[|ds| - 1] else rest
  }

  ghost predicate DelaysAre(v: View, ds: seq<nat>)
  {
    v.maxDelay == Largest(ds) && v.minDelay == Smallest(ds) && v.curDelay == if ds == [] then 0 else ds[|ds| - 1]
  }

  lemma ExtremesOf(ds: seq<nat>)
    ensures forall d | d in ds :: Smallest(ds) <= d <= Largest(ds)
    ensures ds != [] ==> Largest(ds) in ds
    ensures Smallest(ds) == INITIAL_MIN_DELAY || Smallest(ds) in ds
    ensures Smallest(ds) <= INITIAL_MIN_DELAY
  {
    if ds != [] {
      ExtremesOf(ds[..|ds| - 1]);
      assert ds == ds[..|ds| - 1] + [ds[|ds| - 1]];
    }
  }

  lemma OneMoreDelay(ds: seq<nat>, d: nat)
    ensures Largest(ds + [d]) == (if d > Largest(ds) then d else Largest(ds))
    ensures Smallest(ds + [d]) == (if d < Smallest(ds) then d else Smallest(ds))
  {
    assert (ds + [d])[..|ds|] == ds;
  }

  ghost predicate SameDelays(v: View, w: View)
  {
    v.curDelay == w.curDelay && v.minDelay == w.minDelay && v.maxDelay == w.maxDelay
  }

  lemma RecvDelays(g: ClientConfig, h: Hash, v: View, packet: Bytes, e: Env)
    ensures
      var (v', m) := (OnRecv(g, h, v, packet, e).0, Measured(h, v, Recv(packet, e)));
      && (m.None? ==> SameDelays(v, v'))
      && (m.Some? ==>
            && v'.curDelay == m.value
            && v'.maxDelay == (if m.value > v.maxDelay then m.value else v.maxDelay)
            && v'.minDelay == (if m.value < v.minDelay then m.value else v.minDelay))
  {
    hide IpfragStep, Inner, WithTerms, ItemPrefix, XorData, EffectiveMtu, EffectiveMode, SrKey, Verified, FromLittleEndian, DerivedKey;
  }

  lemma TickDelays(g: ClientConfig, h: Hash, v: View, e: Env)
    requires Loaded(g) && v.state != NotReady
    ensures
      var v' := Tick(g, h, v, e).0;
      if Resets(h, v, Timer(e)) then DelaysAre(v', []) else SameDelays(v, v')
  {
    hide OpenPacket, EchoPacket;
    JustStamped(e.now);
  }

  // The client's extremes are those of the delays measured since the last reset, over every run.
  lemma {:induction false} DelaysTracked(g: ClientConfig, h: Hash, v: View, ds: seq<nat>, events: seq<Event>, t: nat,
                                         latest: Option<Address>)
    requires Loaded(g) && SessionOk(g, v, t, latest) && Forward(t, events) && DelaysAre(v, ds)
    ensures DelaysAre(Run(g, h, v, events).0, Delays(g, h, v, ds, events))
    decreases |events|
  {
    if events != [] {
      hide SessionOk, OnRecv, Tick, OnTunRead;
      var e := events[0];
      StepKeepsSessionOk(g, h, v, e, t, latest);
      var m := Measured(h, v, e);
      var ds' := if Resets(h, v, e) then [] else if m.Some? then ds + [m.value] else ds;
      match e {
        case Recv(packet, env) =>
          RecvDelays(g, h, v, packet, env);
          if m.Some? {
            OneMoreDelay(ds, m.value);
          }
        case Timer(env) =>
          assert v.state != NotReady by { ReadySession(g, v, t, latest); }
          TickDelays(g, h, v, env);
        case _ =>
      }
      DelaysTracked(g, h, Step(g, h, v, e).0, ds', events[1..], TimeOf(e, t), Newer(latest, Answer(g, v, e)));
    }
  }

  lemma ReadySession(g: ClientConfig, v: View, t: nat, latest: Option<Address>)
    requires SessionOk(g, v, t, latest)
    ensures v.state != NotReady
  {
  }

  // ----- Authentication attempts end -----

  // No packet prolongs an attempt: while it lasts, nothing received touches its timers or sends anything.
  lemma PacketsDoNotProlong(g: ClientConfig, h: Hash, v: View, packet: Bytes, e: Env)
    requires v.state == AuthSent && OnRecv(g, h, v, packet, e).0.state == AuthSent
    ensures
      var (v', effects) := OnRecv(g, h, v, packet, e);
      v'.lastRecv == v.lastRecv && v'.lastOpen == v.lastOpen && v'.socketOpen == v.socketOpen && effects == []
  {
    hide OnData, OnIpfrag, OnSegrt, OnEchoResp, OnClose, WithTerms, ItemPrefix, EffectiveMtu, Verified, DerivedKey;
    if |packet| >= HEADER {
      IgnoredOutsideSession(g, h, DerivedKey(h, g.username, g.password), v, packet, e);
    }
  }

  lemma IgnoredOutsideSession(g: ClientConfig, h: Hash, key: XorKey, v: View, packet: Bytes, e: Env)
    requires v.state != Established && |packet| >= HEADER
    ensures OnData(key, v, packet) == OnIpfrag(key, v, packet, e.now) == OnSegrt(g, key, v, packet, e.now)
            == OnEchoResp(h, v, packet, e.usec) == OnClose(h, v, packet) == Reaction(v, [], false)
  {
    hide IpfragStep, Inner, XorData, Verified, FromLittleEndian;
  }

  function CountOpens(g: ClientConfig, h: Hash, effects: seq<Effect>): nat
    requires Loaded(g)
  {
    if effects == [] then 0
    else (if effects[0] == ToServer(OpenPacket(g, h)) then 1 else 0) + CountOpens(g, h, effects[1..])
  }

  lemma {:induction false} CountOpensSum(g: ClientConfig, h: Hash, a: seq<Effect>, b: seq<Effect>)
    requires Loaded(g)
    ensures CountOpens(g, h, a + b) == CountOpens(g, h, a) + CountOpens(g, h, b)
  {
    hide OpenPacket;
    if a == [] {
      assert a + b == b;
    } else {
      assert (a + b)[1..] == a[1..] + b;
      CountOpensSum(g, h, a[1..], b);
    }
  }

  // Every state of the run is AuthSent.
  ghost predicate StaysInAuth(g: ClientConfig, h: Hash, v: View, events: seq<Event>)
    requires Loaded(g)
    decreases |events|
  {
    v.state == AuthSent && (events == [] || StaysInAuth(g, h, Step(g, h, v, events[0]).0, events[1..]))
  }

  lemma AuthTimer(g: ClientConfig, h: Hash, v: View, e: Env)
    requires Loaded(g) && v.state == AuthSent && v.socketOpen && v.lastRecv <= e.now < TWO32 && v.lastOpen <= e.now
    ensures
      var (v', effects) := Tick(g, h, v, e);
      if v'.state != AuthSent then e.now > v.lastRecv + AUTH_TIMEOUT
      else
        && e.now <= v.lastRecv + AUTH_TIMEOUT && v'.lastRecv == v.lastRecv && v'.socketOpen
        && (if e.now >= v.lastOpen + AUTH_RETRY_INTERVAL
            then v'.lastOpen == e.now && effects == [ToServer(OpenPacket(g, h))]
            else v'.lastOpen == v.lastOpen && effects == [])
  {
    hide OpenPacket;
  }

  // As long as an attempt lasts: no tick comes later than six seconds after it began, and the OPEN packets still to be
  // sent are limited by the time left, whatever is received.
  lemma {:induction false} AttemptIsBounded(g: ClientConfig, h: Hash, v: View, events: seq<Event>, t: nat)
    requires Loaded(g) && StaysInAuth(g, h, v, events) && Forward(t, events)
    requires v.socketOpen && v.lastRecv <= t && v.lastOpen <= t && v.lastOpen <= v.lastRecv + AUTH_TIMEOUT
    ensures CountOpens(g, h, Run(g, h, v, events).1) <= (v.lastRecv + AUTH_TIMEOUT - v.lastOpen) / AUTH_RETRY_INTERVAL
    ensures forall i | 0 <= i < |events| && events[i].Timer? :: events[i].env.now <= v.lastRecv + AUTH_TIMEOUT
    decreases |events|
  {
    if events != [] {
      hide OnRecv, Tick, OpenPacket;
      var e := events[0];
      var (v', effects) := Step(g, h, v, e);
      match e {
        case Recv(packet, env) => PacketsDoNotProlong(g, h, v, packet, env);
        case Timer(env) => AuthTimer(g, h, v, env);
        case _ =>
      }
      CountOpensSum(g, h, effects, Run(g, h, v', events[1..]).1);
      AttemptIsBounded(g, h, v', events[1..], TimeOf(e, t));
      forall i | 0 <= i < |events| && events[i].Timer?
        ensures events[i].env.now <= v.lastRecv + AUTH_TIMEOUT
      {
        if i > 0 {
          assert events[1..][i - 1] == events[i];
        }
      }
    }
  }

  lemma FirstTick(g: ClientConfig, h: Hash, v: View, e: Env)
    requires Loaded(g) && v.state == IpReady && (v.socketOpen || e.socketOk) && e.now < TWO32
    ensures
      var (v', effects) := Tick(g, h, v, e);
      && v'.state == AuthSent && v'.lastRecv == e.now && v'.socketOpen && CountOpens(g, h, effects) <= 1
      && (if e.now >= 2 then v'.lastOpen == e.now && effects == [ToServer(OpenPacket(g, h))]
          else v'.lastOpen == 0 && effects == [])
  {
    hide OpenPacket, Reset;
    assert Elapsed(e.now, e.now) == 0;
    assert [ToServer(OpenPacket(g, h))][1..] == [];
  }

  // An attempt, from the tick that begins it to the last event before it ends, sends at most four OPEN packets.
  lemma AtMostFourOpens(g: ClientConfig, h: Hash, v: View, e: Env, events: seq<Event>)
    requires Loaded(g) && v.state == IpReady && (v.socketOpen || e.socketOk) && e.now < TWO32 && Forward(e.now, events)
    requires StaysInAuth(g, h, Tick(g, h, v, e).0, events)
    ensures CountOpens(g, h, Run(g, h, v, [Timer(e)] + events).1) <= 4
    ensures forall i | 0 <= i < |events| && events[i].Timer? :: events[i].env.now <= e.now + AUTH_TIMEOUT
  {
    hide Tick, OpenPacket;
    var (v', effects) := Tick(g, h, v, e);
    FirstTick(g, h, v, e);
    AttemptIsBounded(g, h, v', events, e.now);
    assert ([Timer(e)] + events)[1..] == events;
    CountOpensSum(g, h, effects, Run(g, h, v', events).1);
  }

  // ----- Recovery -----

  // How many ticks may pass before an OPEN is sent, when nothing is received.
  function TicksLeft(v: View, t: nat): (n: nat)
    ensures 1 <= n <= DATA_TIMEOUT + 3
  {
    match v.state
    case IpReady => 1
    case DnsNeeded => 2
    case AuthSent => if v.lastOpen == t then 4 else 3
    case Established => if v.lastRecv <= t < v.lastRecv + DATA_TIMEOUT then DATA_TIMEOUT + 3 - (t - v.lastRecv) else 3
    case _ => 3
  }

  // The environment works: sockets can be made and the server has an address.
  predicate Working(e: Env)
  {
    e.socketOk && e.resolved.Some?
  }

  // Each tick sends a fresh OPEN or brings it nearer.
  lemma TickMakesProgress(g: ClientConfig, h: Hash, v: View, e: Env, t: nat, latest: Option<Address>)
    requires Loaded(g) && SessionOk(g, v, t, latest) && t < e.now < TWO32 && 2 <= e.now && Working(e)
    ensures
      var (v', effects) := Tick(g, h, v, e);
      ToServer(OpenPacket(g, h)) in effects || TicksLeft(v', e.now) < TicksLeft(v, t)
  {
    hide OpenPacket, EchoPacket, ClosePacket, SlotsOk;
  }

  // Timer ticks at ever later times, in a working environment, with reads from the TUN device in between.
  ghost predicate OnlyTicks(t: nat, events: seq<Event>)
    decreases |events|
  {
    events == [] ||
    (match events[0]
     case Timer(e) => t < e.now < TWO32 && 2 <= e.now && Working(e) && OnlyTicks(e.now, events[1..])
     case TunRead(_) => OnlyTicks(t, events[1..])
     case _ => false)
  }

  function CountTicks(events: seq<Event>): nat
  {
    if events == [] then 0 else (if events[0].Timer? then 1 else 0) + CountTicks(events[1..])
  }

  // From every state the main loop reaches, an OPEN is sent within DATA_TIMEOUT + 3 ticks.
  lemma {:induction false} Recovers(g: ClientConfig, h: Hash, v: View, events: seq<Event>, t: nat, latest: Option<Address>)
    requires Loaded(g) && SessionOk(g, v, t, latest) && OnlyTicks(t, events) && CountTicks(events) >= TicksLeft(v, t)
    ensures ToServer(OpenPacket(g, h)) in Run(g, h, v, events).1
    decreases |events|
  {
    hide SessionOk, Tick, OpenPacket, OnTunRead, TicksLeft;
    var e := events[0];
    var (v', effects) := Step(g, h, v, e);
    match e {
      case Timer(env) =>
        TickMakesProgress(g, h, v, env, t, latest);
        TickKeepsSessionOk(g, h, v, env, t, latest);
        if ToServer(OpenPacket(g, h)) !in effects {
          Recovers(g, h, v', events[1..], env.now, Newer(latest, Answer(g, v, e)));
        }
      case TunRead(_) =>
        Recovers(g, h, v', events[1..], t, latest);
    }
  }

  // Whatever has happened since the start, eighteen quiet ticks are enough.
  lemma AlwaysRecovers(g: ClientConfig, h: Hash, resolved: Option<Address>, past: seq<Event>, quiet: seq<Event>, t: nat)
    requires Loaded(g) && Forward(t, past) && OnlyTicks(EndTime(t, past), quiet) && CountTicks(quiet) >= 18
    ensures ToServer(OpenPacket(g, h)) in Run(g, h, Run(g, h, Start(g, resolved), past).0, quiet).1
  {
    hide OpenPacket, Step, SessionOk;
    EveryRunKeepsSessionOk(g, h, resolved, past, t);
    Recovers(g, h, Run(g, h, Start(g, resolved), past).0, quiet, EndTime(t, past), Resolved(g, h, resolved, past));
  }

  // ----- What ends a session, and what follows -----

  // A reset tells the server if there is a session and a socket, clears the TUN device after a session, and forgets
  // everything about the session; a server given by name has to be resolved again.
  lemma ResetOutcome(g: ClientConfig, h: Hash, v: View, socketOk: bool, t: nat, latest: Option<Address>)
    requires SessionOk(g, v, t, latest)
    ensures
      var (v', effects) := Reset(h, v, socketOk);
      && v'.state == (if g.server.None? then DnsNeeded else IpReady)
      && (forall p :: ToServer(p) in effects <==> v.state == Established && p == ClosePacket(h, v))
      && (ClearTun in effects <==> v.state == Established || v.state == Closed)
      && (v.state == Established ==> effects == [ToServer(ClosePacket(h, v)), ClearTun])
      && v'.terms == NO_TERMS && v'.token == [0, 0] && v'.id == [0, 0, 0, 0] && v'.echoCounter == 0 && DelaysAre(v', [])
      && v'.lastRecv == v'.lastOpen == 0 && v'.socketOpen == socketOk
      && v'.serverAddr == v.serverAddr && v'.serverPort == v.serverPort
      && forall i, now | 0 <= i < |v'.slots| :: !Live(v'.slots[i], now)
  {
    hide ClosePacket, SlotsOk, StampedBy;
  }

  // The tick after a reset asks the resolver about a server given by name, and begins an attempt with any other.
  lemma TickAfterReset(g: ClientConfig, h: Hash, v: View, socketOk: bool, t: nat, latest: Option<Address>, e: Env)
    requires Loaded(g) && SessionOk(g, v, t, latest) && e.socketOk && e.now < TWO32
    ensures
      var v' := Reset(h, v, socketOk).0;
      var w := Tick(g, h, v', e).0;
      if g.server.None? then
        Answer(g, v', Timer(e)) == e.resolved
        && w.state == (if e.resolved.Some? then IpReady else DnsNeeded) && (e.resolved.Some? ==> w.serverAddr == e.resolved.value)
      else w.state == AuthSent && w.serverAddr == g.server.value
  {
    hide OpenPacket, ClosePacket, SlotsOk, StampedBy;
    JustStamped(e.now);
  }

  // A verified CLOSE from the server ends an established session: the next tick resets it, without a CLOSE in return.
  lemma CloseEndsTheSession(g: ClientConfig, h: Hash, v: View, packet: Bytes, e: Env, t: nat, latest: Option<Address>, tick: Env)
    requires Loaded(g) && SessionOk(g, v, t, latest) && v.state == Established && Closes(h, packet) && t <= e.now < TWO32
    ensures
      var (v', effects) := OnRecv(g, h, v, packet, e);
      && v' == v.(state := Closed, lastRecv := e.now) && effects == []
      && var (w, sent) := Tick(g, h, v', tick);
         w.state == (if g.server.None? then DnsNeeded else IpReady) && sent == [ClearTun]
  {
    hide ClosePacket, SlotsOk, StampedBy, Verified, DerivedKey;
  }

  // Packets that do not belong to the state of the client, or are not signed where they have to be, change nothing.
  lemma StrayPacketsIgnored(g: ClientConfig, h: Hash, v: View, packet: Bytes, e: Env)
    requires |packet| < HEADER || v.state == NotReady || v.state == DnsNeeded || v.state == IpReady || v.state == Closed
             || (v.state == AuthSent && packet[0] != OPENREJ && (packet[0] != OPENACK || !Verified(h, packet)))
             || (v.state == Established && (packet[0] == OPENACK || packet[0] == OPENREJ))
             || (v.state == Established && (packet[0] == ECHORESP || packet[0] == CLOSE) && !Verified(h, packet))
    ensures OnRecv(g, h, v, packet, e) == (v, [])
  {
    hide OnData, OnIpfrag, OnSegrt, WithTerms, ItemPrefix, EffectiveMtu, Verified, DerivedKey, FromLittleEndian;
    if |packet| >= HEADER && v.state != Established {
      IgnoredOutsideSession(g, h, DerivedKey(h, g.username, g.password), v, packet, e);
    }
  }

  // ----- Keeping a session alive -----

  // The session lasts: every state of the run is Established.
  ghost predicate StaysEstablished(g: ClientConfig, h: Hash, v: View, events: seq<Event>)
    requires Loaded(g)
    decreases |events|
  {
    v.state == Established && (events == [] || StaysEstablished(g, h, Step(g, h, v, events[0]).0, events[1..]))
  }

  // What each event of a run brings about.
  function EffectsOf(g: ClientConfig, h: Hash, v: View, events: seq<Event>): (r: seq<seq<Effect>>)
    requires Loaded(g)
    ensures |r| == |events|
    decreases |events|
  {
    if events == [] then []
    else [Step(g, h, v, events[0]).1] + EffectsOf(g, h, Step(g, h, v, events[0]).0, events[1..])
  }

  // A tick of an established client: a reset exactly when nothing was accepted for more than DATA_TIMEOUT seconds, and
  // otherwise an echo request at every second one.
  lemma EstablishedTick(g: ClientConfig, h: Hash, v: View, e: Env)
    requires Loaded(g) && v.state == Established && v.socketOpen && v.lastRecv <= e.now < TWO32
    ensures
      var (v', effects) := Tick(g, h, v, e);
      if e.now > v.lastRecv + DATA_TIMEOUT then (v', effects) == Reset(h, v, e.socketOk) && v'.state != Established
      else
        && v' == v.(echoCounter := v'.echoCounter) && v'.echoCounter % 2 == 1 - v.echoCounter % 2
        && effects == if v.echoCounter % 2 == 1 then [ToServer(EchoPacket(h, v', e.usec))] else []
  {
    hide EchoPacket, ClosePacket;
    NextCounter(v.echoCounter);
  }

  // Without a socket a tick does nothing; the next one tries again.
  lemma TickWithoutSocket(g: ClientConfig, h: Hash, v: View, e: Env)
    requires Loaded(g) && !v.socketOpen
    ensures !e.socketOk ==> Tick(g, h, v, e) == (v, [])
    ensures e.socketOk ==> Tick(g, h, v, e) == Tick(g, h, v.(socketOpen := true), e)
  {
    hide OpenPacket, EchoPacket, Reset, Elapsed;
  }

  lemma NextCounter(n: nat)
    ensures (n + 1) % TWO32 % 2 == 1 - n % 2
  {
  }

  ghost predicate NoTimer(events: seq<Event>)
  {
    forall k | 0 <= k < |events| :: !events[k].Timer?
  }

  // What an established client accepts from the server, and what ends its session.
  predicate IsEchoAnswer(h: Hash, packet: Bytes)
  {
    |packet| >= HEADER && packet[0] == ECHORESP && Verified(h, packet)
  }

  predicate Closes(h: Hash, packet: Bytes)
  {
    |packet| >= HEADER && packet[0] == CLOSE && Verified(h, packet)
  }

  lemma RecvInSession(g: ClientConfig, h: Hash, v: View, packet: Bytes, e: Env)
    requires v.state == Established
    ensures
      var v' := OnRecv(g, h, v, packet, e).0;
      && v'.state == (if Closes(h, packet) then Closed else Established)
      && v'.echoCounter == v.echoCounter && v'.socketOpen == v.socketOpen
      && (v'.lastRecv == v.lastRecv || v'.lastRecv == e.now)
      && (IsEchoAnswer(h, packet) ==> v'.lastRecv == e.now)
  {
    hide IpfragStep, Inner, WithTerms, ItemPrefix, XorData, EffectiveMtu, EffectiveMode, SrKey, Verified, FromLittleEndian,
         DerivedKey;
  }

  lemma {:induction false} CounterBetweenTicks(g: ClientConfig, h: Hash, v: View, events: seq<Event>)
    requires Loaded(g) && NoTimer(events) && StaysEstablished(g, h, v, events)
    ensures Run(g, h, v, events).0.echoCounter == v.echoCounter && Run(g, h, v, events).0.socketOpen == v.socketOpen
    ensures Run(g, h, v, events).0.state == Established
    decreases |events|
  {
    if events != [] {
      hide OnRecv, OnTunRead, ClosePacket;
      match events[0] {
        case Recv(packet, env) => RecvInSession(g, h, v, packet, env);
        case _ =>
      }
      CounterBetweenTicks(g, h, Step(g, h, v, events[0]).0, events[1..]);
    }
  }

  // Of two consecutive ticks of a session that lasts, exactly one sends an echo request and the other nothing, whatever
  // else happens between them.
  lemma EchoEverySecondTick(g: ClientConfig, h: Hash, v: View, e1: Env, middle: seq<Event>, e2: Env)
    requires Loaded(g) && v.socketOpen && NoTimer(middle)
    requires StaysEstablished(g, h, v, [Timer(e1)] + (middle + [Timer(e2)]))
    requires
      var v1 := Tick(g, h, v, e1).0;
      v.lastRecv <= e1.now < TWO32 && Run(g, h, v1, middle).0.lastRecv <= e2.now < TWO32
    ensures
      var (v1, sent1) := Tick(g, h, v, e1);
      var (v2, sent2) := Tick(g, h, Run(g, h, v1, middle).0, e2);
      || (sent1 == [ToServer(EchoPacket(h, v1, e1.usec))] && sent2 == [])
      || (sent1 == [] && sent2 == [ToServer(EchoPacket(h, v2, e2.usec))])
  {
    hide Tick, EchoPacket, Run;
    var v1 := Tick(g, h, v, e1).0;
    StaysSplit(g, h, v, e1, middle, e2);
    EstablishedTick(g, h, v, e1);
    CounterBetweenTicks(g, h, v1, middle);
    EstablishedTick(g, h, Run(g, h, v1, middle).0, e2);
  }

  lemma StaysSplit(g: ClientConfig, h: Hash, v: View, e1: Env, middle: seq<Event>, e2: Env)
    requires Loaded(g) && StaysEstablished(g, h, v, [Timer(e1)] + (middle + [Timer(e2)]))
    ensures
      var v1 := Tick(g, h, v, e1).0;
      && v.state == Established && v1.state == Established && StaysEstablished(g, h, v1, middle)
      && Tick(g, h, Run(g, h, v1, middle).0, e2).0.state == Established
  {
    hide Tick;
    assert ([Timer(e1)] + (middle + [Timer(e2)]))[1..] == middle + [Timer(e2)];
    StaysAppend(g, h, Tick(g, h, v, e1).0, middle, Timer(e2));
  }

  lemma {:induction false} StaysAppend(g: ClientConfig, h: Hash, v: View, events: seq<Event>, e: Event)
    requires Loaded(g) && StaysEstablished(g, h, v, events + [e])
    ensures StaysEstablished(g, h, v, events)
    ensures Step(g, h, Run(g, h, v, events).0, e).0.state == Established
    decreases |events|
  {
    hide Step;
    if events == [] {
      assert ([] + [e])[1..] == [];
    } else {
      assert (events + [e])[1..] == events[1..] + [e];
      StaysAppend(g, h, Step(g, h, v, events[0]).0, events[1..], e);
    }
  }

  // Ticks come at most period seconds apart, and no tick passes an echo request by more than reply seconds without an
  // answer to it: due is when the first unanswered request has to be answered, last the time of the last tick. Nothing
  // ends the session: no CLOSE arrives and no reconnect is asked for.
  ghost predicate EchoesAnswered(g: ClientConfig, h: Hash, v: View, events: seq<Event>, last: nat, due: Option<nat>, period: nat, reply: nat)
    requires Loaded(g)
    decreases |events|
  {
    events == [] ||
    (match events[0]
     case Timer(e) =>
       var (v', sent) := Tick(g, h, v, e);
       var due' := if due.None? && sent != [] then Some(e.now + reply) else due;
       && e.now <= last + period && (due.Some? ==> e.now <= due.value)
       && EchoesAnswered(g, h, v', events[1..], e.now, due', period, reply)
     case Recv(packet, e) =>
       && !Closes(h, packet)
       && EchoesAnswered(g, h, OnRecv(g, h, v, packet, e).0, events[1..], last, if IsEchoAnswer(h, packet) then None else due, period, reply)
     case TunRead(_) => EchoesAnswered(g, h, v, events[1..], last, due, period, reply)
     case Reconnect(_) => false)
  }

  // The time left before the timeout is enough for the ticks up to the next request and for its answer.
  ghost predicate InTime(v: View, last: nat, due: Option<nat>, period: nat, reply: nat)
  {
    match due
    case Some(d) => d <= v.lastRecv + DATA_TIMEOUT
    case None => last + (if v.echoCounter % 2 == 1 then period else 2 * period) + reply <= v.lastRecv + DATA_TIMEOUT
  }

  lemma {:induction false} AnsweredSessionLasts(g: ClientConfig, h: Hash, v: View, t: nat, events: seq<Event>,
                                                last: nat, due: Option<nat>, period: nat, reply: nat)
    requires Loaded(g) && Forward(t, events) && v.state == Established && v.socketOpen && v.lastRecv <= t && last <= t
    requires 2 * period + reply <= DATA_TIMEOUT && InTime(v, last, due, period, reply)
    requires EchoesAnswered(g, h, v, events, last, due, period, reply)
    ensures StaysEstablished(g, h, v, events)
    decreases |events|
  {
    if events != [] {
      hide OnRecv, Tick, EchoPacket, OnTunRead;
      var rest := events[1..];
      match events[0]
      case Timer(e) =>
        EstablishedTick(g, h, v, e);
        var (v', sent) := Tick(g, h, v, e);
        AnsweredSessionLasts(g, h, v', e.now, rest, e.now, if due.None? && sent != [] then Some(e.now + reply) else due, period, reply);
      case Recv(packet, e) =>
        RecvInSession(g, h, v, packet, e);
        AnsweredSessionLasts(g, h, OnRecv(g, h, v, packet, e).0, e.now, rest, last,
                             if IsEchoAnswer(h, packet) then None else due, period, reply);
      case TunRead(_) =>
        AnsweredSessionLasts(g, h, v, t, rest, last, due, period, reply);
    }
  }

  // However idle it is otherwise, a session whose echo requests are answered in time is never reset: with ticks at most
  // period seconds apart, answers may take what two periods leave of fifteen seconds.
  lemma IdleSessionLasts(g: ClientConfig, h: Hash, v: View, t: nat, events: seq<Event>, last: nat, period: nat, reply: nat)
    requires Loaded(g) && Forward(t, events) && v.state == Established && v.socketOpen && last <= v.lastRecv <= t
    requires 2 * period + reply <= 15 && EchoesAnswered(g, h, v, events, last, None, period, reply)
    ensures StaysEstablished(g, h, v, events)
  {
    AnsweredSessionLasts(g, h, v, t, events, last, None, period, reply);
  }
}
