/** Fragmented and segment-routed payloads, as the client's handlers see them. */
module Deliveries {
  import opened AesCipher
  import opened Wire
  import opened Fragments
  import opened FragmentTable
  import opened FragmentRuns
  import opened SegmentRouting
  import opened ClientModel
  import opened ClientRuns

  // ----- Segment routing -----

  // A DATA or DATA_ENC packet that a segment router padded, encrypted and wrapped comes out at the TUN device, whatever
  // route, padding and headers the router chose and whichever of the two modes the client is configured for.
  lemma RoutedPayloadArrives(g: ClientConfig, h: Hash, v: View, e: Env, header: Bytes, next: bv8, flags: bv8, rest: bv8,
                             links: seq<Address>, token: Token, id: SessionId, encrypt: bool, payload: Bytes, pad: Bytes)
    requires v.state == Established && |g.srLinks| > 0 && 1 <= g.srMode <= 2
    requires |header| == HEADER && header[0] == SEGRT && |links| < 256
    requires payload != [] && (HEADER + |payload| + |pad|) % 16 == 0 && HEADER + |payload| + |pad| <= PACKET_BUFFER
    requires flags & 7 == 1 && PadLength(flags) == |pad|
    ensures
      var inner := DataPacket(token, id, payload, encrypt, DerivedKey(h, g.username, g.password));
      var packet := Encapsulated(SrKey(g.srPassword, g.srLinks), header, next, flags, rest, links, inner, pad);
      OnRecv(g, h, v, packet, e) == (v.(lastRecv := e.now), [ToTun(payload)])
  {
    hide XorData, DerivedKey, SrKey, Inner, EcbEncrypt, PadLength, Header;
    var key := DerivedKey(h, g.username, g.password);
    var inner := DataPacket(token, id, payload, encrypt, key);
    DecapsulationUndoes(|g.srLinks|, SrKey(g.srPassword, g.srLinks), header, next, flags, rest, links, inner, pad);
    XorDataTwice(key, payload);
    assert inner[HEADER..] == if encrypt then XorData(key, payload) else payload;
  }

  // A segment-routed packet whose inner packet is not encrypted.
  function Wrapped(header: Bytes, next: bv8, flags: bv8, rest: bv8, links: seq<Address>, inner: Bytes): Bytes
    requires |header| == HEADER && |links| < 256
  {
    header + [next, Byte(|links|), flags, rest] + Flatten(links) + inner
  }

  lemma WrappedFields(header: Bytes, next: bv8, flags: bv8, rest: bv8, links: seq<Address>, inner: Bytes)
    requires |header| == HEADER && |links| < 256
    ensures
      var packet := Wrapped(header, next, flags, rest, links, inner);
      && |packet| == HEADER + 4 + 4 * |links| + |inner| && packet[0] == header[0] && packet[10] == flags
      && SrHeaderLength(packet) == 4 + 4 * |links| && packet[HEADER + 4 + 4 * |links|..] == inner
  {
    hide Byte;
    FlattenLength(links);
    var packet := Wrapped(header, next, flags, rest, links, inner);
    assert packet[9] == Byte(|links|) && packet[10] == flags;
  }

  // A client without links or with mode 0 takes every inner packet as it is; any other client does so when the packet
  // names no algorithm.
  lemma PlainRoutedPayloadArrives(g: ClientConfig, h: Hash, v: View, e: Env, header: Bytes, next: bv8, flags: bv8, rest: bv8,
                                  links: seq<Address>, token: Token, id: SessionId, encrypt: bool, payload: Bytes)
    requires v.state == Established && (|g.srLinks| == 0 || g.srMode == 0 || flags & 7 == 0)
    requires |header| == HEADER && header[0] == SEGRT && |links| < 256
    requires payload != [] && HEADER + |payload| <= PACKET_BUFFER
    ensures
      var inner := DataPacket(token, id, payload, encrypt, DerivedKey(h, g.username, g.password));
      OnRecv(g, h, v, Wrapped(header, next, flags, rest, links, inner), e) == (v.(lastRecv := e.now), [ToTun(payload)])
  {
    hide XorData, DerivedKey, SrKey, PadLength, Header, Wrapped, SrHeaderLength, SrDecrypted;
    var key := DerivedKey(h, g.username, g.password);
    var inner := DataPacket(token, id, payload, encrypt, key);
    WrappedFields(header, next, flags, rest, links, inner);
    XorDataTwice(key, payload);
    assert Val(flags & 7) == 0 <==> flags & 7 == 0;
    assert inner[HEADER..] == if encrypt then XorData(key, payload) else payload;
  }

  // A packet that names another algorithm than the client's is dropped.
  lemma OtherAlgorithmIsDropped(g: ClientConfig, h: Hash, v: View, packet: Bytes, e: Env)
    requires ClientConfigOk(g) && |g.srLinks| > 0 && g.srMode > 0
    requires |packet| >= HEADER + 4 && packet[0] == SEGRT && packet[10] & 7 != 0 && packet[10] & 7 != 1
    ensures OnRecv(g, h, v, packet, e) == (v, [])
  {
    hide DerivedKey, SrKey, SrDecrypted, PadLength, SrHeaderLength, Val;
    if Val(packet[10] & 7) == 1 {
      assert Val(1) == 1 by {
        OneIs();
      }
      SameVal(packet[10] & 7, 1);
    }
  }

  lemma OneIs()
    ensures Val(1) == 1
  {
  }

  // The test before the decryption of a segment-routed packet.
  predicate Decrypts(g: ClientConfig, packet: Bytes)
    requires |packet| >= HEADER + 4
  {
    var mode := EffectiveMode(|g.srLinks|, g.srMode);
    |g.srLinks| > 0 && mode > 0 && Val(packet[10] & 7) == mode
  }

  // The key setup leaves no mode but 0 and 1, so every call of the decryption works on blocks of sixteen: it decrypts data
  // of whole blocks and refuses everything else.
  lemma OnlySixteenByteBlocks(g: ClientConfig, packet: Bytes, data: Bytes)
    requires ClientConfigOk(g) && |packet| >= HEADER + 4 && Decrypts(g, packet)
    ensures
      var key := SrKey(g.srPassword, g.srLinks);
      packet[10] & 7 == 1
      && SrDecrypted(key, packet[10] & 7, data) == if |data| % 16 == 0 then Some(EcbDecrypt(key, data)) else None
  {
    hide SrKey, EcbDecrypt;
    assert Val(packet[10] & 7) == 1 == Val(1);
    SameVal(packet[10] & 7, 1);
  }

  // ----- Fragments among everything else that happens -----

  // The fragment packet an event brings to an established client, by itself or in a segment-routed packet.
  function FragmentPacketOf(g: ClientConfig, e: Event): Option<Bytes>
  {
    if !e.Recv? || |e.packet| < HEADER then None
    else if e.packet[0] == IPFRAG then Some(e.packet)
    else if e.packet[0] == SEGRT then
      match Inner(|g.srLinks|, EffectiveMode(|g.srLinks|, g.srMode), SrKey(g.srPassword, g.srLinks), e.packet)
      case None => None
      case Some(inner) => if inner[0] == IPFRAG_SR then Some(inner) else None
    else None
  }

  function ArrivalOf(g: ClientConfig, e: Event): (r: Option<Arrival>)
    ensures r.Some? ==> e.Recv? && r.value.now == e.env.now && 1 <= |r.value.frag.data| < SLOT_BUFFER
  {
    match FragmentPacketOf(g, e)
    case None => None
    case Some(packet) =>
      match ParseFragment(packet)
      case None => None
      case Some(f) => Some(Arrival(f, e.env.now))
  }

  function Arrivals(g: ClientConfig, events: seq<Event>): seq<Arrival>
    decreases |events|
  {
    if events == [] then []
    else
      var rest := Arrivals(g, events[1..]);
      if ArrivalOf(g, events[0]).Some? then [ArrivalOf(g, events[0]).value] + rest else rest
  }

  // What a session writes for an answer of the table: what was gathered, decrypted if the session is encrypted.
  function Written(encrypt: bool, key: XorKey, out: Output): seq<Effect>
  {
    if out.written.None? then [] else [ToTun(if encrypt then XorData(key, out.written.value) else out.written.value)]
  }

  // Within a session, an event does to the slots what its fragment does, and writes what that delivers; an event without
  // a fragment leaves them alone.
  lemma EventReachesTheTable(g: ClientConfig, h: Hash, v: View, e: Event)
    requires Loaded(g) && v.state == Established && Step(g, h, v, e).0.state == Established
    ensures
      var (v', effects) := Step(g, h, v, e);
      var a := ArrivalOf(g, e);
      && v'.terms == v.terms
      && (a.None? ==> v'.slots == v.slots)
      && (a.Some? ==>
            var (slots, out) := SlotStep(v.slots, a.value.frag, a.value.now);
            && v'.slots == slots && effects == Written(v.terms.encrypt != 0, DerivedKey(h, g.username, g.password), out)
            && v'.lastRecv == if out.accepted then a.value.now else v.lastRecv)
  {
    match e
    case Recv(packet, env) => PacketReachesTheTable(g, h, v, packet, env);
    case TunRead(_) =>
    case Timer(env) => TickKeepsTheTable(g, h, v, env);
    case Reconnect(_) =>
  }

  lemma TickKeepsTheTable(g: ClientConfig, h: Hash, v: View, e: Env)
    requires Loaded(g) && v.state == Established && Tick(g, h, v, e).0.state == Established
    ensures Tick(g, h, v, e).0.slots == v.slots && Tick(g, h, v, e).0.terms == v.terms
  {
    hide EchoPacket, ClosePacket;
  }

  lemma PacketReachesTheTable(g: ClientConfig, h: Hash, v: View, packet: Bytes, env: Env)
    requires v.state == Established && OnRecv(g, h, v, packet, env).0.state == Established
    ensures
      var (v', effects) := OnRecv(g, h, v, packet, env);
      var a := ArrivalOf(g, Recv(packet, env));
      && v'.terms == v.terms
      && (a.None? ==> v'.slots == v.slots)
      && (a.Some? ==>
            var (slots, out) := SlotStep(v.slots, a.value.frag, a.value.now);
            && v'.slots == slots && effects == Written(v.terms.encrypt != 0, DerivedKey(h, g.username, g.password), out)
            && v'.lastRecv == if out.accepted then a.value.now else v.lastRecv)
  {
    hide DerivedKey, SlotStep, ParseFragment, Inner, XorData, Verified, OnIpfrag, Written, FromLittleEndian, SrKey, EffectiveMode, Elapsed,
         WithTerms, ItemPrefix, EffectiveMtu;
    var key := DerivedKey(h, g.username, g.password);
    var fragment := FragmentPacketOf(g, Recv(packet, env));
    if fragment.Some? {
      FragmentReachesTheTable(key, v, fragment.value, env.now);
    }
  }

  lemma FragmentReachesTheTable(key: XorKey, v: View, packet: Bytes, now: nat)
    requires v.state == Established
    ensures
      var r := OnIpfrag(key, v, packet, now);
      match ParseFragment(packet)
      case None => r.v == v
      case Some(f) =>
        var (slots, out) := SlotStep(v.slots, f, now);
        r.v == v.(slots := slots) && r.effects == Written(v.terms.encrypt != 0, key, out) && r.accepted == out.accepted
  {
    hide SlotStep, ParseFragment, XorData;
    match ParseFragment(packet)
    case None =>
    case Some(f) =>
      var out := SlotStep(v.slots, f, now).1;
      var written := IpfragStep(v.slots, packet, v.terms.encrypt != 0, key, now).1;
      assert written.Some? <==> out.written.Some?;
      if out.written.Some? {
        assert written.value == if v.terms.encrypt != 0 then XorData(key, out.written.value) else out.written.value;
      }
  }

  lemma ArrivalsCons(g: ClientConfig, e: Event, rest: seq<Event>)
    ensures Arrivals(g, [e] + rest) ==
            if ArrivalOf(g, e).Some? then [ArrivalOf(g, e).value] + Arrivals(g, rest) else Arrivals(g, rest)
  {
    hide ArrivalOf;
    assert ([e] + rest)[1..] == rest;
  }

  // Where the fragment of event k is among all arrivals.
  function Position(g: ClientConfig, events: seq<Event>, k: nat): nat
    requires k <= |events|
  {
    |Arrivals(g, events[..k])|
  }

  lemma PositionStep(g: ClientConfig, events: seq<Event>, k: nat)
    requires 0 < k <= |events|
    ensures Position(g, events, k) == Position(g, events[1..], k - 1) + if ArrivalOf(g, events[0]).Some? then 1 else 0
  {
    hide ArrivalOf;
    ArrivalsCons(g, events[0], events[1..][..k - 1]);
    assert events[..k] == [events[0]] + events[1..][..k - 1];
  }

  // Event k brings a fragment, and its effects are what the table run writes for it.
  ghost predicate Answered(g: ClientConfig, h: Hash, v: View, events: seq<Event>, k: nat)
    requires Loaded(g) && k < |events| && ArrivalOf(g, events[k]).Some?
  {
    var (arrivals, j) := (Arrivals(g, events), Position(g, events, k));
    var outs := RunSlots(v.slots, arrivals).1;
    && j < |arrivals| == |outs| && arrivals[j] == ArrivalOf(g, events[k]).value
    && EffectsOf(g, h, v, events)[k] == Written(v.terms.encrypt != 0, DerivedKey(h, g.username, g.password), outs[j])
  }

  // Over every run of a session, whatever else happens in it, the slots go through the run of its fragments.
  lemma {:induction false} SlotsFollowTheFragments(g: ClientConfig, h: Hash, v: View, events: seq<Event>)
    requires Loaded(g) && StaysEstablished(g, h, v, events)
    ensures Run(g, h, v, events).0.slots == RunSlots(v.slots, Arrivals(g, events)).0
    ensures |RunSlots(v.slots, Arrivals(g, events)).1| == |Arrivals(g, events)|
    decreases |events|
  {
    if events != [] {
      hide DerivedKey, SlotStep, ArrivalOf, Written, Step;
      EventReachesTheTable(g, h, v, events[0]);
      SlotsFollowTheFragments(g, h, Step(g, h, v, events[0]).0, events[1..]);
      if ArrivalOf(g, events[0]).Some? {
        assert ([ArrivalOf(g, events[0]).value] + Arrivals(g, events[1..]))[1..] == Arrivals(g, events[1..]);
      }
    }
  }

  // And each fragment is answered as in that run.
  lemma {:induction false} FragmentsAreAnswered(g: ClientConfig, h: Hash, v: View, events: seq<Event>)
    requires Loaded(g) && StaysEstablished(g, h, v, events)
    ensures forall k | 0 <= k < |events| && ArrivalOf(g, events[k]).Some? :: Answered(g, h, v, events, k)
    decreases |events|
  {
    if events != [] {
      hide DerivedKey, ArrivalOf, Step, Answered, Arrivals;
      var (rest, v') := (events[1..], Step(g, h, v, events[0]).0);
      FragmentsAreAnswered(g, h, v', rest);
      SlotsFollowTheFragments(g, h, v', rest);
      forall k | 0 <= k < |events| && ArrivalOf(g, events[k]).Some?
        ensures Answered(g, h, v, events, k)
      {
        if k > 0 {
          assert ArrivalOf(g, rest[k - 1]).Some? && Answered(g, h, v', rest, k - 1);
          LaterAnswered(g, h, v, events, k);
        } else {
          FirstAnswered(g, h, v, events);
        }
      }
    }
  }

  lemma FirstAnswered(g: ClientConfig, h: Hash, v: View, events: seq<Event>)
    requires Loaded(g) && events != [] && StaysEstablished(g, h, v, events) && ArrivalOf(g, events[0]).Some?
    requires |RunSlots(Step(g, h, v, events[0]).0.slots, Arrivals(g, events[1..])).1| == |Arrivals(g, events[1..])|
    ensures Answered(g, h, v, events, 0)
  {
    hide DerivedKey, SlotStep, ArrivalOf, Written, Step;
    EventReachesTheTable(g, h, v, events[0]);
    var a := ArrivalOf(g, events[0]).value;
    assert ([a] + Arrivals(g, events[1..]))[1..] == Arrivals(g, events[1..]);
    assert events[..0] == [];
  }

  lemma LaterAnswered(g: ClientConfig, h: Hash, v: View, events: seq<Event>, k: nat)
    requires Loaded(g) && 0 < k < |events| && StaysEstablished(g, h, v, events)
    requires ArrivalOf(g, events[k]).Some? && Answered(g, h, Step(g, h, v, events[0]).0, events[1..], k - 1)
    ensures Answered(g, h, v, events, k)
  {
    hide DerivedKey, SlotStep, ArrivalOf, Written, Step, Position;
    EventReachesTheTable(g, h, v, events[0]);
    PositionStep(g, events, k);
    if ArrivalOf(g, events[0]).Some? {
      var a := ArrivalOf(g, events[0]).value;
      assert ([a] + Arrivals(g, events[1..]))[1..] == Arrivals(g, events[1..]);
    }
  }

  // The fragments of a run keep its time.
  lemma {:induction false} ClockOfArrivals(g: ClientConfig, events: seq<Event>, t: nat, t': nat)
    requires Forward(t, events) && t' <= t
    ensures ClockFrom(t', Arrivals(g, events))
    decreases |events|
  {
    if events != [] {
      hide ArrivalOf;
      var e := events[0];
      ClockOfArrivals(g, events[1..], TimeOf(e, t), if ArrivalOf(g, e).Some? then TimeOf(e, t) else t');
      if ArrivalOf(g, e).Some? {
        var a := ArrivalOf(g, e).value;
        assert ([a] + Arrivals(g, events[1..]))[1..] == Arrivals(g, events[1..]);
      }
    }
  }

  // A group whose fragments arrive during a session, in any order and among any other events: nothing is written for any
  // of them but the final one, and then what the table makes of them, decrypted as a whole.
  lemma GroupArrives(g: ClientConfig, h: Hash, v: View, t: nat, latest: Option<Address>, events: seq<Event>,
                     first: Arrival, between: seq<Arrival>, last: Arrival)
    requires Loaded(g) && SessionOk(g, v, t, latest) && Forward(t, events) && StaysEstablished(g, h, v, events)
    requires events != [] && ArrivalOf(g, events[|events| - 1]) == Some(last)
    requires Arrivals(g, events) == [first] + (between + [last]) && Gathers(first, between, last)
    requires HasRoom(v.slots, first.frag.id, first.now)
    ensures
      var effects := EffectsOf(g, h, v, events);
      && effects[|events| - 1] ==
         Written(v.terms.encrypt != 0, DerivedKey(h, g.username, g.password), Delivery(first, between, last))
      && forall k | 0 <= k < |events| - 1 && ArrivalOf(g, events[k]).Some? && ArrivalOf(g, events[k]).value.frag.id == first.frag.id ::
           effects[k] == []
  {
    hide DerivedKey, ArrivalOf, RunSlots, StaysEstablished, Gathers, HasRoom, Delivery, Arrivals, EffectsOf, Forward, ClockFrom,
         SlotsOk, StampedBy;
    var n := |events| - 1;
    ClockOfArrivals(g, events, t, t);
    AnyOrder(v.slots, t, first, between, last);
    FragmentsAreAnswered(g, h, v, events);
    assert Answered(g, h, v, events, n);
    LastPosition(g, events);
    forall k | 0 <= k < n && ArrivalOf(g, events[k]).Some? && ArrivalOf(g, events[k]).value.frag.id == first.frag.id
      ensures EffectsOf(g, h, v, events)[k] == []
    {
      assert Answered(g, h, v, events, k);
      EarlierPosition(g, events, k);
    }
  }

  lemma ArrivalsAppend(g: ClientConfig, events: seq<Event>, more: seq<Event>)
    ensures Arrivals(g, events + more) == Arrivals(g, events) + Arrivals(g, more)
    decreases |events|
  {
    hide ArrivalOf;
    if events == [] {
      assert events + more == more;
    } else {
      assert (events + more)[1..] == events[1..] + more;
      ArrivalsAppend(g, events[1..], more);
    }
  }

  lemma LastPosition(g: ClientConfig, events: seq<Event>)
    requires events != [] && ArrivalOf(g, events[|events| - 1]).Some?
    ensures Position(g, events, |events| - 1) == |Arrivals(g, events)| - 1
  {
    hide ArrivalOf;
    var n := |events| - 1;
    ArrivalsAppend(g, events[..n], [events[n]]);
    assert events == events[..n] + [events[n]] && [events[n]][1..] == [];
  }

  lemma EarlierPosition(g: ClientConfig, events: seq<Event>, k: nat)
    requires k < |events| - 1 && ArrivalOf(g, events[|events| - 1]).Some?
    requires ArrivalOf(g, events[k]).Some?
    ensures Position(g, events, k) < |Arrivals(g, events)| - 1
  {
    hide ArrivalOf;
    var n := |events| - 1;
    LastPosition(g, events);
    ArrivalsAppend(g, events[..k], events[k..n]);
    assert events[..n] == events[..k] + events[k..n];
    assert Arrivals(g, events[k..n]) != [];
  }

  // A payload, encrypted as a whole if the session is, and split into pieces that arrive from the highest offset down with
  // the final one last, is written to the TUN device when that one arrives and not before, in every state a session can
  // be in and whatever else happens meanwhile, as long as the session lasts.
  lemma FragmentedPayloadArrives(g: ClientConfig, h: Hash, v: View, t: nat, latest: Option<Address>, events: seq<Event>,
                                 first: Arrival, between: seq<Arrival>, last: Arrival, pieces: seq<Bytes>, payload: Bytes)
    requires Loaded(g) && SessionOk(g, v, t, latest) && Forward(t, events) && StaysEstablished(g, h, v, events)
    requires events != [] && ArrivalOf(g, events[|events| - 1]) == Some(last)
    requires Arrivals(g, events) == [first] + (between + [last]) && HasRoom(v.slots, first.frag.id, first.now)
    requires Delivers(first, between, last, pieces,
                      if v.terms.encrypt != 0 then XorData(DerivedKey(h, g.username, g.password), payload) else payload)
    ensures
      var effects := EffectsOf(g, h, v, events);
      && effects[|events| - 1] == [ToTun(payload)]
      && forall k | 0 <= k < |events| - 1 && ArrivalOf(g, events[k]).Some? && ArrivalOf(g, events[k]).value.frag.id == first.frag.id ::
           effects[k] == []
  {
    hide DerivedKey, ArrivalOf, StaysEstablished, Gathers, HasRoom, Delivery, Delivers, Arrivals, EffectsOf, Forward, SessionOk,
         XorData;
    var key := DerivedKey(h, g.username, g.password);
    DescendingDelivery(first, between, last, pieces, if v.terms.encrypt != 0 then XorData(key, payload) else payload);
    GroupArrives(g, h, v, t, latest, events, first, between, last);
    XorDataTwice(key, payload);
  }

  // The same from the start of the program: past is everything that happened before.
  lemma FragmentedPayloadAlwaysArrives(g: ClientConfig, h: Hash, resolved: Option<Address>, t: nat, past: seq<Event>, events: seq<Event>,
                                       first: Arrival, between: seq<Arrival>, last: Arrival, pieces: seq<Bytes>, payload: Bytes)
    requires Loaded(g) && Forward(t, past) && Forward(EndTime(t, past), events)
    requires StaysEstablished(g, h, Run(g, h, Start(g, resolved), past).0, events)
    requires events != [] && ArrivalOf(g, events[|events| - 1]) == Some(last)
    requires Arrivals(g, events) == [first] + (between + [last])
    requires
      var v := Run(g, h, Start(g, resolved), past).0;
      && HasRoom(v.slots, first.frag.id, first.now)
      && Delivers(first, between, last, pieces,
                  if v.terms.encrypt != 0 then XorData(DerivedKey(h, g.username, g.password), payload) else payload)
    ensures EffectsOf(g, h, Run(g, h, Start(g, resolved), past).0, events)[|events| - 1] == [ToTun(payload)]
  {
    hide DerivedKey, ArrivalOf, StaysEstablished, HasRoom, Delivers, Arrivals, EffectsOf, Forward, SessionOk, Run, LastAnswer, XorData;
    EveryRunKeepsSessionOk(g, h, resolved, past, t);
    FragmentedPayloadArrives(g, h, Run(g, h, Start(g, resolved), past).0, EndTime(t, past), Resolved(g, h, resolved, past), events,
                             first, between, last, pieces, payload);
  }

  // ----- Two fragments -----

  // The packets of a payload in two fragments.
  function FirstOfTwo(header: Bytes, unused: Bytes, id: GroupId, a: Bytes): Bytes
    requires |header| == |unused| == 8 && 1 <= |a| < 0x800
  {
    FragmentPacket(header, unused, Fragment(id, false, 0, a))
  }

  function SecondOfTwo(header: Bytes, unused: Bytes, id: GroupId, off: nat, b: Bytes): Bytes
    requires |header| == |unused| == 8 && 1 <= |b| < 0x800 && off < 0x800
  {
    FragmentPacket(header, unused, Fragment(id, true, off, b))
  }

  ghost predicate Without(arrivals: seq<Arrival>, id: GroupId)
  {
    forall k | 0 <= k < |arrivals| :: arrivals[k].frag.id != id
  }

  // The common case, down to the bytes on the wire: two fragments in ascending order, less than the timeout apart, with any
  // other events between them that bring no fragment of the group. The second one delivers the payload.
  lemma TwoFragmentsInOrder(g: ClientConfig, h: Hash, v: View, t: nat, latest: Option<Address>, header: Bytes, unused: Bytes, id: GroupId,
                            a: Bytes, b: Bytes, payload: Bytes, e1: Env, middle: seq<Event>, e2: Env)
    requires |header| == |unused| == 8 && header[0] == IPFRAG && 1 <= |a| < 0x800 && 1 <= |b| < 0x800
    requires a + b == if v.terms.encrypt != 0 then XorData(DerivedKey(h, g.username, g.password), payload) else payload
    requires
      var events := [Recv(FirstOfTwo(header, unused, id, a), e1)] + (middle + [Recv(SecondOfTwo(header, unused, id, |a|, b), e2)]);
      && Loaded(g) && SessionOk(g, v, t, latest) && Forward(t, events) && StaysEstablished(g, h, v, events)
    requires Without(Arrivals(g, middle), id) && e2.now < e1.now + TIMEOUT && HasRoom(v.slots, id, e1.now)
    ensures
      var events := [Recv(FirstOfTwo(header, unused, id, a), e1)] + (middle + [Recv(SecondOfTwo(header, unused, id, |a|, b), e2)]);
      var effects := EffectsOf(g, h, v, events);
      effects[0] == [] && effects[|events| - 1] == [ToTun(payload)]
  {
    hide DerivedKey, XorData, StaysEstablished, HasRoom, EffectsOf, SessionOk, FirstOfTwo, SecondOfTwo, Without,
         ArrivalOf, Delivers, Forward, ClockFrom;
    var (p1, p2) := (FirstOfTwo(header, unused, id, a), SecondOfTwo(header, unused, id, |a|, b));
    var events := [Recv(p1, e1)] + (middle + [Recv(p2, e2)]);
    var first := Arrival(Fragment(id, false, 0, a), e1.now);
    var last := Arrival(Fragment(id, true, |a|, b), e2.now);
    var between := Arrivals(g, middle);
    TwoArrive(g, header, unused, id, a, b, e1, e2);
    ArrivalsCons(g, Recv(p1, e1), middle + [Recv(p2, e2)]);
    ArrivalsAppend(g, middle, [Recv(p2, e2)]);
    ArrivalsCons(g, Recv(p2, e2), []);
    assert [Recv(p2, e2)] + [] == [Recv(p2, e2)];
    assert Arrivals(g, events) == [first] + (between + [last]);
    ClockOfArrivals(g, events, t, t);
    assert ClockFrom(e1.now, between + [last]) by {
      ClockTail(t, first, between + [last]);
    }
    PromptWithout(e1.now, e1.now, between, last);
    TwoDeliver(first, between, last, a, b);
    FragmentedPayloadArrives(g, h, v, t, latest, events, first, between, last, [a], payload);
    assert events[0] == Recv(p1, e1);
  }

  lemma ClockTail(t: nat, first: Arrival, rest: seq<Arrival>)
    requires ClockFrom(t, [first] + rest)
    ensures ClockFrom(first.now, rest)
  {
    assert ([first] + rest)[1..] == rest;
  }

  lemma TwoArrive(g: ClientConfig, header: Bytes, unused: Bytes, id: GroupId, a: Bytes, b: Bytes, e1: Env, e2: Env)
    requires |header| == |unused| == 8 && header[0] == IPFRAG && 1 <= |a| < 0x800 && 1 <= |b| < 0x800
    ensures ArrivalOf(g, Recv(FirstOfTwo(header, unused, id, a), e1)) == Some(Arrival(Fragment(id, false, 0, a), e1.now))
    ensures ArrivalOf(g, Recv(SecondOfTwo(header, unused, id, |a|, b), e2)) == Some(Arrival(Fragment(id, true, |a|, b), e2.now))
  {
    hide FragmentPacket, ParseFragment;
    var (f1, f2) := (Fragment(id, false, 0, a), Fragment(id, true, |a|, b));
    ParseOfFragmentPacket(header, unused, f1);
    ParseOfFragmentPacket(header, unused, f2);
    PacketKind(header, unused, f1);
    PacketKind(header, unused, f2);
  }

  lemma PacketKind(header: Bytes, unused: Bytes, f: Fragment)
    requires |header| == |unused| == 8 && f.off < 0x2000 && 1 <= |f.data| < 0x800
    ensures |FragmentPacket(header, unused, f)| >= HEADER && FragmentPacket(header, unused, f)[0] == header[0]
  {
    hide LittleEndian;
  }

  lemma {:induction false} PromptWithout(t: nat, now: nat, between: seq<Arrival>, last: Arrival)
    requires t <= now && ClockFrom(now, between + [last]) && Without(between, last.frag.id) && last.now < t + TIMEOUT
    ensures Prompt(t, between + [last], last.frag.id) && Own(between, last.frag.id) == []
    ensures last.now >= now
    decreases |between|
  {
    if between != [] {
      assert (between + [last])[1..] == between[1..] + [last];
      PromptWithout(t, between[0].now, between[1..], last);
    } else {
      assert ([] + [last])[1..] == [];
      assert Prompt(last.now, [], last.frag.id);
    }
  }

  lemma TwoDeliver(first: Arrival, between: seq<Arrival>, last: Arrival, a: Bytes, b: Bytes)
    requires first.frag == Fragment(first.frag.id, false, 0, a) && last.frag == Fragment(first.frag.id, true, |a|, b)
    requires |a| < 0x800 && |b| < 0x800 && Without(between, first.frag.id)
    requires Prompt(first.now, between + [last], first.frag.id) && Own(between, first.frag.id) == []
    ensures Delivers(first, between, last, [a], a + b)
  {
    hide Prompt;
    assert Concat([a]) == a by {
      assert [a][..0] == [] && Concat([]) == [];
      assert [] + a == a;
    }
    assert ([first] + between)[1..] == between;
    assert Own([first] + between, first.frag.id) == [first];
  }
}
