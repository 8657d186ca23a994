/** Fragment reassembly: the ten-slot table of the client, and the bounded map of live groups that it implements. */
module Fragments {
  import opened Wire

  const SLOTS := 10
  const SLOT_BUFFER := 2048
  const CONTENT_BUFFER := 4096
  const TIMEOUT := 5
  const FRAG_HEADER := 24

  type GroupId = s: Bytes | |s| == 4 witness [0, 0, 0, 0]

  // ----- Fragment packets -----

  datatype Fragment = Fragment(id: GroupId, final: bool, off: nat, data: Bytes)

  // Bit 0 marks the last fragment, bits 2-14 hold the offset and bits 15-25 the length.
  function ParseFragment(packet: Bytes): (r: Option<Fragment>)
    ensures r.Some? ==> 1 <= |r.value.data| < SLOT_BUFFER && r.value.off < 8192
  {
    if |packet| < FRAG_HEADER then None
    else
      var bits := FromLittleEndian(packet[20..24]);
      var length := bits / 0x8000 % 0x800;
      if |packet| != length + FRAG_HEADER || length == 0 then None
      else Some(Fragment(packet[16..20], bits % 2 == 1, bits / 4 % 0x2000, packet[FRAG_HEADER..]))
  }

  // ----- The slot table -----

  datatype Slot = Slot(inUse: bool, id: GroupId, timestamp: nat, data: Bytes)

  // The table before the first fragment.
  function NoSlots(): (s: seq<Slot>)
    ensures |s| == SLOTS && forall i | 0 <= i < SLOTS :: s[i] == Slot(false, [0, 0, 0, 0], 0, [])
  {
    seq(SLOTS, _ => Slot(false, [0, 0, 0, 0], 0, []))
  }

  function FreedSlots(slots: seq<Slot>): (r: seq<Slot>)
    ensures |r| == |slots| && forall i | 0 <= i < |r| :: r[i] == slots[i].(inUse := false)
  {
    seq(|slots|, i requires 0 <= i < |slots| => slots[i].(inUse := false))
  }

  datatype Output = Output(written: Option<Bytes>, accepted: bool)

  // Unsigned 32-bit time difference.
  function Elapsed(now: nat, since: nat): nat
  {
    (now - since) % TWO32
  }

  // Between two readings of a clock that may have wrapped around once, it is the time that has passed.
  lemma ElapsedIs(now: nat, since: nat, passed: nat)
    requires now < TWO32 && since < TWO32 && passed < TWO32 && (now == since + passed || now + TWO32 == since + passed)
    ensures Elapsed(now, since) == passed
  {
  }

  // A group lives for less than five seconds after its last progress.
  lemma LivesFiveSeconds(s: Slot, passed: nat)
    requires s.inUse && s.timestamp + passed < TWO32
    ensures Live(s, s.timestamp + passed) <==> passed < 5
  {
    ElapsedIs(s.timestamp + passed, s.timestamp, passed);
  }

  predicate Live(s: Slot, now: nat)
  {
    s.inUse && Elapsed(now, s.timestamp) < TIMEOUT
  }

  // The first slot from i on that is in use for the group, or the number of slots.
  function FindGroup(slots: seq<Slot>, id: GroupId, i: nat): (j: nat)
    requires i <= |slots|
    ensures i <= j <= |slots|
    ensures forall k | i <= k < j :: !(slots[k].inUse && slots[k].id == id)
    ensures j < |slots| ==> slots[j].inUse && slots[j].id == id
    decreases |slots| - i
  {
    if i == |slots| || (slots[i].inUse && slots[i].id == id) then i else FindGroup(slots, id, i + 1)
  }

  // The first slot from i on that is free or expired, or the number of slots.
  function FindFree(slots: seq<Slot>, now: nat, i: nat): (j: nat)
    requires i <= |slots|
    ensures i <= j <= |slots|
    ensures forall k | i <= k < j :: Live(slots[k], now)
    ensures j < |slots| ==> !Live(slots[j], now)
    decreases |slots| - i
  {
    if i == |slots| || !Live(slots[i], now) then i else FindFree(slots, now, i + 1)
  }

  // The final fragment laid over what has been gathered; a gap between the two reads as zero.
  function Overlay(gathered: Bytes, off: nat, last: Bytes): (r: Bytes)
    ensures |r| == if off + |last| < |gathered| then |gathered| else off + |last|
    ensures forall k | 0 <= k < |r| ::
              r[k] == if off <= k < off + |last| then last[k - off] else if k < |gathered| then gathered[k] else 0
  {
    seq(if off + |last| < |gathered| then |gathered| else off + |last|,
        k requires 0 <= k =>
          if off <= k < off + |last| then last[k - off] else if k < |gathered| then gathered[k] else 0)
  }

  function SlotStep(slots: seq<Slot>, f: Fragment, now: nat): (seq<Slot>, Output)
  {
    var i := FindGroup(slots, f.id, 0);
    if i < |slots| && Live(slots[i], now) then
      var gathered := slots[i].data;
      if !f.final then
        if |f.data| + |gathered| <= SLOT_BUFFER then
          (slots[i := slots[i].(timestamp := now, data := f.data + gathered)], Output(None, true))
        else (slots[i := slots[i].(inUse := false)], Output(None, false))
      else if |Overlay(gathered, f.off, f.data)| <= CONTENT_BUFFER then
        (slots[i := slots[i].(inUse := false)], Output(Some(Overlay(gathered, f.off, f.data)), true))
      else (slots[i := slots[i].(inUse := false)], Output(None, false))
    else
      var slots' := if i < |slots| then slots[i := slots[i].(inUse := false)] else slots;
      var j := FindFree(slots', now, 0);
      if j < |slots'| then (slots'[j := Slot(true, f.id, now, f.data)], Output(None, true))
      else (slots', Output(None, false))
  }

  // ----- The map of groups -----

  datatype Group = Group(data: Bytes, time: nat)
  type Groups = map<GroupId, Group>

  function Unexpired(m: Groups, now: nat): Groups
  {
    map id | id in m && Elapsed(now, m[id].time) < TIMEOUT :: m[id]
  }

  function GroupStep(m: Groups, f: Fragment, now: nat): (Groups, Output)
  {
    var live := Unexpired(m, now);
    if f.id in live then
      var gathered := live[f.id].data;
      if !f.final then
        if |f.data| + |gathered| <= SLOT_BUFFER then (live[f.id := Group(f.data + gathered, now)], Output(None, true))
        else (live - {f.id}, Output(None, false))
      else if |Overlay(gathered, f.off, f.data)| <= CONTENT_BUFFER then
        (live - {f.id}, Output(Some(Overlay(gathered, f.off, f.data)), true))
      else (live - {f.id}, Output(None, false))
    else if |live| < SLOTS then (live[f.id := Group(f.data, now)], Output(None, true))
    else (live, Output(None, false))
  }

  // ----- One step of the table is one step of the map -----

  ghost predicate Distinct(slots: seq<Slot>)
  {
    forall i, j | 0 <= i < j < |slots| && slots[i].inUse && slots[j].inUse :: slots[i].id != slots[j].id
  }

  // In-use slots hold different groups, and what they hold fits their buffers.
  ghost predicate SlotsOk(slots: seq<Slot>)
  {
    && |slots| == SLOTS
    && Distinct(slots)
    && (forall i | 0 <= i < |slots| && slots[i].inUse :: 1 <= |slots[i].data| <= SLOT_BUFFER)
  }

  ghost predicate Holds(m: Groups, s: Slot)
  {
    s.id in m && m[s.id] == Group(s.data, s.timestamp)
  }

  ghost predicate HasLiveSlot(slots: seq<Slot>, id: GroupId, now: nat)
  {
    exists i :: 0 <= i < |slots| && Live(slots[i], now) && slots[i].id == id
  }

  // At time now, m is exactly what the live slots hold.
  ghost predicate Represents(slots: seq<Slot>, m: Groups, now: nat)
  {
    && (forall i | 0 <= i < |slots| && Live(slots[i], now) :: Holds(m, slots[i]))
    && (forall id | id in m :: HasLiveSlot(slots, id, now))
  }

  ghost function LiveIds(slots: seq<Slot>, now: nat): set<GroupId>
  {
    set i | 0 <= i < |slots| && Live(slots[i], now) :: slots[i].id
  }

  lemma OneMoreLive(slots: seq<Slot>, now: nat)
    requires slots != []
    ensures
      var n := |slots| - 1;
      LiveIds(slots, now) == LiveIds(slots[..n], now) + if Live(slots[n], now) then {slots[n].id} else {}
  {
    hide Live;
    assert forall i | 0 <= i < |slots| - 1 :: slots[..|slots| - 1][i] == slots[i];
  }

  lemma LastIsNew(slots: seq<Slot>, now: nat)
    requires Distinct(slots) && slots != []
    ensures Distinct(slots[..|slots| - 1])
    ensures Live(slots[|slots| - 1], now) ==> slots[|slots| - 1].id !in LiveIds(slots[..|slots| - 1], now)
  {
    hide Elapsed;
  }

  // With distinct groups, there are as many live groups as slots exactly when every slot is live.
  lemma {:induction false} CountLive(slots: seq<Slot>, now: nat)
    requires Distinct(slots)
    ensures |LiveIds(slots, now)| <= |slots|
    ensures |LiveIds(slots, now)| == |slots| <==> forall i | 0 <= i < |slots| :: Live(slots[i], now)
  {
    hide Live, LiveIds, Distinct;
    if slots != [] {
      var n := |slots| - 1;
      OneMoreLive(slots, now);
      LastIsNew(slots, now);
      CountLive(slots[..n], now);
      assert forall i | 0 <= i < n :: slots[..n][i] == slots[i];
    } else {
      assert LiveIds(slots, now) == {} by {
        NoneLive(slots, now);
      }
    }
  }

  lemma NoneLive(slots: seq<Slot>, now: nat)
    requires slots == []
    ensures LiveIds(slots, now) == {}
  {
  }

  // A new group finds a slot exactly when fewer than ten groups are live.
  lemma RoomForOneMore(slots: seq<Slot>, m: Groups, now: nat)
    requires SlotsOk(slots) && Represents(slots, m, now)
    ensures |m| < SLOTS <==> FindFree(slots, now, 0) < |slots|
  {
    assert m.Keys == LiveIds(slots, now);
    assert |m| == |m.Keys|;
    CountLive(slots, now);
  }

  // What the slots of a table hold for the live groups.
  ghost function GroupsOf(slots: seq<Slot>, now: nat): (m: Groups)
    ensures m.Keys == LiveIds(slots, now)
  {
    map id | id in LiveIds(slots, now) ::
      var i := FindGroup(slots, id, 0);
      if i < |slots| then Group(slots[i].data, slots[i].timestamp) else Group([], 0)
  }

  // Every table represents such a map.
  lemma TableRepresents(slots: seq<Slot>, now: nat)
    requires SlotsOk(slots)
    ensures Represents(slots, GroupsOf(slots, now), now)
  {
    hide Elapsed, FindGroup;
    forall i | 0 <= i < |slots| && Live(slots[i], now)
      ensures Holds(GroupsOf(slots, now), slots[i])
    {
      var k := FindGroup(slots, slots[i].id, 0);
      assert slots[i].id in LiveIds(slots, now);
      OthersDiffer(slots, i);
      assert k == i;
    }
  }

  lemma RepresentedIds(slots: seq<Slot>, m: Groups, now: nat)
    requires Represents(slots, m, now)
    ensures m.Keys == LiveIds(slots, now) && |m| == |LiveIds(slots, now)|
  {
    hide Live;
    assert m.Keys == LiveIds(slots, now);
    assert |m| == |m.Keys|;
  }

  // Overwriting slot i, whose old group is gone from the map, with a live slot for s.id or a free one.
  lemma SlotReplaced(slots: seq<Slot>, m: Groups, now: nat, i: nat, s: Slot)
    requires SlotsOk(slots) && Represents(slots, m, now) && i < |slots|
    requires s.inUse ==> 1 <= |s.data| <= SLOT_BUFFER && Live(s, now)
    requires s.inUse ==> forall k | 0 <= k < |slots| && k != i && slots[k].inUse :: slots[k].id != s.id
    ensures
      var rest := if Live(slots[i], now) then m - {slots[i].id} else m;
      var m' := if s.inUse then rest[s.id := Group(s.data, s.timestamp)] else rest;
      SlotsOk(slots[i := s]) && Represents(slots[i := s], m', now)
  {
    var slots' := slots[i := s];
    var rest := if Live(slots[i], now) then m - {slots[i].id} else m;
    var m' := if s.inUse then rest[s.id := Group(s.data, s.timestamp)] else rest;
    forall id | id in m'
      ensures HasLiveSlot(slots', id, now)
    {
      if s.inUse && id == s.id {
        assert slots'[i] == s;
      } else {
        assert id in m;
        var k :| 0 <= k < |slots| && Live(slots[k], now) && slots[k].id == id;
        assert slots'[k] == slots[k];
      }
    }
  }

  // A fragment of a group that is live.
  lemma LiveGroup(slots: seq<Slot>, m: Groups, f: Fragment, now: nat)
    requires SlotsOk(slots) && 1 <= |f.data| <= SLOT_BUFFER
    requires Represents(slots, Unexpired(m, now), now)
    requires
      var i := FindGroup(slots, f.id, 0);
      i < |slots| && Live(slots[i], now)
    ensures
      var (slots', out) := SlotStep(slots, f, now);
      var (m', out') := GroupStep(m, f, now);
      SlotsOk(slots') && out == out' && Represents(slots', m', now)
  {
    hide Overlay, Elapsed, Unexpired, FindGroup, FindFree, SlotsOk;
    var live := Unexpired(m, now);
    var i := FindGroup(slots, f.id, 0);
    assert Holds(live, slots[i]);
    OthersDiffer(slots, i);
    SlotReplaced(slots, live, now, i, slots[i].(inUse := false));
    var grown := slots[i].(timestamp := now, data := f.data + slots[i].data);
    JustStamped(now);
    if |grown.data| <= SLOT_BUFFER {
      SlotReplaced(slots, live, now, i, grown);
      assert (live - {f.id})[f.id := Group(grown.data, now)] == live[f.id := Group(grown.data, now)];
    }
  }

  lemma OthersDiffer(slots: seq<Slot>, i: nat)
    requires SlotsOk(slots) && i < |slots| && slots[i].inUse
    ensures forall k | 0 <= k < |slots| && k != i && slots[k].inUse :: slots[k].id != slots[i].id
  {
  }

  // Each step of the table answers as the map does, and represents what the map then holds.
  lemma StepRefines(slots: seq<Slot>, m: Groups, f: Fragment, now: nat)
    requires SlotsOk(slots) && 1 <= |f.data| <= SLOT_BUFFER
    requires Represents(slots, Unexpired(m, now), now)
    ensures
      var (slots', out) := SlotStep(slots, f, now);
      var (m', out') := GroupStep(m, f, now);
      SlotsOk(slots') && out == out' && Represents(slots', m', now)
  {
    hide Overlay, Elapsed, Unexpired, FindGroup, FindFree, SlotsOk, Represents;
    var live := Unexpired(m, now);
    var i := FindGroup(slots, f.id, 0);
    if i == |slots| {
      NewGroup(slots, live, f, now);
    } else if Live(slots[i], now) {
      LiveGroup(slots, m, f, now);
    } else {
      OthersDiffer(slots, i);
      SlotReplaced(slots, live, now, i, slots[i].(inUse := false));
      NewGroup(slots[i := slots[i].(inUse := false)], live, f, now);
    }
  }

  lemma JustStamped(now: nat)
    ensures Elapsed(now, now) == 0
  {
  }

  lemma NewGroup(slots: seq<Slot>, live: Groups, f: Fragment, now: nat)
    requires SlotsOk(slots) && 1 <= |f.data| <= SLOT_BUFFER && Represents(slots, live, now)
    requires forall k | 0 <= k < |slots| && slots[k].inUse :: slots[k].id != f.id
    ensures
      var j := FindFree(slots, now, 0);
      var s := Slot(true, f.id, now, f.data);
      && f.id !in live
      && (|live| < SLOTS <==> j < |slots|)
      && (j < |slots| ==> SlotsOk(slots[j := s]) && Represents(slots[j := s], live[f.id := Group(f.data, now)], now))
  {
    RoomForOneMore(slots, live, now);
    JustStamped(now);
    var j := FindFree(slots, now, 0);
    if j < |slots| {
      SlotReplaced(slots, live, now, j, Slot(true, f.id, now, f.data));
    }
  }

  lemma KeepsSlotsOk(slots: seq<Slot>, f: Fragment, now: nat)
    requires SlotsOk(slots) && 1 <= |f.data| <= SLOT_BUFFER
    ensures SlotsOk(SlotStep(slots, f, now).0)
  {
    hide Overlay, Elapsed;
  }

  lemma AllFreeOk(slots: seq<Slot>)
    requires |slots| == SLOTS && forall i | 0 <= i < |slots| :: !slots[i].inUse
    ensures SlotsOk(slots)
  {
  }

  // No slot in use has a time later than t.
  ghost predicate StampedBy(slots: seq<Slot>, t: nat)
  {
    forall i | 0 <= i < |slots| && slots[i].inUse :: slots[i].timestamp <= t
  }

  lemma StepStamps(slots: seq<Slot>, f: Fragment, t: nat, now: nat)
    requires StampedBy(slots, t) && t <= now
    ensures StampedBy(SlotStep(slots, f, now).0, now)
  {
    hide Overlay, Elapsed;
  }
}
