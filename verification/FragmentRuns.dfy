/** Whole runs of fragments through the table: refinement, independence of groups, and reassembly. */
module FragmentRuns {
  import opened Wire
  import opened Fragments

  datatype Arrival = Arrival(frag: Fragment, now: nat)

  function RunSlots(slots: seq<Slot>, arrivals: seq<Arrival>): (seq<Slot>, seq<Output>)
    decreases |arrivals|
  {
    if arrivals == [] then (slots, [])
    else
      var (slots', out) := SlotStep(slots, arrivals[0].frag, arrivals[0].now);
      var (slots'', outs) := RunSlots(slots', arrivals[1..]);
      (slots'', [out] + outs)
  }

  function RunGroups(m: Groups, arrivals: seq<Arrival>): (r: (Groups, seq<Output>))
    ensures |r.1| == |arrivals|
    decreases |arrivals|
  {
    if arrivals == [] then (m, [])
    else
      var (m', out) := GroupStep(m, arrivals[0].frag, arrivals[0].now);
      var (m'', outs) := RunGroups(m', arrivals[1..]);
      (m'', [out] + outs)
  }

  // The clock never goes back and has not wrapped around; every fragment has the size a packet can carry.
  ghost predicate ClockFrom(t: nat, arrivals: seq<Arrival>)
    decreases |arrivals|
  {
    arrivals == [] ||
    (t <= arrivals[0].now < TWO32 && 1 <= |arrivals[0].frag.data| <= SLOT_BUFFER && ClockFrom(arrivals[0].now, arrivals[1..]))
  }

  // ----- The table behaves as the map over every run -----

  lemma TimePasses(slots: seq<Slot>, m: Groups, t: nat, now: nat)
    requires Represents(slots, m, t) && StampedBy(slots, t) && t <= now < TWO32
    ensures Represents(slots, Unexpired(m, now), now)
  {
    forall i | 0 <= i < |slots| && Live(slots[i], now)
      ensures Holds(Unexpired(m, now), slots[i])
    {
      assert Live(slots[i], t);
    }
    forall id | id in Unexpired(m, now)
      ensures HasLiveSlot(slots, id, now)
    {
      var i :| 0 <= i < |slots| && Live(slots[i], t) && slots[i].id == id;
      assert Holds(m, slots[i]);
    }
  }

  // For every run with a non-decreasing clock, the table gives the answers of the map and stays within its bounds.
  lemma {:induction false} RunRefines(slots: seq<Slot>, m: Groups, t: nat, arrivals: seq<Arrival>)
    requires SlotsOk(slots) && Represents(slots, m, t) && StampedBy(slots, t) && ClockFrom(t, arrivals)
    ensures RunSlots(slots, arrivals).1 == RunGroups(m, arrivals).1
    ensures SlotsOk(RunSlots(slots, arrivals).0)
    ensures arrivals != [] ==>
              Represents(RunSlots(slots, arrivals).0, RunGroups(m, arrivals).0, arrivals[|arrivals| - 1].now)
    decreases |arrivals|
  {
    if arrivals != [] {
      var f, now := arrivals[0].frag, arrivals[0].now;
      TimePasses(slots, m, t, now);
      StepRefines(slots, m, f, now);
      StepStamps(slots, f, t, now);
      RunRefines(SlotStep(slots, f, now).0, GroupStep(m, f, now).0, now, arrivals[1..]);
    }
  }

  // ----- A live group depends on its own fragments only -----

  // What group g becomes: None once it is delivered, dropped or expired.
  function Evolve(g: Group, arrivals: seq<Arrival>, id: GroupId): Option<Group>
    decreases |arrivals|
  {
    if arrivals == [] then Some(g)
    else
      var f, now := arrivals[0].frag, arrivals[0].now;
      if Elapsed(now, g.time) >= TIMEOUT then None
      else if f.id != id then Evolve(g, arrivals[1..], id)
      else if f.final || |f.data| + |g.data| > SLOT_BUFFER then None
      else Evolve(Group(f.data + g.data, now), arrivals[1..], id)
  }

  function Own(arrivals: seq<Arrival>, id: GroupId): seq<Arrival>
    decreases |arrivals|
  {
    if arrivals == [] then []
    else if arrivals[0].frag.id == id then [arrivals[0]] + Own(arrivals[1..], id)
    else Own(arrivals[1..], id)
  }

  lemma {:induction false} EvolveIgnoresOthers(g: Group, arrivals: seq<Arrival>, id: GroupId)
    requires Evolve(g, arrivals, id).Some?
    ensures Evolve(g, Own(arrivals, id), id) == Evolve(g, arrivals, id)
    decreases |arrivals|
  {
    if arrivals != [] {
      var f, now := arrivals[0].frag, arrivals[0].now;
      if f.id == id {
        EvolveIgnoresOthers(Group(f.data + g.data, now), arrivals[1..], id);
        assert Own(arrivals, id)[1..] == Own(arrivals[1..], id);
      } else {
        EvolveIgnoresOthers(g, arrivals[1..], id);
      }
    }
  }

  // While a group lives, what the table holds for it is what its own fragments alone make of it, whatever else arrives.
  lemma {:induction false} GroupsDoNotInterfere(m: Groups, arrivals: seq<Arrival>, id: GroupId)
    requires id in m && Evolve(m[id], arrivals, id).Some?
    ensures
      var (m', outs) := RunGroups(m, arrivals);
      && id in m'
      && Some(m'[id]) == Evolve(m[id], arrivals, id) == Evolve(m[id], Own(arrivals, id), id)
      && forall k | 0 <= k < |arrivals| && arrivals[k].frag.id == id :: outs[k] == Output(None, true)
    decreases |arrivals|
  {
    EvolveIgnoresOthers(m[id], arrivals, id);
    if arrivals != [] {
      hide Overlay, Elapsed;
      var (m1, out) := GroupStep(m, arrivals[0].frag, arrivals[0].now);
      assert id in Unexpired(m, arrivals[0].now);
      GroupsDoNotInterfere(m1, arrivals[1..], id);
      var (m', outs) := RunGroups(m, arrivals);
      forall k | 0 <= k < |arrivals| && arrivals[k].frag.id == id
        ensures outs[k] == Output(None, true)
      {
        if k > 0 {
          assert arrivals[1..][k - 1] == arrivals[k];
        }
      }
    }
  }

  // What a group's next fragment brings about depends on what the group held and on its own fragments alone: two runs
  // that agree on those give the same answer, whatever else arrives in them and however full the tables are.
  lemma AnswersDependOnOwnFragments(m1: Groups, arrivals1: seq<Arrival>, m2: Groups, arrivals2: seq<Arrival>, f: Fragment, now: nat)
    requires f.id in m1 && f.id in m2 && m1[f.id] == m2[f.id]
    requires Own(arrivals1, f.id) == Own(arrivals2, f.id)
    requires Evolve(m1[f.id], arrivals1, f.id).Some? && Evolve(m2[f.id], arrivals2, f.id).Some?
    requires Elapsed(now, Evolve(m1[f.id], arrivals1, f.id).value.time) < TIMEOUT
    ensures GroupStep(RunGroups(m1, arrivals1).0, f, now).1 == GroupStep(RunGroups(m2, arrivals2).0, f, now).1
  {
    hide Elapsed, Overlay, RunGroups, Evolve, Own;
    GroupsDoNotInterfere(m1, arrivals1, f.id);
    GroupsDoNotInterfere(m2, arrivals2, f.id);
  }

  // A table at time t that the clock and the arrivals fit.
  ghost predicate TableFits(slots: seq<Slot>, t: nat, arrivals: seq<Arrival>)
  {
    SlotsOk(slots) && StampedBy(slots, t) && ClockFrom(t, arrivals)
  }

  // The same of the slots, including what is written to the TUN device.
  lemma SlotAnswersDependOnOwnFragments(slots1: seq<Slot>, t1: nat, arrivals1: seq<Arrival>,
                                        slots2: seq<Slot>, t2: nat, arrivals2: seq<Arrival>, last: Arrival)
    requires TableFits(slots1, t1, arrivals1 + [last]) && TableFits(slots2, t2, arrivals2 + [last])
    requires
      var id := last.frag.id;
      var (m1, m2) := (GroupsOf(slots1, t1), GroupsOf(slots2, t2));
      && id in m1 && id in m2 && m1[id] == m2[id] && Own(arrivals1, id) == Own(arrivals2, id)
      && Evolve(m1[id], arrivals1, id).Some? && Evolve(m2[id], arrivals2, id).Some?
      && Elapsed(last.now, Evolve(m1[id], arrivals1, id).value.time) < TIMEOUT
    ensures |RunSlots(slots1, arrivals1 + [last]).1| == |arrivals1| + 1 && |RunSlots(slots2, arrivals2 + [last]).1| == |arrivals2| + 1
    ensures RunSlots(slots1, arrivals1 + [last]).1[|arrivals1|] == RunSlots(slots2, arrivals2 + [last]).1[|arrivals2|]
  {
    hide Elapsed, GroupStep, RunGroups, RunSlots, Evolve, Own, GroupsOf, Represents, SlotsOk, StampedBy, ClockFrom;
    var (m1, m2) := (GroupsOf(slots1, t1), GroupsOf(slots2, t2));
    TableRepresents(slots1, t1);
    TableRepresents(slots2, t2);
    RunRefines(slots1, m1, t1, arrivals1 + [last]);
    RunRefines(slots2, m2, t2, arrivals2 + [last]);
    RunAppend(m1, arrivals1, last);
    RunAppend(m2, arrivals2, last);
    AnswersDependOnOwnFragments(m1, arrivals1, m2, arrivals2, last.frag, last.now);
  }

  // ----- What any order of arrival gives -----

  function Datas(arrivals: seq<Arrival>): seq<Bytes>
    decreases |arrivals|
  {
    if arrivals == [] then [] else [arrivals[0].frag.data] + Datas(arrivals[1..])
  }

  // Each piece in front of those before it.
  function Stacked(pieces: seq<Bytes>): Bytes
  {
    if pieces == [] then [] else Stacked(pieces[1..]) + pieces[0]
  }

  // What group id gathers from the arrivals.
  function Gathered(arrivals: seq<Arrival>, id: GroupId): Bytes
  {
    Stacked(Datas(Own(arrivals, id)))
  }

  ghost predicate NonFinal(arrivals: seq<Arrival>, id: GroupId)
  {
    forall k | 0 <= k < |arrivals| && arrivals[k].frag.id == id :: !arrivals[k].frag.final
  }

  // When the group's last fragment among arrivals came, or t if there is none.
  function LastOwn(t: nat, arrivals: seq<Arrival>, id: GroupId): nat
    decreases |arrivals|
  {
    if arrivals == [] then t
    else LastOwn(if arrivals[0].frag.id == id then arrivals[0].now else t, arrivals[1..], id)
  }

  // Everything arrives less than the timeout after the group's previous fragment.
  ghost predicate Prompt(t: nat, arrivals: seq<Arrival>, id: GroupId)
    decreases |arrivals|
  {
    arrivals == [] ||
    (Elapsed(arrivals[0].now, t) < TIMEOUT &&
     Prompt(if arrivals[0].frag.id == id then arrivals[0].now else t, arrivals[1..], id))
  }

  lemma GatheredCons(a: Arrival, rest: seq<Arrival>, id: GroupId)
    ensures Gathered([a] + rest, id) == Gathered(rest, id) + if a.frag.id == id then a.frag.data else []
  {
    assert ([a] + rest)[1..] == rest;
    if a.frag.id == id {
      assert ([a] + Own(rest, id))[1..] == Own(rest, id);
      assert ([a.frag.data] + Datas(Own(rest, id)))[1..] == Datas(Own(rest, id));
    }
  }

  // The pieces of a group, in whatever order and at whatever offsets, gather in front of each other.
  lemma {:induction false} PiecesGather(g: Group, arrivals: seq<Arrival>, id: GroupId)
    requires NonFinal(arrivals, id) && Prompt(g.time, arrivals, id)
    requires |Gathered(arrivals, id)| + |g.data| <= SLOT_BUFFER
    ensures Evolve(g, arrivals, id) == Some(Group(Gathered(arrivals, id) + g.data, LastOwn(g.time, arrivals, id)))
    decreases |arrivals|
  {
    if arrivals != [] {
      hide Gathered;
      var f, now, rest := arrivals[0].frag, arrivals[0].now, arrivals[1..];
      GatheredCons(arrivals[0], rest, id);
      assert arrivals == [arrivals[0]] + rest;
      if f.id == id {
        PiecesGather(Group(f.data + g.data, now), rest, id);
        assert Gathered(rest, id) + (f.data + g.data) == Gathered(arrivals, id) + g.data;
      } else {
        PiecesGather(g, rest, id);
        assert Gathered(rest, id) + [] == Gathered(rest, id);
      }
    } else {
      assert Gathered(arrivals, id) + g.data == g.data;
    }
  }

  // A group of fragments that the table can hold: a first one, others in between, and the final one, each in time;
  // other groups' fragments may come in between.
  ghost predicate Gathers(first: Arrival, between: seq<Arrival>, last: Arrival)
  {
    var id := first.frag.id;
    && !first.frag.final && NonFinal(between, id) && last.frag.id == id && last.frag.final
    && |Gathered([first] + between, id)| <= SLOT_BUFFER
    && Prompt(first.now, between + [last], id)
  }

  // What comes of it: the final fragment laid over the others, unless that is too long.
  function Delivery(first: Arrival, between: seq<Arrival>, last: Arrival): Output
  {
    var whole := Overlay(Gathered([first] + between, first.frag.id), last.frag.off, last.frag.data);
    if |whole| <= CONTENT_BUFFER then Output(Some(whole), true) else Output(None, false)
  }

  lemma LastCompletes(m: Groups, between: seq<Arrival>, last: Arrival, first: Arrival)
    requires Gathers(first, between, last)
    requires first.frag.id in m && m[first.frag.id] == Group(first.frag.data, first.now)
    ensures GroupStep(RunGroups(m, between).0, last.frag, last.now).1 == Delivery(first, between, last)
    ensures forall k | 0 <= k < |between| && between[k].frag.id == first.frag.id ::
              RunGroups(m, between).1[k] == Output(None, true)
  {
    hide Elapsed, Overlay, RunGroups, Prompt, LastOwn, Gathered, NonFinal;
    var id := first.frag.id;
    PromptSplits(first.now, between, last, id);
    GatheredCons(first, between, id);
    PiecesGather(m[id], between, id);
    GroupsDoNotInterfere(m, between, id);
  }

  // A new group finds room in the table at the given time.
  ghost predicate HasRoom(slots: seq<Slot>, id: GroupId, now: nat)
  {
    id !in LiveIds(slots, now) && |LiveIds(slots, now)| < SLOTS
  }

  // From every table with room: the final fragment delivers what Delivery says, and no earlier one of the group delivers
  // anything, whatever the offsets, gaps and overlaps are.
  lemma AnyOrder(slots: seq<Slot>, t: nat, first: Arrival, between: seq<Arrival>, last: Arrival)
    requires TableFits(slots, t, [first] + (between + [last])) && HasRoom(slots, first.frag.id, first.now)
    requires Gathers(first, between, last)
    ensures
      var arrivals := [first] + (between + [last]);
      var outs := RunSlots(slots, arrivals).1;
      && |outs| == |arrivals|
      && outs[|arrivals| - 1] == Delivery(first, between, last)
      && forall k | 0 <= k < |arrivals| - 1 && arrivals[k].frag.id == first.frag.id :: outs[k] == Output(None, true)
  {
    hide Elapsed, Overlay, Delivery, GroupsOf, SlotsOk, StampedBy, Represents, LiveIds, Gathered, NonFinal;
    var arrivals := [first] + (between + [last]);
    var m := GroupsOf(slots, t);
    TableRepresents(slots, t);
    RunRefines(slots, m, t, arrivals);
    assert arrivals[0] == first && arrivals[1..] == between + [last];
    TimePasses(slots, m, t, first.now);
    RepresentedIds(slots, Unexpired(m, first.now), first.now);
    var (m1, out1) := GroupStep(m, first.frag, first.now);
    assert out1 == Output(None, true) && first.frag.id in m1 && m1[first.frag.id] == Group(first.frag.data, first.now);
    LastCompletes(m1, between, last, first);
    RunAppend(m1, between, last);
    var outs := RunGroups(m, arrivals).1;
    assert outs == [out1] + RunGroups(m1, between + [last]).1;
    forall k | 0 <= k < |arrivals| - 1 && arrivals[k].frag.id == first.frag.id
      ensures outs[k] == Output(None, true)
    {
      if k > 0 {
        assert between[k - 1] == arrivals[k];
      }
    }
  }

  lemma {:induction false} PromptSplits(t: nat, between: seq<Arrival>, last: Arrival, id: GroupId)
    requires Prompt(t, between + [last], id)
    ensures Prompt(t, between, id) && Elapsed(last.now, LastOwn(t, between, id)) < TIMEOUT
    decreases |between|
  {
    if between != [] {
      assert (between + [last])[1..] == between[1..] + [last];
      PromptSplits(if between[0].frag.id == id then between[0].now else t, between[1..], last, id);
    }
  }

  lemma {:induction false} RunAppend(m: Groups, arrivals: seq<Arrival>, last: Arrival)
    ensures RunGroups(m, arrivals + [last]).1 ==
            RunGroups(m, arrivals).1 + [GroupStep(RunGroups(m, arrivals).0, last.frag, last.now).1]
    decreases |arrivals|
  {
    if arrivals == [] {
      assert [last][1..] == [];
    } else {
      assert (arrivals + [last])[1..] == arrivals[1..] + [last];
      RunAppend(GroupStep(m, arrivals[0].frag, arrivals[0].now).0, arrivals[1..], last);
    }
  }

  // ----- Reassembly -----

  function Concat(pieces: seq<Bytes>): Bytes
  {
    if pieces == [] then [] else Concat(pieces[..|pieces| - 1]) + pieces[|pieces| - 1]
  }

  // The pieces of group id arrive from the last down to the first.
  ghost predicate Descending(arrivals: seq<Arrival>, id: GroupId, pieces: seq<Bytes>)
  {
    var own := Own(arrivals, id);
    |own| == |pieces| && forall k | 0 <= k < |own| :: own[k].frag.data == pieces[|pieces| - 1 - k]
  }

  // They arrive from the first up to the last.
  ghost predicate Ascending(arrivals: seq<Arrival>, id: GroupId, pieces: seq<Bytes>)
  {
    Datas(Own(arrivals, id)) == pieces
  }

  lemma {:induction false} StackedDescending(own: seq<Arrival>, pieces: seq<Bytes>)
    requires |own| == |pieces| && forall k | 0 <= k < |own| :: own[k].frag.data == pieces[|pieces| - 1 - k]
    ensures Stacked(Datas(own)) == Concat(pieces)
    decreases |own|
  {
    if own != [] {
      var n := |pieces| - 1;
      StackedDescending(own[1..], pieces[..n]);
      assert Datas(own)[1..] == Datas(own[1..]);
    }
  }

  lemma OverlayAppends(a: Bytes, b: Bytes)
    ensures Overlay(a, |a|, b) == a + b
  {
  }

  // What is asked of a payload in pieces: it fits, the final fragment has its place after the pieces, all come in time.
  ghost predicate Split(first: Arrival, between: seq<Arrival>, last: Arrival, pieces: seq<Bytes>, payload: Bytes)
  {
    && payload == Concat(pieces) + last.frag.data
    && |Concat(pieces)| <= SLOT_BUFFER && |payload| <= CONTENT_BUFFER
    && !first.frag.final && NonFinal(between, first.frag.id)
    && last.frag == Fragment(first.frag.id, true, |Concat(pieces)|, last.frag.data)
    && Prompt(first.now, between + [last], first.frag.id)
  }

  ghost predicate Delivers(first: Arrival, between: seq<Arrival>, last: Arrival, pieces: seq<Bytes>, payload: Bytes)
  {
    Split(first, between, last, pieces, payload) && Descending([first] + between, first.frag.id, pieces)
  }

  lemma DescendingDelivery(first: Arrival, between: seq<Arrival>, last: Arrival, pieces: seq<Bytes>, payload: Bytes)
    requires Delivers(first, between, last, pieces, payload)
    ensures Gathers(first, between, last) && Delivery(first, between, last) == Output(Some(payload), true)
  {
    hide Overlay, Prompt, NonFinal;
    StackedDescending(Own([first] + between, first.frag.id), pieces);
    OverlayAppends(Concat(pieces), last.frag.data);
  }

  // From every table with room, pieces from the highest offset down and then the final one deliver the payload, with the
  // final one and not before.
  lemma Reassembles(slots: seq<Slot>, t: nat, first: Arrival, between: seq<Arrival>, last: Arrival,
                    pieces: seq<Bytes>, payload: Bytes)
    requires TableFits(slots, t, [first] + (between + [last])) && HasRoom(slots, first.frag.id, first.now)
    requires Delivers(first, between, last, pieces, payload)
    ensures
      var arrivals := [first] + (between + [last]);
      var outs := RunSlots(slots, arrivals).1;
      && |outs| == |arrivals|
      && outs[|arrivals| - 1] == Output(Some(payload), true)
      && forall k | 0 <= k < |arrivals| - 1 && arrivals[k].frag.id == first.frag.id :: outs[k] == Output(None, true)
  {
    hide TableFits, HasRoom, Delivers, Delivery, Gathers, RunSlots;
    DescendingDelivery(first, between, last, pieces, payload);
    AnyOrder(slots, t, first, between, last);
  }

  lemma {:induction false} StackedLength(pieces: seq<Bytes>)
    ensures |Stacked(pieces)| == |Concat(pieces)|
    decreases |pieces|
  {
    if pieces != [] {
      StackedLength(pieces[1..]);
      ConcatCons(pieces);
    }
  }

  lemma {:induction false} ConcatCons(pieces: seq<Bytes>)
    requires pieces != []
    ensures Concat(pieces) == pieces[0] + Concat(pieces[1..])
    decreases |pieces|
  {
    var n := |pieces| - 1;
    if n > 0 {
      ConcatCons(pieces[..n]);
      assert pieces[..n][1..] == pieces[1..][..n - 1];
    }
  }

  lemma AscendingDelivery(first: Arrival, between: seq<Arrival>, last: Arrival, pieces: seq<Bytes>, payload: Bytes)
    requires Split(first, between, last, pieces, payload) && Ascending([first] + between, first.frag.id, pieces)
    ensures Gathers(first, between, last)
    ensures Delivery(first, between, last) == Output(Some(Stacked(pieces) + last.frag.data), true)
    ensures Delivery(first, between, last).written == Some(payload) <==> Stacked(pieces) == Concat(pieces)
  {
    hide Overlay, Prompt, NonFinal;
    StackedLength(pieces);
    OverlayAppends(Stacked(pieces), last.frag.data);
    assert (Stacked(pieces) + last.frag.data)[..|Concat(pieces)|] == Stacked(pieces);
    assert payload[..|Concat(pieces)|] == Concat(pieces);
  }

  // From every table with room, pieces in ascending order come out stacked the other way round: any number of them makes
  // up the payload exactly when the order does not matter for its bytes.
  lemma AscendingOrder(slots: seq<Slot>, t: nat, first: Arrival, between: seq<Arrival>, last: Arrival,
                       pieces: seq<Bytes>, payload: Bytes)
    requires TableFits(slots, t, [first] + (between + [last])) && HasRoom(slots, first.frag.id, first.now)
    requires Split(first, between, last, pieces, payload) && Ascending([first] + between, first.frag.id, pieces)
    ensures
      var arrivals := [first] + (between + [last]);
      var outs := RunSlots(slots, arrivals).1;
      && |outs| == |arrivals|
      && outs[|arrivals| - 1] == Output(Some(Stacked(pieces) + last.frag.data), true)
      && (outs[|arrivals| - 1].written == Some(payload) <==> Stacked(pieces) == Concat(pieces))
  {
    hide TableFits, HasRoom, Split, Ascending, Delivery, Gathers, RunSlots;
    AscendingDelivery(first, between, last, pieces, payload);
    AnyOrder(slots, t, first, between, last);
  }

  // Two pieces do so exactly when they commute.
  lemma TwoPiecesStacked(a: Bytes, b: Bytes)
    ensures Stacked([a, b]) == Concat([a, b]) <==> a + b == b + a
  {
    StackTwo(a, b);
  }

  // The pieces 1, 2 and 3 of one payload, in this order into an empty table, come out as 2, 1, 3.
  lemma AscendingOrderExample(id: GroupId, a: Bytes, b: Bytes, c: Bytes, now: nat)
    requires now < TWO32 && a == [1] && b == [2] && c == [3]
    ensures
      var arrivals := [Arrival(Fragment(id, false, 0, a), now)]
                      + ([Arrival(Fragment(id, false, |a|, b), now)] + [Arrival(Fragment(id, true, |a| + |b|, c), now)]);
      |RunSlots(NoSlots(), arrivals).1| == 3 && RunSlots(NoSlots(), arrivals).1[2].written == Some([2, 1, 3])
  {
    hide RunSlots, Delivery, SlotsOk, LiveIds, Overlay;
    var first, second := Arrival(Fragment(id, false, 0, a), now), Arrival(Fragment(id, false, |a|, b), now);
    var last := Arrival(Fragment(id, true, |a| + |b|, c), now);
    AllFreeOk(NoSlots());
    assert LiveIds(NoSlots(), now) == {} by {
      NoIds(now);
    }
    assert ([first] + ([second] + [last]))[1..] == [second] + [last] && ([second] + [last])[1..] == [last] && [last][1..] == [];
    assert [first] + [second] == [first, second] && [first, second][1..] == [second] && [second][1..] == [];
    JustStamped(now);
    assert ClockFrom(now, []) && ClockFrom(now, [last]) && ClockFrom(now, [second] + [last]);
    assert Prompt(now, [], id) && Prompt(now, [last], id);
    assert Own([second], id) == [second];
    assert Own([first, second], id) == [first, second];
    assert Datas([second]) == [b];
    assert Datas([first, second]) == [a, b];
    StackTwo(a, b);
    AscendingOrder(NoSlots(), now, first, [second], last, [a, b], a + b + c);
    assert b + a + c == [2, 1, 3];
  }

  lemma NoIds(now: nat)
    ensures LiveIds(NoSlots(), now) == {}
  {
  }

  lemma StackTwo(a: Bytes, b: Bytes)
    ensures Stacked([a, b]) == b + a && Concat([a, b]) == a + b
  {
    assert [a, b][1..] == [b] && [b][1..] == [] && [a, b][..1] == [a] && [a][..0] == [];
    assert Stacked([]) == [] && Concat([]) == [];
    assert Stacked([b]) == [] + b;
    assert Concat([a]) == [] + a;
    assert [] + a == a && [] + b == b;
  }

  // ----- Fragment packets carry what they were built from -----

  function Packed(f: Fragment): nat
  {
    (if f.final then 1 else 0) + 4 * f.off + 0x8000 * |f.data|
  }

  lemma Parity(n: nat, q: nat, r: nat)
    requires n == 2 * q + r && r < 2
    ensures n % 2 == r
  {
  }

  lemma Quarter(n: nat, q: nat, r: nat)
    requires n == 4 * q + r && r < 4
    ensures n / 4 == q
  {
  }

  lemma Offset(n: nat, q: nat, r: nat)
    requires n == 0x2000 * q + r && r < 0x2000
    ensures n % 0x2000 == r
  {
  }

  lemma Length(n: nat, q: nat, r: nat)
    requires n == 0x8000 * q + r && r < 0x8000 && q < 0x800
    ensures n / 0x8000 % 0x800 == q
  {
  }

  lemma PackedFields(f: Fragment)
    requires f.off < 0x2000 && 1 <= |f.data| < 0x800
    ensures Packed(f) < 0x400_0000
    ensures Packed(f) / 0x8000 % 0x800 == |f.data| && Packed(f) / 4 % 0x2000 == f.off
    ensures Packed(f) % 2 == if f.final then 1 else 0
  {
    var last := if f.final then 1 else 0;
    Parity(Packed(f), 2 * f.off + 0x4000 * |f.data|, last);
    Quarter(Packed(f), f.off + 0x2000 * |f.data|, last);
    Offset(Packed(f) / 4, |f.data|, f.off);
    Length(Packed(f), |f.data|, last + 4 * f.off);
  }

  // A fragment packet: eight header bytes, eight unused ones, the group, the packed fields and the data.
  function FragmentPacket(header: Bytes, unused: Bytes, f: Fragment): Bytes
    requires |header| == 8 && |unused| == 8 && f.off < 0x2000 && 1 <= |f.data| < 0x800
  {
    header + unused + f.id + LittleEndian(Packed(f), 4) + f.data
  }

  lemma ParseOfFragmentPacket(header: Bytes, unused: Bytes, f: Fragment)
    requires |header| == 8 && |unused| == 8 && f.off < 0x2000 && 1 <= |f.data| < 0x800
    ensures ParseFragment(FragmentPacket(header, unused, f)) == Some(f)
  {
    hide LittleEndian, FromLittleEndian, Packed;
    PackedFields(f);
    assert Pow256(4) == 0x1_0000_0000;
    LittleEndianRoundTrip(Packed(f), 4);
    var packet := FragmentPacket(header, unused, f);
    assert packet[16..20] == f.id && packet[20..24] == LittleEndian(Packed(f), 4) && packet[24..] == f.data;
  }
}
