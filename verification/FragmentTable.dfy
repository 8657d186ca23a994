/** The client's fragment slots and output buffer, updated in place. */
module FragmentTable {
  import opened Wire
  import opened Buffers
  import opened Fragments

  class Table {
    const bufs: array2<bv8>
    const inUse: array<bool>
    const timestamps: array<nat>
    const ids: array<GroupId>
    const offs: array<nat>
    const lens: array<nat>
    const content: array<bv8>
    // The slots as values.
    ghost var view: seq<Slot>

    ghost function Repr(): set<object>
    {
      {this, bufs, inUse, timestamps, ids, offs, lens, content}
    }

    ghost predicate Allocated()
    {
      && bufs.Length0 == SLOTS && bufs.Length1 == SLOT_BUFFER
      && inUse.Length == timestamps.Length == ids.Length == offs.Length == lens.Length == SLOTS
      && content.Length == CONTENT_BUFFER
      && timestamps != offs && timestamps != lens && offs != lens
    }

    ghost function Row(i: nat, n: nat): Bytes
      reads bufs
      requires Allocated() && i < SLOTS && n <= SLOT_BUFFER
    {
      seq(n, j requires 0 <= j < n reads bufs => bufs[i, j])
    }

    ghost predicate LengthsFit()
      reads lens
      requires Allocated()
    {
      forall i | 0 <= i < SLOTS :: lens[i] <= SLOT_BUFFER
    }

    ghost function Slots(): (s: seq<Slot>)
      reads bufs, inUse, ids, timestamps, lens
      requires Allocated() && LengthsFit()
      ensures |s| == SLOTS
      ensures forall i | 0 <= i < SLOTS :: s[i] == SlotAt(i)
    {
      seq(SLOTS, i requires 0 <= i < SLOTS && LengthsFit() reads bufs, inUse, ids, timestamps, lens => SlotAt(i))
    }

    ghost function SlotAt(i: nat): Slot
      reads bufs, inUse, ids, timestamps, lens
      requires Allocated() && LengthsFit() && i < SLOTS
    {
      Slot(inUse[i], ids[i], timestamps[i], Row(i, lens[i]))
    }

    ghost predicate Valid()
      reads Repr()
    {
      Allocated() && LengthsFit() && view == Slots() && SlotsOk(view)
    }

    constructor ()
      ensures Valid() && fresh(Repr())
      ensures view == NoSlots()
    {
      bufs := new bv8[SLOTS, SLOT_BUFFER];
      inUse := new bool[SLOTS](_ => false);
      timestamps := new nat[SLOTS](_ => 0);
      ids := new GroupId[SLOTS](_ => [0, 0, 0, 0]);
      offs := new nat[SLOTS];
      lens := new nat[SLOTS](_ => 0);
      content := new bv8[CONTENT_BUFFER];
      new;
      hide SlotsOk;
      AllFreeOk(NoSlots());
      view := NoSlots();
      assert forall i | 0 <= i < SLOTS :: Row(i, 0) == [];
    }

    method FindSlot(id: GroupId) returns (i: nat)
      requires Allocated() && LengthsFit()
      ensures i == FindGroup(Slots(), id, 0)
    {
      i := 0;
      while i < SLOTS && !(inUse[i] && ids[i] == id)
        invariant i <= SLOTS && FindGroup(Slots(), id, 0) == FindGroup(Slots(), id, i)
      {
        i := i + 1;
      }
    }

    method FindFreeSlot(now: nat) returns (i: nat)
      requires Allocated() && LengthsFit()
      ensures i == FindFree(Slots(), now, 0)
    {
      i := 0;
      while i < SLOTS && inUse[i] && Elapsed(now, timestamps[i]) < TIMEOUT
        invariant i <= SLOTS && FindFree(Slots(), now, 0) == FindFree(Slots(), now, i)
      {
        i := i + 1;
      }
    }

    method Free(i: nat)
      requires Allocated() && LengthsFit() && i < SLOTS
      modifies inUse
      ensures Slots() == old(Slots())[i := old(Slots())[i].(inUse := false)]
    {
      inUse[i] := false;
    }

    // Empties the table.
    method FreeAll()
      requires Valid()
      modifies `view, inUse
      ensures Valid() && view == FreedSlots(old(view))
    {
      for i := 0 to SLOTS
        invariant forall k | 0 <= k < SLOTS :: inUse[k] == (k >= i && old(inUse[k]))
      {
        inUse[i] := false;
      }
      AllFreeOk(Slots());
      view := Slots();
      assert view == FreedSlots(old(view));
    }

    // memcpy from a slot's buffer to the start of the output buffer, and back.
    method Load(i: nat, at: nat)
      requires Allocated() && LengthsFit() && i < SLOTS && at + lens[i] <= CONTENT_BUFFER
      modifies content
      ensures forall k | 0 <= k < CONTENT_BUFFER :: content[k] == if at <= k < at + lens[i] then bufs[i, k - at] else old(content[k])
    {
      forall k | 0 <= k < lens[i] {
        content[at + k] := bufs[i, k];
      }
    }

    method Store(i: nat, data: Bytes, now: nat)
      requires Allocated() && LengthsFit() && i < SLOTS && |data| <= SLOT_BUFFER
      modifies bufs, lens, timestamps
      ensures LengthsFit() && Slots() == old(Slots())[i := old(Slots())[i].(timestamp := now, data := data)]
    {
      forall k | 0 <= k < |data| {
        bufs[i, k] := data[k];
      }
      lens[i] := |data|;
      timestamps[i] := now;
      assert Row(i, |data|) == data;
      forall j | 0 <= j < SLOTS && j != i
        ensures Row(j, lens[j]) == old(Row(j, lens[j]))
      {
      }
    }

    // A further, non-final fragment goes in front of what has been gathered.
    method Prepend(i: nat, f: Fragment, now: nat) returns (accepted: bool)
      requires Valid() && i < SLOTS && 1 <= |f.data| < SLOT_BUFFER
      modifies content, bufs, lens, timestamps, inUse
      ensures LengthsFit()
      ensures accepted == (|f.data| + |old(Slots())[i].data| <= SLOT_BUFFER)
      ensures Slots() == old(Slots())[i := if accepted then old(Slots())[i].(timestamp := now, data := f.data + old(Slots())[i].data)
                                           else old(Slots())[i].(inUse := false)]
    {
      var totalLen := lens[i] + |f.data|;
      assert totalLen <= CONTENT_BUFFER;
      Clear();
      Copy(f.data, content, 0);
      Load(i, |f.data|);
      assert content[..totalLen] == f.data + Slots()[i].data;
      if totalLen <= SLOT_BUFFER {
        Store(i, content[..totalLen], now);
        accepted := true;
      } else {
        Free(i);
        accepted := false;
      }
    }

    // memset.
    method Clear()
      requires content.Length == CONTENT_BUFFER
      modifies content
      ensures forall k | 0 <= k < CONTENT_BUFFER :: content[k] == 0
    {
      forall k | 0 <= k < CONTENT_BUFFER {
        content[k] := 0;
      }
    }

    // The final fragment completes the group; the result is decrypted in place.
    method Finish(i: nat, f: Fragment, encrypt: bool, key: XorKey) returns (written: Option<Bytes>)
      requires Valid() && i < SLOTS && 1 <= |f.data| < SLOT_BUFFER
      modifies content, inUse
      ensures Slots() == old(Slots())[i := old(Slots())[i].(inUse := false)]
      ensures
        var whole := Overlay(old(Slots())[i].data, f.off, f.data);
        written == if |whole| <= CONTENT_BUFFER then Some(Decoded(encrypt, key, whole)) else None
    {
      var totalLen := f.off + |f.data|;
      if totalLen < lens[i] {
        totalLen := lens[i];
      }
      ghost var whole := Overlay(Slots()[i].data, f.off, f.data);
      if totalLen > CONTENT_BUFFER {
        Free(i);
        return None;
      }
      Clear();
      Load(i, 0);
      Copy(f.data, content, f.off);
      assert content[..totalLen] == whole;
      if encrypt {
        XorRange(key, content, 0, totalLen);
      }
      assert content[..totalLen] == Decoded(encrypt, key, whole);
      written := Some(content[..totalLen]);
      Free(i);
    }

    // A fragment of a group that holds no slot opens one, if a slot is free or expired.
    method Open(f: Fragment, now: nat) returns (accepted: bool)
      requires Allocated() && LengthsFit() && |f.data| <= SLOT_BUFFER
      modifies bufs, inUse, timestamps, ids, offs, lens
      ensures LengthsFit()
      ensures
        var j := FindFree(old(Slots()), now, 0);
        && accepted == (j < SLOTS)
        && Slots() == if j < SLOTS then old(Slots())[j := Slot(true, f.id, now, f.data)] else old(Slots())
    {
      var j := FindFreeSlot(now);
      if j == SLOTS {
        return false;
      }
      ghost var start := Slots();
      inUse[j] := true;
      ids[j] := f.id;
      offs[j] := f.off;
      assert forall k | 0 <= k < SLOTS && k != j :: SlotAt(k) == start[k];
      Store(j, f.data, now);
      return true;
    }

    method HandleIpfrag(packet: Bytes, encrypt: bool, key: XorKey, now: nat) returns (written: Option<Bytes>, accepted: bool)
      requires Valid()
      modifies Repr()
      ensures Valid()
      ensures (view, written, accepted) == IpfragStep(old(view), packet, encrypt, key, now)
    {
      hide Overlay, Elapsed, SlotsOk, FindGroup, FindFree;
      var parsed := ParseFragment(packet);
      if parsed.None? {
        return None, false;
      }
      var f := parsed.value;
      KeepsSlotsOk(Slots(), f, now);
      var i := FindSlot(f.id);
      if i < SLOTS {
        if Elapsed(now, timestamps[i]) >= TIMEOUT {
          Free(i);
        } else if !f.final {
          accepted := Prepend(i, f, now);
          view := Slots();
          return None, accepted;
        } else {
          written := Finish(i, f, encrypt, key);
          view := Slots();
          return written, written.Some?;
        }
      }
      accepted := Open(f, now);
      view := Slots();
      return None, accepted;
    }
  }

  // XOR decryption of a delivered payload, if the session is encrypted.
  function Decoded(encrypt: bool, key: XorKey, payload: Bytes): (r: Bytes)
    ensures |r| == |payload|
  {
    if encrypt then XorData(key, payload) else payload
  }

  // One fragment packet as the whole handler sees it: new slots, bytes written to the TUN, accepted or not.
  function IpfragStep(slots: seq<Slot>, packet: Bytes, encrypt: bool, key: XorKey, now: nat): (seq<Slot>, Option<Bytes>, bool)
  {
    match ParseFragment(packet)
    case None => (slots, None, false)
    case Some(f) =>
      var (slots', out) := SlotStep(slots, f, now);
      (slots', if out.written.Some? then Some(Decoded(encrypt, key, out.written.value)) else None, out.accepted)
  }
}
