/** The buffer group and the buffer set over it, updated in place. */
module Groups {
  import opened Common
  import opened GroupModel
  import RingModel
  import Rings

  class ReadBufferGroup {
    var buffers: map<nat, Buffer>
    var cancelled: seq<Buffer>

    ghost function View(): Storage
      reads this
    {
      Storage(buffers, cancelled)
    }

    constructor ()
      ensures View() == EMPTY.store
    {
      buffers, cancelled := map[], [];
    }

    method Take(id: nat) returns (buffer: Buffer)
      requires id in buffers
      modifies this
      ensures buffer == old(buffers)[id]
      ensures Some(View()) == GroupModel.Take(old(View()), id)
    {
      buffer := buffers[id];
      buffers := buffers - {id};
    }

    /** `index` is the vacant slab slot picked for the buffer. */
    method Put(buffer: Buffer, index: nat) returns (id: nat)
      requires index !in buffers
      modifies this
      ensures View() == GroupModel.Put(old(View()), index, buffer)
      ensures id == IdOf(index)
      ensures id < ID_LIMIT && (id == index <==> index < ID_LIMIT)
    {
      buffers := buffers[index := buffer];
      id := index % ID_LIMIT;
    }

    method Clear()
      modifies this
      ensures View() == old(View()).(buffers := map[])
    {
      buffers := map[];
    }

    method Present() returns (n: nat)
      ensures n == |View().buffers|
    {
      n := |buffers|;
    }

    method MarkCancelled(id: nat)
      requires id in buffers
      modifies this
      ensures Some(View()) == GroupModel.MarkCancelled(old(View()), id)
    {
      var buffer := buffers[id];
      buffers := buffers - {id};
      cancelled := cancelled + [buffer];
    }

    method GetCancelled() returns (buffer: Option<Buffer>)
      modifies this
      ensures old(cancelled) == [] ==> buffer == None && View() == old(View())
      ensures old(cancelled) != [] ==>
                && buffer == Some(old(cancelled)[|old(cancelled)| - 1])
                && View() == old(View()).(cancelled := old(cancelled)[..|old(cancelled)| - 1])
    {
      if cancelled == [] {
        return None;
      }
      buffer := Some(cancelled[|cancelled| - 1]);
      cancelled := cancelled[..|cancelled| - 1];
    }

    /** The result and the cancellation of a group read, for one completion. */
    method ReadResult(result: RingResult) returns (buffer: Option<Buffer>)
      requires result.BufferId().Some? ==> result.BufferId().value in buffers
      modifies this
      ensures result.BufferId() == None ==> buffer == None && View() == old(View())
      ensures result.BufferId().Some? ==>
                && buffer == Some(old(buffers)[result.BufferId().value])
                && Some(View()) == GroupModel.Take(old(View()), result.BufferId().value)
    {
      match result.BufferId() {
        case None =>
          buffer := None;
        case Some(id) =>
          var taken := Take(id);
          buffer := Some(taken);
      }
    }

    method ReadCancelled(result: RingResult)
      requires result.BufferId().Some? ==> result.BufferId().value in buffers
      modifies this
      ensures result.BufferId() == None ==> View() == old(View())
      ensures result.BufferId().Some? ==>
                Some(View()) == GroupModel.MarkCancelled(old(View()), result.BufferId().value)
    {
      match result.BufferId() {
        case None =>
        case Some(id) =>
          MarkCancelled(id);
      }
    }

    /**
      How many buffers a removal asks the kernel for: those present, if and only if their number fits
      sixteen bits, and never more.
    */
    method RemoveEntry() returns (count: nat)
      ensures count == Asked(View())
      ensures count <= |View().buffers| && count < ID_LIMIT
      ensures count == |View().buffers| <==> |View().buffers| < ID_LIMIT
      ensures exists n: nat :: |View().buffers| == count + n * ID_LIMIT
    {
      var present := Present();
      count := present % ID_LIMIT;
      assert present == count + (present / ID_LIMIT) * ID_LIMIT;
    }

    /**
      The group's last operation; `removed` is what the kernel reports, an error if negative. It
      panics unless exactly the buffers present were removed; with none present any report will do.
    */
    method RemoveResult(removed: int) returns (panicked: bool)
      modifies this
      ensures panicked <==> |old(View()).buffers| > 0 && removed != |old(View()).buffers|
      ensures panicked ==> View() == old(View())
      ensures !panicked ==> View() == old(View()).(buffers := map[])
    {
      var present := Present();
      if present > 0 {
        if removed < 0 || removed != present {
          return true;
        }
        Clear();
      } else {
        assert buffers.Keys == {};
        assert buffers == map[];
      }
      panicked := false;
    }
  }

  /** The submission entries that provide n buffers. */
  function ProvideEntries(n: nat): (entries: seq<RingModel.Sqe>)
    ensures |entries| == n && forall i :: 0 <= i < n ==> entries[i] == RingModel.OpSqe(RingModel.IGNORE_KEY)
  {
    seq(n, _ => RingModel.OpSqe(RingModel.IGNORE_KEY))
  }

  /** A ring with n provide entries more in its queue, and n detached submissions more on its books. */
  function WithProvides(state: RingModel.State, n: nat): RingModel.State {
    state.(sq := state.sq + ProvideEntries(n), detached := state.detached + n)
  }

  /** The ids of a list of slots. */
  function IdsOf(slots: seq<nat>): seq<nat> {
    seq(|slots|, i requires 0 <= i < |slots| => IdOf(slots[i]))
  }

  /** What a buffer set has brought about so far: in the group, on the ring, and in ids provided. */
  datatype Trace = Trace(store: Storage, ring: RingModel.State, ids: seq<nat>)

  /** There is a vacant slot for each cancelled buffer. */
  ghost predicate CanRecycle(store: Storage, slots: seq<nat>) {
    && |slots| == |store.cancelled| && NoDuplicates(slots)
    && forall i :: 0 <= i < |slots| ==> slots[i] !in store.buffers
  }

  /**
    Each of the slots holds one of the cancelled buffers, the last one first, and none of those is left;
    no other slot has changed.
  */
  ghost predicate Refilled(before: Storage, slots: seq<nat>, after: Storage)
    requires |slots| == |before.cancelled|
  {
    && after.cancelled == []
    && (forall k :: k in after.buffers <==> k in before.buffers || k in slots)
    && (forall k :: k in before.buffers ==> after.buffers[k] == before.buffers[k])
    && (forall i :: 0 <= i < |slots| ==> after.buffers[slots[i]] == before.cancelled[|slots| - 1 - i])
  }

  lemma RefilledByAll(store: Storage, slots: seq<nat>)
    requires CanRecycle(store, slots)
    ensures Refilled(store, slots, RecycledStore(store, slots))
  {
    RecycledAt(store, slots);
  }

  /** What it has brought about after n more rounds of recycling. */
  function AfterRounds(start: Trace, slots: seq<nat>, n: nat): Trace
    requires n <= |slots| <= |start.store.cancelled|
  {
    Trace(RecycledStore(start.store, slots[..n]), WithProvides(start.ring, n), start.ids + IdsOf(slots[..n]))
  }

  class ReadBufferSet {
    const group: ReadBufferGroup
    const ring: Rings.Ring
    /** The ids named by the provide entries submitted so far. */
    ghost var provided: seq<nat>

    constructor (ring: Rings.Ring)
      ensures this.ring == ring && group.View() == EMPTY.store && fresh(group) && provided == []
    {
      group := new ReadBufferGroup();
      this.ring := ring;
      provided := [];
    }

    /** Puts a buffer into the group and submits a detached entry that provides it. */
    method Insert(buffer: Buffer, index: nat)
      requires ring.Valid()
      requires index !in group.buffers
      modifies this, group, ring
      ensures ring.Valid()
      ensures group.View() == GroupModel.Put(old(group.View()), index, buffer)
      ensures ring.State() == RingModel.SubmitDetached(old(ring.State()))
      ensures provided == old(provided) + [IdOf(index)]
    {
      var id := group.Put(buffer, index);
      ring.SubmitDetached();
      provided := provided + [id];
    }

    /**
      The end of a read: the buffer goes to the caller, or back to the group if the read failed. A
      successful read comes with a buffer; `index` is the slot picked for one that goes back.
    */
    method FinishRead(result: RingResult, index: nat) returns (r: Option<(Buffer, int)>)
      requires ring.Valid()
      requires result.ret >= 0 ==> result.BufferId().Some?
      requires result.BufferId().Some? ==> result.BufferId().value in group.buffers
      requires index in group.buffers ==> result.BufferId() == Some(index)
      modifies this, group, ring
      ensures ring.Valid()
      ensures result.ret >= 0 ==>
                && r == Some((old(group.buffers)[result.BufferId().value], result.ret))
                && Some(group.View()) == GroupModel.Take(old(group.View()), result.BufferId().value)
                && ring.State() == old(ring.State()) && provided == old(provided)
      ensures result.ret < 0 ==> r == None && group.cancelled == old(group.cancelled)
      ensures result.ret < 0 && result.BufferId().Some? ==>
                var id := result.BufferId().value;
                && group.buffers == (old(group.buffers) - {id})[index := old(group.buffers)[id]]
                && ring.State() == RingModel.SubmitDetached(old(ring.State()))
                && provided == old(provided) + [IdOf(index)]
      ensures result.ret < 0 && result.BufferId() == None ==>
                group.View() == old(group.View()) && ring.State() == old(ring.State()) && provided == old(provided)
    {
      var buffer := group.ReadResult(result);
      if result.ret >= 0 {
        return Some((buffer.value, result.ret));
      }
      if buffer.Some? {
        Insert(buffer.value, index);
      }
      return None;
    }

    ghost function Now(): Trace
      requires ring.completions.Valid()
      reads this, group, ring, ring.completions, ring.completions.pool
    {
      Trace(group.View(), ring.State(), provided)
    }

    /** One round of recycling: the last cancelled buffer, if any, is provided again. */
    method RecycleOne(slots: seq<nat>, n: nat, ghost start: Trace) returns (more: bool)
      requires ring.Valid() && CanRecycle(start.store, slots) && n <= |slots| && Now() == AfterRounds(start, slots, n)
      modifies this, group, ring
      ensures ring.Valid() && more == (n < |slots|)
      ensures Now() == AfterRounds(start, slots, if more then n + 1 else n)
    {
      if n < |slots| {
        RecycledNext(start, slots, n);
      }
      var buffer := group.GetCancelled();
      more := buffer.Some?;
      if more {
        Insert(buffer.value, slots[n]);
      }
    }

    /**
      Provides every cancelled buffer again, the last one first, each under the vacant slot picked for it
      and with a provide entry of its own; nothing else of the group or the ring changes.
    */
    method RecycleAll(slots: seq<nat>)
      requires ring.Valid() && CanRecycle(group.View(), slots)
      modifies this, group, ring
      ensures ring.Valid()
      ensures group.View() == RecycledStore(old(group.View()), slots)
      ensures Refilled(old(group.View()), slots, group.View())
      ensures ring.State() ==
              old(ring.State()).(sq := old(ring.sq) + ProvideEntries(|old(group.cancelled)|),
                                 detached := old(ring.detached) + |old(group.cancelled)|)
      ensures provided == old(provided) + IdsOf(slots)
    {
      ghost var start := Now();
      RecycleRounds(slots);
      AllRounds(start, slots);
      RefilledByAll(start.store, slots);
    }

    /** The loop: one round after the other, until no cancelled buffer is left. */
    method RecycleRounds(slots: seq<nat>)
      requires ring.Valid() && CanRecycle(group.View(), slots)
      modifies this, group, ring
      ensures ring.Valid() && Now() == AfterRounds(old(Now()), slots, |slots|)
    {
      ghost var start := Now();
      var n, more := 0, true;
      NothingRecycled(start, slots);
      while more
        invariant ring.Valid()
        invariant n <= |slots| && (!more ==> n == |slots|)
        invariant Now() == AfterRounds(start, slots, n)
        decreases |slots| - n, more
      {
        more := RecycleOne(slots, n, start);
        if more {
          n := n + 1;
        }
      }
    }
  }

  lemma NothingRecycled(start: Trace, slots: seq<nat>)
    requires CanRecycle(start.store, slots)
    ensures AfterRounds(start, slots, 0) == start
  {
    assert slots[..0] == [] && start.ids + IdsOf([]) == start.ids;
    assert start.ring.sq + ProvideEntries(0) == start.ring.sq;
  }

  lemma AllRounds(start: Trace, slots: seq<nat>)
    requires CanRecycle(start.store, slots)
    ensures AfterRounds(start, slots, |slots|) ==
            Trace(RecycledStore(start.store, slots), WithProvides(start.ring, |slots|), start.ids + IdsOf(slots))
  {
    assert slots[..|slots|] == slots;
  }

  lemma RecycledNext(start: Trace, slots: seq<nat>, n: nat)
    requires CanRecycle(start.store, slots) && n < |slots|
    ensures var t := AfterRounds(start, slots, n);
            var last := |t.store.cancelled| - 1;
            && last >= 0 && slots[n] !in t.store.buffers
            && AfterRounds(start, slots, n + 1) ==
               Trace(GroupModel.Put(t.store.(cancelled := t.store.cancelled[..last]), slots[n],
                                    t.store.cancelled[last]),
                     RingModel.SubmitDetached(t.ring), t.ids + [IdOf(slots[n])])
  {
    NextRecycled(start.store, slots, n);
    OneMoreProvide(start.ring, n);
    OneMoreId(start.ids, slots, n);
  }

  lemma OneMoreProvide(state: RingModel.State, n: nat)
    ensures RingModel.SubmitDetached(WithProvides(state, n)) == WithProvides(state, n + 1)
  {
    OneMoreEntry(state.sq, n);
  }

  lemma OneMoreEntry(sq: seq<RingModel.Sqe>, n: nat)
    ensures sq + ProvideEntries(n) + [RingModel.OpSqe(RingModel.IGNORE_KEY)] == sq + ProvideEntries(n + 1)
  {
  }

  lemma OneMoreId(ids: seq<nat>, slots: seq<nat>, n: nat)
    requires n < |slots|
    ensures ids + IdsOf(slots[..n]) + [IdOf(slots[n])] == ids + IdsOf(slots[..n + 1])
  {
  }

  lemma NextRecycled(store: Storage, ids: seq<nat>, n: nat)
    requires n < |ids| <= |store.cancelled| && NoDuplicates(ids) && ids[n] !in store.buffers
    ensures ids[n] !in RecycledStore(store, ids[..n]).buffers
    ensures var front := RecycledStore(store, ids[..n]);
            var last := |front.cancelled| - 1;
            RecycledStore(store, ids[..n + 1]) ==
            GroupModel.Put(front.(cancelled := front.cancelled[..last]), ids[n], front.cancelled[last])
  {
    assert ids[..n + 1][..n] == ids[..n];
  }
}
