/**
  Provided buffers: a buffer given to a group sits in a slab under an id, which travels through the
  kernel's pool and through the completions of reads, and is recycled by the slab afterwards.
*/
module GroupModel {
  import opened Common

  type Buffer = nat
  type Reader = nat

  const ID_LIMIT: nat := 65536

  /** The slab of buffers by id, and the buffers that came back through cancelled reads. */
  datatype Storage = Storage(buffers: map<nat, Buffer>, cancelled: seq<Buffer>)

  /**
    `providing` lists ids whose provide entries the kernel has not executed, `pool` is what it may
    select from, `selected` tells which id it has selected for a read still in flight, and `held`
    lists, for each read, the completions on their way to it.
  */
  datatype Group = Group(
    store: Storage,
    providing: seq<nat>,
    pool: set<nat>,
    selected: map<Reader, nat>,
    user: set<Buffer>,
    held: map<Reader, seq<RingResult>>)

  const EMPTY := Group(Storage(map[], []), [], {}, map[], {}, map[])

  /** The id under which a slot of the slab is known to the kernel: sixteen bits of its index. */
  function IdOf(index: nat): (id: nat)
    ensures id < ID_LIMIT && (id == index <==> index < ID_LIMIT)
  {
    index % ID_LIMIT
  }

  // ---- what happens to buffers ----

  function Put(st: Storage, id: nat, buffer: Buffer): Storage {
    st.(buffers := st.buffers[id := buffer])
  }

  /** None: the slab panics on a vacant slot. */
  function Take(st: Storage, id: nat): Option<Storage> {
    if id in st.buffers then Some(st.(buffers := st.buffers - {id})) else None
  }

  function MarkCancelled(st: Storage, id: nat): Option<Storage> {
    if id in st.buffers
    then Some(Storage(st.buffers - {id}, st.cancelled + [st.buffers[id]]))
    else None
  }

  function Provide(g: Group, buffer: Buffer, id: nat): Group {
    g.(store := Put(g.store, id, buffer), providing := g.providing + [id], user := g.user - {buffer})
  }

  /** One round of recycling: the last cancelled buffer goes back to the kernel. */
  function Recycle(g: Group, id: nat): Group
    requires g.store.cancelled != []
  {
    var last := |g.store.cancelled| - 1;
    var st := g.store.(cancelled := g.store.cancelled[..last]);
    g.(store := Put(st, id, g.store.cancelled[last]), providing := g.providing + [id])
  }

  function KernelProvides(g: Group): Group
    requires g.providing != []
  {
    g.(providing := g.providing[1..], pool := g.pool + {g.providing[0]})
  }

  /** The kernel picks a buffer of its pool for a read that has none, or puts it back unused. */
  predicate CanSelect(g: Group, reader: Reader, id: nat) {
    reader in g.held && reader !in g.selected && id in g.pool
  }

  function Select(g: Group, reader: Reader, id: nat): Group {
    g.(pool := g.pool - {id}, selected := g.selected[reader := id])
  }

  function Unselect(g: Group, reader: Reader): Group
    requires reader in g.selected
  {
    g.(pool := g.pool + {g.selected[reader]}, selected := g.selected - {reader})
  }

  /** The kernel completes a read, with the buffer it selected or without one. */
  predicate CanComplete(g: Group, reader: Reader, result: RingResult) {
    reader in g.held &&
    match result.BufferId()
    case None => reader !in g.selected
    case Some(id) => reader in g.selected && g.selected[reader] == id
  }

  function Complete(g: Group, reader: Reader, result: RingResult): Group
    requires reader in g.held
  {
    g.(selected := g.selected - {reader}, held := g.held[reader := g.held[reader] + [result]])
  }

  /** A read is given its oldest completion: the buffer goes to the user. */
  function Deliver(g: Group, reader: Reader): Option<Group>
    requires reader in g.held && g.held[reader] != []
  {
    var rest := g.(held := g.held[reader := g.held[reader][1..]]);
    match g.held[reader][0].BufferId()
    case None => Some(rest)
    case Some(id) =>
      match Take(g.store, id)
      case None => None
      case Some(st) => Some(rest.(store := st, user := g.user + {g.store.buffers[id]}))
  }

  /** A cancellation consumes the oldest completion: the buffer joins the cancelled ones. */
  function Consume(g: Group, reader: Reader): Option<Group>
    requires reader in g.held && g.held[reader] != []
  {
    var rest := g.(held := g.held[reader := g.held[reader][1..]]);
    match g.held[reader][0].BufferId()
    case None => Some(rest)
    case Some(id) =>
      match MarkCancelled(g.store, id)
      case None => None
      case Some(st) => Some(rest.(store := st))
  }

  function ConsumeMany(g: Group, reader: Reader, count: nat): Option<Group>
    requires reader in g.held && count <= |g.held[reader]|
    decreases count
  {
    if count == 0 then Some(g)
    else
      match Consume(g, reader)
      case None => None
      case Some(next) => ConsumeMany(next, reader, count - 1)
  }

  // ---- the invariant ----

  /** Where an id in use may be. */
  datatype Place = Providing | InPool | SelectedFor(reader: Reader) | HeldFor(reader: Reader, i: nat)

  predicate IsAt(g: Group, p: Place, id: nat) {
    match p
    case Providing => id in g.providing
    case InPool => id in g.pool
    case SelectedFor(u) => u in g.selected && g.selected[u] == id
    case HeldFor(u, i) => u in g.held && i < |g.held[u]| && g.held[u][i].BufferId() == Some(id)
  }

  /** The ids in use are those of occupied slots, and each is at exactly one place. */
  ghost predicate PlacesOk(g: Group) {
    && (forall p, id :: IsAt(g, p, id) ==> id in g.store.buffers)
    && (forall p, q, id :: IsAt(g, p, id) && IsAt(g, q, id) ==> p == q)
    && (forall id :: id in g.store.buffers ==> exists p :: IsAt(g, p, id))
  }

  ghost predicate IdsOk(g: Group) {
    && NoDuplicates(g.providing)
    && g.selected.Keys <= g.held.Keys
    && (forall id :: id in g.store.buffers ==> id < ID_LIMIT)
    && PlacesOk(g)
  }

  predicate OwnSlot(m: map<nat, Buffer>, a: nat, b: nat)
    requires a in m && b in m
  {
    m[a] == m[b] ==> a == b
  }

  /** No buffer is stored twice. */
  ghost predicate Injective(m: map<nat, Buffer>) {
    forall a, b {:trigger OwnSlot(m, a, b)} :: a in m && b in m ==> OwnSlot(m, a, b)
  }

  /** Each buffer is at exactly one place: under one id, among the cancelled ones, or with the user. */
  ghost predicate BuffersOk(g: Group) {
    && Injective(g.store.buffers)
    && NoDuplicates(g.store.cancelled)
    && (forall a :: a in g.store.buffers ==>
          g.store.buffers[a] !in g.store.cancelled && g.store.buffers[a] !in g.user)
    && (forall i :: 0 <= i < |g.store.cancelled| ==> g.store.cancelled[i] !in g.user)
  }

  ghost predicate GroupInv(g: Group) {
    IdsOk(g) && BuffersOk(g)
  }

  function CancelledSet(st: Storage): set<Buffer> {
    set b | b in st.cancelled
  }

  function All(g: Group): set<Buffer> {
    g.store.buffers.Values + CancelledSet(g.store) + g.user
  }

  // ---- it is kept, and no buffer is lost or made up ----

  lemma SamePlaces(g: Group, t: Group)
    requires PlacesOk(g) && t.store.buffers.Keys == g.store.buffers.Keys
    requires forall p, k :: IsAt(t, p, k) <==> IsAt(g, p, k)
    ensures PlacesOk(t)
  {
    forall k | k in t.store.buffers ensures exists p :: IsAt(t, p, k) {
      var p :| IsAt(g, p, k);
      assert IsAt(t, p, k);
    }
  }

  /** One id goes to another place, or comes into use there. */
  lemma OneMoves(g: Group, t: Group, id: nat, to: Place)
    requires PlacesOk(g) && t.store.buffers.Keys == g.store.buffers.Keys + {id}
    requires forall p, k :: IsAt(t, p, k) <==> if k == id then p == to else IsAt(g, p, k)
    ensures PlacesOk(t)
  {
    forall k | k in t.store.buffers ensures exists p :: IsAt(t, p, k) {
      if k == id {
        assert IsAt(t, to, k);
      } else {
        var p :| IsAt(g, p, k);
        assert IsAt(t, p, k);
      }
    }
  }

  lemma AddedValue(m: map<nat, Buffer>, id: nat, buffer: Buffer)
    requires id !in m
    ensures m[id := buffer].Values == m.Values + {buffer}
    ensures Injective(m) && buffer !in m.Values ==> Injective(m[id := buffer])
  {
    var r := m[id := buffer];
    if Injective(m) && buffer !in m.Values {
      forall a, b | a in r && b in r ensures OwnSlot(r, a, b) {
        if a != id && b != id {
          assert OwnSlot(m, a, b);
        } else {
          assert a in m ==> m[a] in m.Values;
          assert b in m ==> m[b] in m.Values;
        }
      }
    }
    assert r[id] == buffer;
    forall b | b in m.Values ensures b in r.Values {
      var k :| k in m && m[k] == b;
      assert k in r && r[k] == b;
    }
  }

  lemma PutIds(g: Group, t: Group, id: nat)
    requires IdsOk(g) && id !in g.store.buffers && id < ID_LIMIT
    requires t.store.buffers.Keys == g.store.buffers.Keys + {id} && t.providing == g.providing + [id]
    requires t.pool == g.pool && t.selected == g.selected && t.held == g.held
    ensures IdsOk(t)
  {
    forall p, k ensures IsAt(t, p, k) <==> if k == id then p == Providing else IsAt(g, p, k) {
      assert IsAt(g, p, id) ==> false;
    }
    assert IsAt(g, Providing, id) ==> false;
    OneMoves(g, t, id, Providing);
  }

  lemma ProvideKeeps(g: Group, buffer: Buffer, id: nat)
    requires GroupInv(g) && buffer in g.user && id !in g.store.buffers && id < ID_LIMIT
    ensures GroupInv(Provide(g, buffer, id)) && All(Provide(g, buffer, id)) == All(g)
  {
    AddedValue(g.store.buffers, id, buffer);
    PutIds(g, Provide(g, buffer, id), id);
  }

  lemma RecycleKeeps(g: Group, id: nat)
    requires GroupInv(g) && g.store.cancelled != [] && id !in g.store.buffers && id < ID_LIMIT
    ensures GroupInv(Recycle(g, id)) && All(Recycle(g, id)) == All(g)
  {
    var t := Recycle(g, id);
    var buffer := g.store.cancelled[|g.store.cancelled| - 1];
    AddedValue(g.store.buffers, id, buffer);
    assert forall b :: b in g.store.cancelled <==> b in t.store.cancelled || b == buffer;
    PutIds(g, t, id);
  }

  lemma KernelProvidesKeeps(g: Group)
    requires GroupInv(g) && g.providing != []
    ensures GroupInv(KernelProvides(g)) && All(KernelProvides(g)) == All(g)
  {
    var t := KernelProvides(g);
    var id := g.providing[0];
    assert IsAt(g, Providing, id);
    assert forall k :: k in g.providing <==> k == id || k in t.providing;
    forall p, k ensures IsAt(t, p, k) <==> if k == id then p == InPool else IsAt(g, p, k) {
      assert IsAt(g, p, id) ==> p == Providing;
    }
    OneMoves(g, t, id, InPool);
  }

  lemma SelectKeeps(g: Group, reader: Reader, id: nat)
    requires GroupInv(g) && CanSelect(g, reader, id)
    ensures GroupInv(Select(g, reader, id)) && All(Select(g, reader, id)) == All(g)
  {
    var t := Select(g, reader, id);
    assert IsAt(g, InPool, id);
    forall p, k ensures IsAt(t, p, k) <==> if k == id then p == SelectedFor(reader) else IsAt(g, p, k) {
      assert IsAt(g, p, id) ==> p == InPool;
    }
    OneMoves(g, t, id, SelectedFor(reader));
  }

  lemma UnselectKeeps(g: Group, reader: Reader)
    requires GroupInv(g) && reader in g.selected
    ensures GroupInv(Unselect(g, reader)) && All(Unselect(g, reader)) == All(g)
  {
    var t := Unselect(g, reader);
    var id := g.selected[reader];
    assert IsAt(g, SelectedFor(reader), id);
    forall p, k ensures IsAt(t, p, k) <==> if k == id then p == InPool else IsAt(g, p, k) {
      assert IsAt(g, p, id) ==> p == SelectedFor(reader);
    }
    OneMoves(g, t, id, InPool);
  }

  lemma CompleteKeeps(g: Group, reader: Reader, result: RingResult)
    requires GroupInv(g) && CanComplete(g, reader, result)
    ensures GroupInv(Complete(g, reader, result)) && All(Complete(g, reader, result)) == All(g)
  {
    var t := Complete(g, reader, result);
    var n := |g.held[reader]|;
    match result.BufferId() {
      case None =>
        assert t.selected == g.selected;
        forall p, k ensures IsAt(t, p, k) <==> IsAt(g, p, k) {
        }
        SamePlaces(g, t);
      case Some(id) =>
        assert IsAt(g, SelectedFor(reader), id);
        forall p, k ensures IsAt(t, p, k) <==> if k == id then p == HeldFor(reader, n) else IsAt(g, p, k) {
          assert IsAt(g, p, id) ==> p == SelectedFor(reader);
        }
        OneMoves(g, t, id, HeldFor(reader, n));
    }
  }

  /** Taking the oldest completion off a read's list moves every other one up by one. */
  function Behind(p: Place, reader: Reader): Place {
    if p.HeldFor? && p.reader == reader then HeldFor(reader, p.i + 1) else p
  }

  lemma PopHeld(g: Group, t: Group, reader: Reader, p: Place, k: nat)
    requires reader in g.held && g.held[reader] != []
    requires t.held == g.held[reader := g.held[reader][1..]]
    requires t.providing == g.providing && t.pool == g.pool && t.selected == g.selected
    ensures IsAt(t, p, k) <==> IsAt(g, Behind(p, reader), k)
  {
  }

  lemma PopIdsOk(g: Group, t: Group, reader: Reader)
    requires IdsOk(g) && reader in g.held && g.held[reader] != []
    requires t.held == g.held[reader := g.held[reader][1..]]
    requires t.providing == g.providing && t.pool == g.pool && t.selected == g.selected
    requires match g.held[reader][0].BufferId()
             case None => t.store.buffers == g.store.buffers
             case Some(id) => t.store.buffers == g.store.buffers - {id}
    ensures IdsOk(t)
  {
    var first := g.held[reader][0].BufferId();
    var front := HeldFor(reader, 0);
    forall p, k | IsAt(t, p, k) ensures k in t.store.buffers && IsAt(g, Behind(p, reader), k) {
      PopHeld(g, t, reader, p, k);
      assert first == Some(k) ==> IsAt(g, front, k);
    }
    forall p, q, k | IsAt(t, p, k) && IsAt(t, q, k) ensures p == q {
      assert Behind(p, reader) == Behind(q, reader);
    }
    forall k | k in t.store.buffers ensures exists p :: IsAt(t, p, k) {
      var q :| IsAt(g, q, k);
      assert q != front;
      var p := if q.HeldFor? && q.reader == reader then HeldFor(reader, q.i - 1) else q;
      PopHeld(g, t, reader, p, k);
    }
  }

  lemma RemovedValues(m: map<nat, Buffer>, id: nat)
    requires id in m
    requires Injective(m)
    ensures (m - {id}).Values == m.Values - {m[id]}
    ensures m[id] !in (m - {id}).Values && Injective(m - {id})
  {
    var r := m - {id};
    forall a, b | a in r && b in r ensures OwnSlot(r, a, b) {
      assert OwnSlot(m, a, b);
    }
    forall b | b in m.Values - {m[id]} ensures b in r.Values {
      var k :| k in m && m[k] == b;
      assert k in r && r[k] == b;
    }
    forall b | b in r.Values ensures b in m.Values - {m[id]} {
      var k :| k in r && r[k] == b;
      assert OwnSlot(m, k, id);
    }
  }

  /** A completion never names an empty slot: taking its buffer cannot fail. */
  lemma DeliverKeeps(g: Group, reader: Reader)
    requires GroupInv(g) && reader in g.held && g.held[reader] != []
    ensures Deliver(g, reader).Some?
    ensures GroupInv(Deliver(g, reader).value) && All(Deliver(g, reader).value) == All(g)
  {
    var first := g.held[reader][0].BufferId();
    if first.Some? {
      assert IsAt(g, HeldFor(reader, 0), first.value);
      RemovedValues(g.store.buffers, first.value);
      assert g.store.buffers[first.value] in g.store.buffers.Values;
    }
    PopIdsOk(g, Deliver(g, reader).value, reader);
  }

  lemma ConsumeKeeps(g: Group, reader: Reader)
    requires GroupInv(g) && reader in g.held && g.held[reader] != []
    ensures Consume(g, reader).Some?
    ensures GroupInv(Consume(g, reader).value) && All(Consume(g, reader).value) == All(g)
  {
    var first := g.held[reader][0].BufferId();
    if first.Some? {
      assert IsAt(g, HeldFor(reader, 0), first.value);
      RemovedValues(g.store.buffers, first.value);
      assert g.store.buffers[first.value] in g.store.buffers.Values;
      var t := Consume(g, reader).value;
      assert forall b :: b in t.store.cancelled <==> b in g.store.cancelled || b == g.store.buffers[first.value];
    }
    PopIdsOk(g, Consume(g, reader).value, reader);
  }

  lemma ConsumeShape(g: Group, reader: Reader, t: Group)
    requires reader in g.held && g.held[reader] != [] && Consume(g, reader) == Some(t)
    ensures t.held == g.held[reader := g.held[reader][1..]] && t.selected == g.selected
  {
  }

  lemma {:induction false} ConsumeManyShape(g: Group, reader: Reader, count: nat)
    requires reader in g.held && count <= |g.held[reader]| && ConsumeMany(g, reader, count).Some?
    ensures var t := ConsumeMany(g, reader, count).value;
            t.held == g.held[reader := g.held[reader][count..]] && t.selected == g.selected
    decreases count
  {
    if count == 0 {
      assert g.held[reader][0..] == g.held[reader];
    } else {
      ConsumeShape(g, reader, Consume(g, reader).value);
      ConsumeManyShape(Consume(g, reader).value, reader, count - 1);
      assert g.held[reader][1..][count - 1..] == g.held[reader][count..];
    }
  }

  lemma {:induction false} ConsumeManyKeeps(g: Group, reader: Reader, count: nat)
    requires GroupInv(g) && reader in g.held && count <= |g.held[reader]|
    ensures ConsumeMany(g, reader, count).Some?
    ensures GroupInv(ConsumeMany(g, reader, count).value) && All(ConsumeMany(g, reader, count).value) == All(g)
    decreases count
  {
    if count > 0 {
      ConsumeKeeps(g, reader);
      ConsumeShape(g, reader, Consume(g, reader).value);
      ConsumeManyKeeps(Consume(g, reader).value, reader, count - 1);
    }
  }

  lemma StartKeeps(g: Group, reader: Reader)
    requires GroupInv(g) && reader !in g.held
    ensures GroupInv(g.(held := g.held[reader := []]))
  {
    var t := g.(held := g.held[reader := []]);
    forall p, k ensures IsAt(t, p, k) <==> IsAt(g, p, k) {
    }
    SamePlaces(g, t);
  }

  // ---- recycling every cancelled buffer ----

  /** The storage once cancelled buffers, from the last one back, were given the ids in turn. */
  function RecycledStore(st: Storage, ids: seq<nat>): (r: Storage)
    requires |ids| <= |st.cancelled|
    ensures r.cancelled == st.cancelled[..|st.cancelled| - |ids|]
    ensures forall k :: k in r.buffers <==> k in st.buffers || k in ids
  {
    if ids == [] then st
    else
      var front := RecycledStore(st, ids[..|ids| - 1]);
      var last := |front.cancelled| - 1;
      Put(front.(cancelled := front.cancelled[..last]), ids[|ids| - 1], front.cancelled[last])
  }

  /** Each slot picked holds one of the cancelled buffers, the last one first, and every other slot is as before. */
  lemma {:induction false} RecycledAt(st: Storage, ids: seq<nat>)
    requires |ids| <= |st.cancelled| && NoDuplicates(ids)
    requires forall i :: 0 <= i < |ids| ==> ids[i] !in st.buffers
    ensures forall i :: 0 <= i < |ids| ==>
              RecycledStore(st, ids).buffers[ids[i]] == st.cancelled[|st.cancelled| - 1 - i]
    ensures forall k :: k in st.buffers ==> RecycledStore(st, ids).buffers[k] == st.buffers[k]
  {
    if ids != [] {
      var front := ids[..|ids| - 1];
      RecycledAt(st, front);
      assert forall i :: 0 <= i < |front| ==> front[i] == ids[i] != ids[|ids| - 1];
    }
  }

  function Recycled(g: Group, ids: seq<nat>): Group
    requires |ids| <= |g.store.cancelled|
  {
    g.(store := RecycledStore(g.store, ids), providing := g.providing + ids)
  }

  lemma RecycledStep(g: Group, ids: seq<nat>)
    requires 0 < |ids| <= |g.store.cancelled|
    ensures Recycled(g, ids[..|ids| - 1]).store.cancelled != []
    ensures Recycled(g, ids) == Recycle(Recycled(g, ids[..|ids| - 1]), ids[|ids| - 1])
  {
    assert g.providing + ids[..|ids| - 1] + [ids[|ids| - 1]] == g.providing + ids;
  }

  /** So recycling provides every cancelled buffer again, and loses none. */
  lemma {:induction false} RecyclingKeeps(g: Group, ids: seq<nat>)
    requires GroupInv(g) && |ids| <= |g.store.cancelled| && NoDuplicates(ids)
    requires forall i :: 0 <= i < |ids| ==> ids[i] !in g.store.buffers && ids[i] < ID_LIMIT
    ensures GroupInv(Recycled(g, ids)) && All(Recycled(g, ids)) == All(g)
  {
    if ids == [] {
      assert Recycled(g, ids) == g by {
        assert g.providing + ids == g.providing;
      }
    } else {
      RecyclingKeeps(g, ids[..|ids| - 1]);
      RecyclingStep(g, ids);
    }
  }

  lemma RecyclingStep(g: Group, ids: seq<nat>)
    requires 0 < |ids| <= |g.store.cancelled| && NoDuplicates(ids)
    requires forall i :: 0 <= i < |ids| ==> ids[i] !in g.store.buffers && ids[i] < ID_LIMIT
    requires GroupInv(Recycled(g, ids[..|ids| - 1])) && All(Recycled(g, ids[..|ids| - 1])) == All(g)
    ensures GroupInv(Recycled(g, ids)) && All(Recycled(g, ids)) == All(g)
  {
    var last := |ids| - 1;
    RecycledStep(g, ids);
    assert ids[last] !in RecycledStore(g.store, ids[..last]).buffers;
    RecycleKeeps(Recycled(g, ids[..last]), ids[last]);
  }

  // ---- tearing the group down ----

  /** How many buffers a removal asks for: as many as are present, in sixteen bits. */
  function Asked(st: Storage): nat {
    |st.buffers| % ID_LIMIT
  }

  /** How many the kernel removes: no more than its pool has. */
  function Removed(g: Group, asked: nat): nat {
    if asked < |g.pool| then asked else |g.pool|
  }

  /**
    Once nothing is selected for a read or on its way to one, and all provide entries have been
    executed, the pool has exactly the buffers present; so a removal removes them all if and only if
    their number fits sixteen bits.
  */
  lemma TeardownIsExact(g: Group)
    requires GroupInv(g) && g.providing == [] && g.selected == map[]
    requires forall u :: u in g.held ==> g.held[u] == []
    ensures g.pool == g.store.buffers.Keys
    ensures Removed(g, Asked(g.store)) == |g.store.buffers| <==> |g.store.buffers| < ID_LIMIT
  {
    forall id ensures id in g.pool <==> id in g.store.buffers {
      if id in g.store.buffers {
        var p :| IsAt(g, p, id);
        assert p == InPool;
      }
      assert id in g.pool ==> IsAt(g, InPool, id);
    }
    assert g.pool == g.store.buffers.Keys;
    assert |g.store.buffers.Keys| == |g.store.buffers|;
  }
}
