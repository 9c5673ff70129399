/**
  Any number of submissions on one ring, over whole runs: clients poll and drop, the ring waits, and
  the kernel completes what it likes, one completion at a time and at any moment.
*/
module Runtime {
  import opened Common
  import opened CompletionModel
  import opened RingModel
  import opened SubmissionModel

  type Id = nat

  /** Between waits; blocked in the kernel; or with so many completion entries left to handle. */
  datatype Phase = Idle | Blocked(want: int) | Reaping(left: nat)

  /** `owner` and `posted` are history: who a key was given to, and what the kernel completed. */
  datatype System = System(
    ring: State,
    phase: Phase,
    subs: map<Id, Sub>,
    owner: map<Key, Id>,
    posted: map<Id, seq<RingResult>>)

  datatype Step =
    | New(id: Id)
    | First(id: Id, waker: Waker, key: Key)
    | Await(id: Id)
    | Next(id: Id)
    | Forget(id: Id, withEntry: bool)
    | Detach
    | Enter
    | Complete(cqe: Cqe)
    | Return
    | Handle

  const START := System(RingModel.INITIAL, Idle, map[], map[], map[])

  predicate Alive(s: System, id: Id) {
    id in s.subs && !s.subs[id].gone
  }

  function PairOf(s: System, id: Id): Pair
    requires id in s.subs
  {
    Pair(s.subs[id], s.ring)
  }

  /** What the caller of each step controls. Nothing here says that a key is known to the ring. */
  predicate Enabled(s: System, step: Step) {
    match step
    case New(id) => s.phase == Idle && id !in s.subs
    case First(id, _, key) =>
      s.phase == Idle && Alive(s, id) && s.subs[id].stage == Initial && key !in s.ring.entries && key < KEY_LIMIT
    case Await(id) => s.phase == Idle && Alive(s, id) && s.subs[id].stage.Submitted?
    case Next(id) => s.phase == Idle && Alive(s, id) && s.subs[id].stage != Initial
    case Forget(id, _) => s.phase == Idle && Alive(s, id)
    case Detach => s.phase == Idle
    case Enter => s.phase == Idle && s.ring.active + s.ring.detached != 0
    case Complete(cqe) => CanPost(s.ring, cqe)
    case Return => s.phase.Blocked? && |s.ring.cq| >= s.phase.want
    case Handle => s.phase.Reaping? && s.ring.cq != []
  }

  /** Who owns which key once `key` may have been freed. */
  function Owners(owner: map<Key, Id>, key: Key, entries: Entries): map<Key, Id> {
    if key in entries then owner else owner - {key}
  }

  function With(s: System, id: Id, p: Pair): System
    requires id in s.subs
  {
    s.(ring := p.ring, subs := s.subs[id := p.sub],
       owner := match s.subs[id].stage
                case Submitted(key) => Owners(s.owner, key, p.ring.entries)
                case _ => s.owner)
  }

  predicate CanDrop(s: System, id: Id)
    requires id in s.subs
  {
    s.subs[id].stage.Submitted? ==>
      Knows(PairOf(s, id)) && !s.ring.entries[s.subs[id].stage.key].Dropped?
  }

  /** None is a panic inside the runtime. */
  function After(s: System, step: Step): Option<System>
    requires Enabled(s, step)
  {
    match step
    case New(id) => Some(s.(subs := s.subs[id := NEW], posted := s.posted[id := []]))
    case First(id, waker, key) =>
      Some(With(s, id, Start(PairOf(s, id), waker, key)).(owner := s.owner[key := id]))
    case Await(id) => if Knows(PairOf(s, id)) then Some(With(s, id, Poll(PairOf(s, id)))) else None
    case Next(id) => if Knows(PairOf(s, id)) then Some(With(s, id, PollNext(PairOf(s, id)))) else None
    case Forget(id, withEntry) =>
      if CanDrop(s, id) then Some(With(s, id, Drop(PairOf(s, id), withEntry, id))) else None
    case Detach => Some(s.(ring := SubmitDetached(s.ring)))
    case Enter => Some(s.(ring := Flush(s.ring), phase := Blocked(Want(s.ring))))
    case Complete(cqe) =>
      Some(s.(ring := Post(s.ring, cqe),
              posted := if cqe.userData in s.owner && s.owner[cqe.userData] in s.posted
                        then s.posted[s.owner[cqe.userData] := s.posted[s.owner[cqe.userData]] + [cqe.result]]
                        else s.posted))
    case Return =>
      Some(s.(ring := s.ring.(canceled := 0), phase := if s.ring.cq == [] then Idle else Reaping(|s.ring.cq|)))
    case Handle =>
      match Reap(s.ring)
      case None => None
      case Some(t) =>
        Some(s.(ring := t, phase := if s.phase.left <= 1 then Idle else Reaping(s.phase.left - 1),
                owner := Owners(s.owner, s.ring.cq[0].userData, t.entries)))
  }

  // ---- what the effects and the queue hold for one submission ----

  function ConsumedIn(e: Effect, id: Id): seq<RingResult> {
    if e.Consume? && e.cancel == id then [e.result] else []
  }

  function ConsumedBy(effects: seq<Effect>, id: Id): seq<RingResult> {
    if effects == [] then []
    else ConsumedBy(effects[..|effects| - 1], id) + ConsumedIn(effects[|effects| - 1], id)
  }

  function DropsOf(effects: seq<Effect>, id: Id): nat {
    if effects == [] then 0
    else
      DropsOf(effects[..|effects| - 1], id) + if effects[|effects| - 1] == DropRaw(id) then 1 else 0
  }

  function ResultFor(cqe: Cqe, key: Key): seq<RingResult> {
    if cqe.userData == key then [cqe.result] else []
  }

  function QueuedFor(cq: seq<Cqe>, key: Key): seq<RingResult> {
    if cq == [] then []
    else QueuedFor(cq[..|cq| - 1], key) + ResultFor(cq[|cq| - 1], key)
  }

  function StoredIn(entry: Entry): seq<RingResult> {
    if entry.Dropped? then [] else entry.results
  }

  /** The ring still has an entry for this submission. */
  predicate Live(s: System, id: Id) {
    && id in s.subs
    && s.subs[id].stage.Submitted?
    && s.subs[id].stage.key in s.ring.entries
    && s.subs[id].stage.key in s.owner
    && s.owner[s.subs[id].stage.key] == id
  }

  /** Results on their way to the submission: stored in its entry, then waiting to be reaped. */
  function Held(s: System, id: Id): seq<RingResult> {
    if Live(s, id) then
      StoredIn(s.ring.entries[s.subs[id].stage.key]) + QueuedFor(s.ring.cq, s.subs[id].stage.key)
    else []
  }

  lemma {:induction false} ConsumedConcat(a: seq<Effect>, b: seq<Effect>, id: Id)
    ensures ConsumedBy(a + b, id) == ConsumedBy(a, id) + ConsumedBy(b, id)
  {
    if b == [] {
      assert a + b == a;
    } else {
      var front, last := b[..|b| - 1], b[|b| - 1];
      ConsumedConcat(a, front, id);
      ButLast(a, b);
      Regrouped(ConsumedBy(a, id), ConsumedBy(front, id), ConsumedIn(last, id));
    }
  }

  lemma {:induction false} DropsConcat(a: seq<Effect>, b: seq<Effect>, id: Id)
    ensures DropsOf(a + b, id) == DropsOf(a, id) + DropsOf(b, id)
  {
    if b == [] {
      assert a + b == a;
    } else {
      DropsConcat(a, b[..|b| - 1], id);
      ButLast(a, b);
    }
  }

  lemma OneEffect(e: Effect, id: Id)
    ensures ConsumedBy([e], id) == ConsumedIn(e, id)
    ensures DropsOf([e], id) == if e == DropRaw(id) then 1 else 0
  {
    assert [e][..0] == [];
  }

  lemma ConsumedAfter(effects: seq<Effect>, cancel: Cancellation, r: RingResult, id: Id)
    ensures ConsumedBy(effects + [Consume(cancel, r)], id) == ConsumedBy(effects, id) + if id == cancel then [r] else []
    ensures DropsOf(effects + [Consume(cancel, r)], id) == DropsOf(effects, id)
  {
    OneEffect(Consume(cancel, r), id);
    ConsumedConcat(effects, [Consume(cancel, r)], id);
    DropsConcat(effects, [Consume(cancel, r)], id);
  }

  lemma {:induction false} AllConsumed(cancel: Cancellation, results: seq<RingResult>, id: Id)
    ensures ConsumedBy(ConsumeAll(cancel, results), id) == if id == cancel then results else []
  {
    if results != [] {
      var front, last := results[..|results| - 1], results[|results| - 1];
      AllConsumed(cancel, front, id);
      ConsumedAfter(ConsumeAll(cancel, front), cancel, last, id);
      FrontAndLast(results);
    }
  }

  lemma {:induction false} NoneDropped(cancel: Cancellation, results: seq<RingResult>, id: Id)
    ensures DropsOf(ConsumeAll(cancel, results), id) == 0
  {
    if results != [] {
      var front, last := results[..|results| - 1], results[|results| - 1];
      NoneDropped(cancel, front, id);
      ConsumedAfter(ConsumeAll(cancel, front), cancel, last, id);
    }
  }

  lemma DroppedAfter(effects: seq<Effect>, cancel: Cancellation, id: Id)
    ensures ConsumedBy(effects + [DropRaw(cancel)], id) == ConsumedBy(effects, id)
    ensures DropsOf(effects + [DropRaw(cancel)], id) == DropsOf(effects, id) + if id == cancel then 1 else 0
  {
    OneEffect(DropRaw(cancel), id);
    ConsumedConcat(effects, [DropRaw(cancel)], id);
    DropsConcat(effects, [DropRaw(cancel)], id);
  }

  lemma CancelledEffects(effects: seq<Effect>, entry: Entry, cancel: Cancellation, id: Id)
    requires !entry.Dropped?
    ensures ConsumedBy(effects + CancelEffects(entry, cancel), id) ==
            ConsumedBy(effects, id) + if id == cancel then entry.results else []
    ensures DropsOf(effects + CancelEffects(entry, cancel), id) ==
            DropsOf(effects, id) + if id == cancel && entry.Closed? then 1 else 0
  {
    var consumed := ConsumeAll(cancel, entry.results);
    AllConsumed(cancel, entry.results, id);
    NoneDropped(cancel, entry.results, id);
    ConsumedConcat(effects, consumed, id);
    DropsConcat(effects, consumed, id);
    if entry.Open? {
      assert CancelEffects(entry, cancel) == consumed;
    } else {
      DroppedAfter(effects + consumed, cancel, id);
      Regrouped(effects, consumed, [DropRaw(cancel)]);
    }
  }

  lemma NotifiedEffects(effects: seq<Effect>, entry: Entry, result: RingResult, id: Id)
    requires !entry.Closed?
    ensures ConsumedBy(effects + NotifyEffects(entry, result), id) ==
            ConsumedBy(effects, id) + if entry == Dropped(id) then [result] else []
    ensures DropsOf(effects + NotifyEffects(entry, result), id) ==
            DropsOf(effects, id) + if entry == Dropped(id) then 1 else 0
  {
    match entry {
      case Open(waker, _) =>
        OneEffect(Wake(waker), id);
        ConsumedConcat(effects, [Wake(waker)], id);
        DropsConcat(effects, [Wake(waker)], id);
        assert ConsumedBy(effects, id) + [] == ConsumedBy(effects, id);
      case Dropped(cancel) =>
        ConsumedAfter(effects, cancel, result, id);
        DroppedAfter(effects + [Consume(cancel, result)], cancel, id);
        Regrouped(effects, [Consume(cancel, result)], [DropRaw(cancel)]);
        assert ConsumedBy(effects, id) + [] == ConsumedBy(effects, id);
        assert NotifyEffects(entry, result) == [Consume(cancel, result)] + [DropRaw(cancel)];
    }
  }

  lemma {:induction false} QueuedFirst(cq: seq<Cqe>, key: Key)
    requires cq != []
    ensures QueuedFor(cq, key) == ResultFor(cq[0], key) + QueuedFor(cq[1..], key)
  {
    var last := |cq| - 1;
    if last == 0 {
      assert cq[..last] == [] && cq[1..] == [];
    } else {
      QueuedFirst(cq[..last], key);
      FirstAndLast(cq);
      calc {
        QueuedFor(cq, key);
        QueuedFor(cq[..last], key) + ResultFor(cq[last], key);
        ResultFor(cq[0], key) + QueuedFor(cq[..last][1..], key) + ResultFor(cq[last], key);
        ResultFor(cq[0], key) + (QueuedFor(cq[..last][1..], key) + ResultFor(cq[last], key));
        ResultFor(cq[0], key) + QueuedFor(cq[1..], key);
      }
    }
  }

  lemma OtherQueued(cq: seq<Cqe>, key: Key)
    requires cq != [] && cq[0].userData != key
    ensures QueuedFor(cq[1..], key) == QueuedFor(cq, key)
  {
    QueuedFirst(cq, key);
    assert [] + QueuedFor(cq[1..], key) == QueuedFor(cq[1..], key);
  }

  lemma {:induction false} QueuedAbsent(cq: seq<Cqe>, key: Key)
    requires forall i :: 0 <= i < |cq| ==> cq[i].userData != key
    ensures QueuedFor(cq, key) == []
  {
    if cq != [] {
      QueuedAbsent(cq[..|cq| - 1], key);
    }
  }

  // ---- the invariant ----

  /**
    One submission: the results posted for it are those it was given, then those its cancellation
    consumed, then those still held, in order; its operation and its cancellation are used up once.
  */
  ghost predicate SubOk(sub: Sub, live: bool, held: seq<RingResult>, posted: seq<RingResult>,
                        consumed: seq<RingResult>, drops: nat)
  {
    && posted == sub.got + consumed + held
    && sub.taken == (if sub.gone || sub.stage.Completed? then 1 else 0)
    && drops == (if sub.gone && sub.stage.Submitted? && !live then 1 else 0)
    && (!sub.gone ==> consumed == [])
    && (!sub.gone && sub.stage.Submitted? ==> live)
    && (live ==> sub.stage.Submitted? && AllMore(sub.got + consumed))
    && (!live ==> held == [])
    && (sub.stage.Initial? ==> posted == [])
    && (sub.stage.Completed? ==> consumed == [])
    && (!live && !sub.stage.Initial? ==> EndsFinal(posted))
  }

  ghost predicate IdOk(s: System, id: Id)
    requires id in s.subs && id in s.posted
  {
    SubOk(s.subs[id], Live(s, id), Held(s, id), s.posted[id],
          ConsumedBy(s.ring.effects, id), DropsOf(s.ring.effects, id))
  }

  /** Every key is owned by a submission in the matching stage. */
  ghost predicate KeyOk(s: System, key: Key)
    requires key in s.ring.entries
  {
    && key in s.owner
    && s.owner[key] in s.subs
    && s.subs[s.owner[key]].stage == Submitted(key)
    && (s.ring.entries[key].Dropped? <==> s.subs[s.owner[key]].gone)
    && (s.ring.entries[key].Dropped? ==> s.ring.entries[key].cancel == s.owner[key])
  }

  ghost predicate PhaseOk(s: System) {
    match s.phase
    case Idle => IdleInv(s.ring)
    case Blocked(want) => s.ring.sq == [] && 1 <= want <= s.ring.active + s.ring.detached
    case Reaping(left) => s.ring.sq == [] && s.ring.canceled == 0 && 1 <= left <= |s.ring.cq|
  }

  /** What links submissions, keys and history to the ring. */
  ghost predicate ClientInv(s: System) {
    && s.posted.Keys == s.subs.Keys
    && s.owner.Keys == s.ring.entries.Keys
    && (forall key :: key in s.ring.entries ==> KeyOk(s, key))
    && (forall id :: id in s.subs ==> IdOk(s, id))
    && (forall id: Id :: id !in s.subs ==> ConsumedBy(s.ring.effects, id) == [] && DropsOf(s.ring.effects, id) == 0)
  }

  ghost predicate SysInv(s: System) {
    Inv(s.ring) && PhaseOk(s) && ClientInv(s)
  }

  /** The two things the runtime relies on and does not enforce. */
  predicate Hazardous(s: System, step: Step)
    requires Enabled(s, step)
  {
    match step
    case Handle => Hazard(s.ring)
    case Await(id) =>
      Knows(PairOf(s, id)) &&
      var r := NextResult(s.ring.entries[s.subs[id].stage.key]);
      r.Some? && r.value.HasMore()
    case _ => false
  }

  // ---- a step changes one submission and one key at most ----

  /** Nothing a submission is judged by differs between the two states. */
  ghost predicate SameFor(s: System, t: System, id: Id) {
    && id in s.subs && id in t.subs && s.subs[id] == t.subs[id]
    && id in s.posted && id in t.posted && s.posted[id] == t.posted[id]
    && Live(s, id) == Live(t, id)
    && Held(s, id) == Held(t, id)
    && ConsumedBy(s.ring.effects, id) == ConsumedBy(t.ring.effects, id)
    && DropsOf(s.ring.effects, id) == DropsOf(t.ring.effects, id)
  }

  ghost predicate SameKey(s: System, t: System, key: Key) {
    && (key in s.ring.entries <==> key in t.ring.entries)
    && (key in s.ring.entries ==> s.ring.entries[key] == t.ring.entries[key])
    && (key in s.owner <==> key in t.owner)
    && (key in s.owner ==> s.owner[key] == t.owner[key])
    && QueuedFor(s.ring.cq, key) == QueuedFor(t.ring.cq, key)
  }

  ghost predicate SameEffects(s: System, t: System, id: Id) {
    && ConsumedBy(s.ring.effects, id) == ConsumedBy(t.ring.effects, id)
    && DropsOf(s.ring.effects, id) == DropsOf(t.ring.effects, id)
  }

  /** Only submission `id` and the key it owns, or is about to own, are touched. */
  ghost predicate OnlyAt(s: System, t: System, id: Id, key: Key) {
    && t.subs.Keys == s.subs.Keys && t.posted.Keys == s.posted.Keys
    && t.owner.Keys == t.ring.entries.Keys
    && id in s.subs
    && (key in s.owner ==> s.owner[key] == id)
    && (key in t.owner ==> t.owner[key] == id)
    && (s.subs[id].stage.Submitted? ==> s.subs[id].stage.key == key)
    && (forall i :: i in s.subs && i != id ==> t.subs[i] == s.subs[i])
    && (forall i :: i in s.posted && i != id ==> t.posted[i] == s.posted[i])
    && (forall k: Key :: k != key ==> SameKey(s, t, k))
    && (forall i: Id :: i != id ==> SameEffects(s, t, i))
  }

  lemma OtherIsSame(s: System, t: System, id: Id, key: Key, other: Id)
    requires ClientInv(s) && OnlyAt(s, t, id, key) && other in s.subs && other != id
    ensures SameFor(s, t, other)
  {
    assert SameEffects(s, t, other);
    if s.subs[other].stage.Submitted? && s.subs[other].stage.key != key {
      assert SameKey(s, t, s.subs[other].stage.key);
    }
  }

  lemma OtherKeyIsOk(s: System, t: System, id: Id, key: Key, k: Key)
    requires ClientInv(s) && OnlyAt(s, t, id, key) && k in t.ring.entries && k != key
    ensures KeyOk(t, k)
  {
    assert SameKey(s, t, k);
    assert KeyOk(s, k);
  }

  /** So what links the clients to the ring is kept if it is kept there. */
  lemma LocalStep(s: System, t: System, id: Id, key: Key)
    requires ClientInv(s) && OnlyAt(s, t, id, key)
    requires key in t.ring.entries ==> KeyOk(t, key)
    requires id in t.subs && id in t.posted && IdOk(t, id)
    ensures ClientInv(t)
  {
    forall i | i in t.subs ensures IdOk(t, i) {
      if i != id {
        OtherIsSame(s, t, id, key, i);
        assert IdOk(s, i);
      }
    }
    forall k | k in t.ring.entries ensures KeyOk(t, k) {
      if k != key { OtherKeyIsOk(s, t, id, key, k); }
    }
    forall i: Id | i !in t.subs
      ensures ConsumedBy(t.ring.effects, i) == [] && DropsOf(t.ring.effects, i) == 0
    {
      assert SameEffects(s, t, i);
    }
  }

  /** A step that touches no submission and no key. */
  lemma QuietStep(s: System, t: System)
    requires ClientInv(s)
    requires t.subs == s.subs && t.owner == s.owner && t.posted == s.posted
    requires t.ring.entries == s.ring.entries && t.ring.effects == s.ring.effects
    requires forall k: Key :: k in s.ring.entries ==> QueuedFor(t.ring.cq, k) == QueuedFor(s.ring.cq, k)
    ensures ClientInv(t)
  {
    forall i | i in t.subs ensures IdOk(t, i) {
      assert IdOk(s, i);
    }
    forall k | k in t.ring.entries ensures KeyOk(t, k) {
      assert KeyOk(s, k);
    }
  }

  // ---- every step keeps the links ----

  lemma NewLinks(s: System, id: Id)
    requires ClientInv(s) && Enabled(s, New(id))
    ensures ClientInv(After(s, New(id)).value)
  {
    var t := After(s, New(id)).value;
    forall i | i in t.subs ensures IdOk(t, i) {
      NewId(s, id, t, i);
    }
    forall key | key in t.ring.entries ensures KeyOk(t, key) {
      assert KeyOk(s, key);
    }
  }

  lemma NewId(s: System, id: Id, t: System, i: Id)
    requires ClientInv(s) && Enabled(s, New(id)) && After(s, New(id)) == Some(t) && i in t.subs
    ensures IdOk(t, i)
  {
    if i != id {
      assert IdOk(s, i);
      assert SameFor(s, t, i);
    }
  }

  lemma FirstIsLocal(s: System, id: Id, waker: Waker, key: Key, t: System)
    requires s.owner.Keys == s.ring.entries.Keys && s.posted.Keys == s.subs.Keys
    requires Enabled(s, First(id, waker, key)) && After(s, First(id, waker, key)) == Some(t)
    ensures OnlyAt(s, t, id, key)
  {
    forall k: Key | k != key ensures SameKey(s, t, k) {
    }
  }

  lemma FirstId(s: System, id: Id, waker: Waker, key: Key, t: System)
    requires Enabled(s, First(id, waker, key)) && After(s, First(id, waker, key)) == Some(t)
    requires id in s.posted && IdOk(s, id) && QueuedFor(s.ring.cq, key) == []
    ensures key in t.ring.entries && KeyOk(t, key)
    ensures id in t.subs && id in t.posted && IdOk(t, id)
  {
    assert Live(t, id) && Held(t, id) == [];
    assert s.subs[id].got == [];
  }

  lemma FirstLinks(s: System, id: Id, waker: Waker, key: Key)
    requires ClientInv(s) && Enabled(s, First(id, waker, key))
    requires QueuedFor(s.ring.cq, key) == []
    ensures ClientInv(After(s, First(id, waker, key)).value)
  {
    var t := After(s, First(id, waker, key)).value;
    assert IdOk(s, id);
    FirstIsLocal(s, id, waker, key, t);
    FirstId(s, id, waker, key, t);
    LocalStep(s, t, id, key);
  }

  /** A live submission's results: taking the oldest one, or none. */
  lemma TakeHeld(s: System, id: Id)
    requires ClientInv(s) && Alive(s, id) && s.subs[id].stage.Submitted?
    ensures Live(s, id) && KeyOk(s, s.subs[id].stage.key)
    ensures Knows(PairOf(s, id)) && !s.ring.entries[s.subs[id].stage.key].Dropped?
    ensures ConsumedBy(s.ring.effects, id) == []
  {
    assert IdOk(s, id) && KeyOk(s, s.subs[id].stage.key);
  }

  /** What the ring guarantees about the results of one entry. */
  ghost predicate EntryReady(entry: Entry, queued: seq<RingResult>) {
    EntryShape(entry) && (entry.Closed? ==> queued == [])
  }

  lemma TakeSplits(entry: Entry, queued: seq<RingResult>)
    requires EntryReady(entry, queued) && !entry.Dropped?
    ensures match NextResult(entry)
            case None => TakeFate(entry) == Keep(entry)
            case Some(r) =>
              if r.HasMore() then
                TakeFate(entry).Keep? && !TakeFate(entry).entry.Dropped? &&
                entry.results == [r] + StoredIn(TakeFate(entry).entry)
              else TakeFate(entry).Remove? && entry.results + queued == [r]
  {
    if entry.Closed? {
      var front := entry.results[..|entry.results| - 1];
      assert |entry.results| > 1 ==> entry.results[0] == front[0];
    }
  }

  lemma SubTakes(sub: Sub, r: RingResult, held: seq<RingResult>, rest: seq<RingResult>,
                 posted: seq<RingResult>, drops: nat)
    requires SubOk(sub, true, held, posted, [], drops) && !sub.gone
    requires held == [r] + rest && r.HasMore()
    ensures SubOk(AfterPollNext(sub, Some(r)), true, rest, posted, [], drops)
  {
    assert sub.got + [] == sub.got && sub.got + [r] + [] == sub.got + [r];
    assert sub.got + ([r] + rest) == (sub.got + [r]) + rest;
  }

  lemma SubTakesLast(sub: Sub, r: RingResult, posted: seq<RingResult>, drops: nat)
    requires SubOk(sub, true, [r], posted, [], drops) && !sub.gone
    requires !r.HasMore()
    ensures SubOk(AfterPollNext(sub, Some(r)), false, [], posted, [], drops)
  {
    assert sub.got + [] == sub.got && sub.got + [r] + [] == sub.got + [r];
    assert (sub.got + [r])[..|sub.got|] == sub.got;
  }

  lemma PolledIsLocal(s: System, id: Id, sub: Sub, t: System)
    requires s.owner.Keys == s.ring.entries.Keys && s.posted.Keys == s.subs.Keys && Live(s, id)
    requires t == With(s, id, Pair(sub, CheckResult(s.ring, s.subs[id].stage.key)))
    ensures OnlyAt(s, t, id, s.subs[id].stage.key)
  {
    var key := s.subs[id].stage.key;
    forall k: Key | k != key ensures SameKey(s, t, k) {
    }
  }

  lemma PolledKey(s: System, id: Id, t: System)
    requires Alive(s, id) && Live(s, id) && KeyOk(s, s.subs[id].stage.key)
    requires !s.ring.entries[s.subs[id].stage.key].Dropped?
    requires t == With(s, id, Pair(AfterPollNext(s.subs[id], NextResult(s.ring.entries[s.subs[id].stage.key])),
                                   CheckResult(s.ring, s.subs[id].stage.key)))
    requires EntryReady(s.ring.entries[s.subs[id].stage.key], QueuedFor(s.ring.cq, s.subs[id].stage.key))
    ensures s.subs[id].stage.key in t.ring.entries ==> KeyOk(t, s.subs[id].stage.key)
  {
    var key := s.subs[id].stage.key;
    TakeSplits(s.ring.entries[key], QueuedFor(s.ring.cq, key));
  }

  /** Polling as a stream; a future that sees no result, or the last one, does the same. */
  lemma PolledLinks(s: System, id: Id, sub: Sub, t: System)
    requires ClientInv(s) && Alive(s, id) && s.subs[id].stage.Submitted? && Knows(PairOf(s, id))
    requires EntryReady(s.ring.entries[s.subs[id].stage.key], QueuedFor(s.ring.cq, s.subs[id].stage.key))
    requires sub == AfterPollNext(s.subs[id], NextResult(s.ring.entries[s.subs[id].stage.key]))
    requires t == With(s, id, Pair(sub, CheckResult(s.ring, s.subs[id].stage.key)))
    ensures ClientInv(t)
  {
    TakeHeld(s, id);
    assert IdOk(s, id);
    PolledIsLocal(s, id, sub, t);
    PolledId(s, id, sub, t);
    PolledKey(s, id, t);
    LocalStep(s, t, id, s.subs[id].stage.key);
  }

  /** The parts of a system that concern submissions, once one of them has been polled. */
  ghost predicate PolledTo(s: System, id: Id, sub: Sub, t: System)
    requires Live(s, id)
  {
    var key := s.subs[id].stage.key;
    && t.ring.entries == Settle(s.ring.entries, key, TakeFate(s.ring.entries[key]))
    && t.ring.effects == s.ring.effects && t.ring.cq == s.ring.cq
    && t.subs == s.subs[id := sub] && t.posted == s.posted && t.owner == Owners(s.owner, key, t.ring.entries)
  }

  lemma PolledEmpty(s: System, id: Id, t: System)
    requires Live(s, id) && id in s.posted && IdOk(s, id) && PolledTo(s, id, s.subs[id], t)
    requires TakeFate(s.ring.entries[s.subs[id].stage.key]) == Keep(s.ring.entries[s.subs[id].stage.key])
    ensures IdOk(t, id)
  {
    assert t.subs == s.subs && t.ring.entries == s.ring.entries && t.owner == s.owner;
  }

  lemma PolledMore(s: System, id: Id, r: RingResult, entry: Entry, t: System)
    requires Alive(s, id) && Live(s, id) && id in s.posted && IdOk(s, id) && r.HasMore()
    requires PolledTo(s, id, AfterPollNext(s.subs[id], Some(r)), t)
    requires TakeFate(s.ring.entries[s.subs[id].stage.key]) == Keep(entry) && !entry.Dropped?
    requires StoredIn(s.ring.entries[s.subs[id].stage.key]) == [r] + StoredIn(entry)
    ensures IdOk(t, id)
  {
    var queued := QueuedFor(s.ring.cq, s.subs[id].stage.key);
    var rest := StoredIn(entry);
    assert Live(t, id) && Held(t, id) == rest + queued;
    Regrouped([r], rest, queued);
    SubTakes(s.subs[id], r, Held(s, id), rest + queued, s.posted[id], DropsOf(s.ring.effects, id));
  }

  lemma PolledLast(s: System, id: Id, r: RingResult, t: System)
    requires Alive(s, id) && Live(s, id) && id in s.posted && IdOk(s, id) && !r.HasMore()
    requires PolledTo(s, id, AfterPollNext(s.subs[id], Some(r)), t)
    requires TakeFate(s.ring.entries[s.subs[id].stage.key]).Remove? && Held(s, id) == [r]
    ensures IdOk(t, id)
  {
    assert !Live(t, id) && Held(t, id) == [];
    SubTakesLast(s.subs[id], r, s.posted[id], DropsOf(s.ring.effects, id));
  }

  lemma PolledId(s: System, id: Id, sub: Sub, t: System)
    requires Alive(s, id) && Live(s, id) && id in s.posted && IdOk(s, id)
    requires !s.ring.entries[s.subs[id].stage.key].Dropped?
    requires EntryReady(s.ring.entries[s.subs[id].stage.key], QueuedFor(s.ring.cq, s.subs[id].stage.key))
    requires sub == AfterPollNext(s.subs[id], NextResult(s.ring.entries[s.subs[id].stage.key]))
    requires PolledTo(s, id, sub, t)
    ensures IdOk(t, id)
  {
    var entry := s.ring.entries[s.subs[id].stage.key];
    TakeSplits(entry, QueuedFor(s.ring.cq, s.subs[id].stage.key));
    match NextResult(entry) {
      case None => PolledEmpty(s, id, t);
      case Some(r) =>
        if r.HasMore() {
          PolledMore(s, id, r, TakeFate(entry).entry, t);
        } else {
          PolledLast(s, id, r, t);
        }
    }
  }

  /** Dropping a submission that is not on the ring. */
  lemma ForgetOffRing(s: System, id: Id, withEntry: bool)
    requires ClientInv(s) && Enabled(s, Forget(id, withEntry)) && !s.subs[id].stage.Submitted?
    ensures ClientInv(After(s, Forget(id, withEntry)).value)
  {
    var t := After(s, Forget(id, withEntry)).value;
    forall k | k in t.ring.entries ensures KeyOk(t, k) {
      KeyOffRing(s, id, withEntry, t, k);
    }
    forall i | i in s.subs ensures i in t.posted && IdOk(t, i) {
      assert IdOk(s, i);
      if i == id {
        GoneOffRing(s, id, withEntry, t);
      } else {
        OtherOffRing(s, id, withEntry, t, i);
      }
    }
  }

  lemma OtherOffRing(s: System, id: Id, withEntry: bool, t: System, other: Id)
    requires Enabled(s, Forget(id, withEntry)) && !s.subs[id].stage.Submitted?
    requires After(s, Forget(id, withEntry)) == Some(t)
    requires other in s.subs && other in s.posted && IdOk(s, other) && other != id
    ensures other in t.subs && other in t.posted && IdOk(t, other)
  {
    assert SameFor(s, t, other);
    SameIsOk(s, t, other);
  }

  lemma SameIsOk(s: System, t: System, id: Id)
    requires SameFor(s, t, id) && IdOk(s, id)
    ensures IdOk(t, id)
  {
  }

  lemma KeyOffRing(s: System, id: Id, withEntry: bool, t: System, key: Key)
    requires Enabled(s, Forget(id, withEntry)) && !s.subs[id].stage.Submitted?
    requires After(s, Forget(id, withEntry)) == Some(t)
    requires key in s.ring.entries && KeyOk(s, key)
    ensures key in t.ring.entries && KeyOk(t, key)
  {
  }

  lemma GoneOffRing(s: System, id: Id, withEntry: bool, t: System)
    requires Enabled(s, Forget(id, withEntry)) && !s.subs[id].stage.Submitted?
    requires After(s, Forget(id, withEntry)) == Some(t)
    requires id in s.posted && IdOk(s, id)
    ensures id in t.subs && id in t.posted && IdOk(t, id)
  {
  }

  lemma SubGivesUp(sub: Sub, results: seq<RingResult>, queued: seq<RingResult>, posted: seq<RingResult>)
    requires SubOk(sub, true, results + queued, posted, [], 0) && !sub.gone
    requires AllMore(results)
    ensures SubOk(sub.(taken := sub.taken + 1, gone := true), true, queued, posted, results, 0)
  {
    assert sub.got + [] == sub.got;
    assert sub.got + (results + queued) == sub.got + results + queued;
  }

  lemma SubGivesUpClosed(sub: Sub, results: seq<RingResult>, posted: seq<RingResult>)
    requires SubOk(sub, true, results, posted, [], 0) && !sub.gone
    requires EndsFinal(results)
    ensures SubOk(sub.(taken := sub.taken + 1, gone := true), false, [], posted, results, 1)
  {
    assert sub.got + [] == sub.got;
    var last := |results| - 1;
    assert (sub.got + results)[..|sub.got + results| - 1] == sub.got + results[..last];
    assert sub.got + results + [] == sub.got + results;
  }

  /** The parts of a ring that concern submissions, once one of them has been given up. */
  ghost predicate GivenUp(s: State, t: State, key: Key, id: Id)
    requires key in s.entries && !s.entries[key].Dropped?
  {
    && t.entries == (if s.entries[key].Open? then s.entries[key := Dropped(id)] else s.entries - {key})
    && t.effects == s.effects + CancelEffects(s.entries[key], id)
    && t.cq == s.cq
  }

  /** The parts of a system that concern submissions, once one of them has been dropped. */
  ghost predicate DroppedTo(s: System, id: Id, t: System)
    requires Live(s, id) && !s.ring.entries[s.subs[id].stage.key].Dropped?
  {
    && GivenUp(s.ring, t.ring, s.subs[id].stage.key, id)
    && t.subs == s.subs[id := s.subs[id].(taken := s.subs[id].taken + 1, gone := true)]
    && t.posted == s.posted && t.owner == Owners(s.owner, s.subs[id].stage.key, t.ring.entries)
  }

  /** What a dropped submission has had consumed and still holds. */
  lemma GivenUpHolds(s: System, id: Id, t: System)
    requires Alive(s, id) && Live(s, id) && KeyOk(s, s.subs[id].stage.key)
    requires !s.ring.entries[s.subs[id].stage.key].Dropped? && DroppedTo(s, id, t)
    requires ConsumedBy(s.ring.effects, id) == [] && DropsOf(s.ring.effects, id) == 0
    ensures var entry := s.ring.entries[s.subs[id].stage.key];
            && ConsumedBy(t.ring.effects, id) == entry.results
            && DropsOf(t.ring.effects, id) == (if entry.Closed? then 1 else 0)
            && Live(t, id) == entry.Open?
            && Held(t, id) == if entry.Open? then QueuedFor(s.ring.cq, s.subs[id].stage.key) else []
  {
    CancelledEffects(s.ring.effects, s.ring.entries[s.subs[id].stage.key], id, id);
  }

  lemma ForgetOpen(s: System, id: Id, t: System)
    requires Alive(s, id) && Live(s, id) && id in s.posted && IdOk(s, id) && KeyOk(s, s.subs[id].stage.key)
    requires s.ring.entries[s.subs[id].stage.key].Open? && EntryShape(s.ring.entries[s.subs[id].stage.key])
    requires DroppedTo(s, id, t)
    ensures IdOk(t, id) && s.subs[id].stage.key in t.ring.entries && KeyOk(t, s.subs[id].stage.key)
  {
    var key := s.subs[id].stage.key;
    GivenUpHolds(s, id, t);
    SubGivesUp(s.subs[id], s.ring.entries[key].results, QueuedFor(s.ring.cq, key), s.posted[id]);
  }

  lemma ForgetClosed(s: System, id: Id, t: System)
    requires Alive(s, id) && Live(s, id) && id in s.posted && IdOk(s, id) && KeyOk(s, s.subs[id].stage.key)
    requires s.ring.entries[s.subs[id].stage.key].Closed? && EntryShape(s.ring.entries[s.subs[id].stage.key])
    requires QueuedFor(s.ring.cq, s.subs[id].stage.key) == [] && DroppedTo(s, id, t)
    ensures IdOk(t, id) && s.subs[id].stage.key !in t.ring.entries
  {
    var results := s.ring.entries[s.subs[id].stage.key].results;
    GivenUpHolds(s, id, t);
    assert Held(s, id) == results by {
      assert results + [] == results;
    }
    SubGivesUpClosed(s.subs[id], results, s.posted[id]);
  }

  lemma ForgetId(s: System, id: Id, t: System)
    requires Alive(s, id) && Live(s, id) && id in s.posted && IdOk(s, id) && KeyOk(s, s.subs[id].stage.key)
    requires !s.ring.entries[s.subs[id].stage.key].Dropped?
    requires EntryReady(s.ring.entries[s.subs[id].stage.key], QueuedFor(s.ring.cq, s.subs[id].stage.key))
    requires DroppedTo(s, id, t)
    ensures IdOk(t, id)
    ensures s.subs[id].stage.key in t.ring.entries ==> KeyOk(t, s.subs[id].stage.key)
  {
    if s.ring.entries[s.subs[id].stage.key].Open? {
      ForgetOpen(s, id, t);
    } else {
      ForgetClosed(s, id, t);
    }
  }

  lemma ForgetIsLocal(s: System, id: Id, t: System)
    requires s.owner.Keys == s.ring.entries.Keys && Alive(s, id) && Live(s, id)
    requires !s.ring.entries[s.subs[id].stage.key].Dropped?
    requires GivenUp(s.ring, t.ring, s.subs[id].stage.key, id)
    requires t.subs == s.subs[id := s.subs[id].(taken := s.subs[id].taken + 1, gone := true)]
    requires t.posted == s.posted && t.owner == Owners(s.owner, s.subs[id].stage.key, t.ring.entries)
    ensures OnlyAt(s, t, id, s.subs[id].stage.key)
  {
    var key := s.subs[id].stage.key;
    forall k: Key | k != key ensures SameKey(s, t, k) {
    }
    forall i: Id | i != id ensures SameEffects(s, t, i) {
      CancelledEffects(s.ring.effects, s.ring.entries[key], id, i);
      assert ConsumedBy(s.ring.effects, i) + [] == ConsumedBy(s.ring.effects, i);
    }
  }

  lemma ForgetGivesUp(s: System, id: Id, withEntry: bool, t: System)
    requires Enabled(s, Forget(id, withEntry)) && s.subs[id].stage.Submitted? && CanDrop(s, id)
    requires After(s, Forget(id, withEntry)) == Some(t)
    ensures GivenUp(s.ring, t.ring, s.subs[id].stage.key, id)
    ensures t.subs == s.subs[id := s.subs[id].(taken := s.subs[id].taken + 1, gone := true)]
    ensures t.posted == s.posted && t.owner == Owners(s.owner, s.subs[id].stage.key, t.ring.entries)
  {
  }

  lemma ForgetLinks(s: System, id: Id, withEntry: bool)
    requires ClientInv(s) && Enabled(s, Forget(id, withEntry)) && s.subs[id].stage.Submitted?
    requires CanDrop(s, id)
    requires EntryReady(s.ring.entries[s.subs[id].stage.key], QueuedFor(s.ring.cq, s.subs[id].stage.key))
    ensures ClientInv(After(s, Forget(id, withEntry)).value)
  {
    var t := After(s, Forget(id, withEntry)).value;
    TakeHeld(s, id);
    assert IdOk(s, id);
    ForgetGivesUp(s, id, withEntry, t);
    ForgetId(s, id, t);
    ForgetIsLocal(s, id, t);
    LocalStep(s, t, id, s.subs[id].stage.key);
  }

  lemma SubConsumesLast(sub: Sub, r: RingResult, posted: seq<RingResult>, consumed: seq<RingResult>)
    requires SubOk(sub, true, [r], posted, consumed, 0) && sub.gone
    requires !r.HasMore()
    ensures SubOk(sub, false, [], posted, consumed + [r], 1)
  {
    var all := sub.got + consumed;
    assert sub.got + (consumed + [r]) + [] == all + [r];
    assert (all + [r])[..|all|] == all;
  }

  /** The parts of a system that concern submissions, once a completion of `key` has been handled. */
  ghost predicate Handled(s: System, key: Key, r: RingResult, t: System)
    requires key in s.ring.entries && !s.ring.entries[key].Closed?
  {
    && t.ring.entries == Settle(s.ring.entries, key, NotifyFate(s.ring.entries[key], r))
    && t.ring.effects == s.ring.effects + NotifyEffects(s.ring.entries[key], r)
    && QueuedFor(s.ring.cq, key) == [r] + QueuedFor(t.ring.cq, key)
    && t.subs == s.subs && t.posted == s.posted && t.owner == Owners(s.owner, key, t.ring.entries)
  }

  lemma HandleOpen(s: System, id: Id, key: Key, r: RingResult, t: System)
    requires Live(s, id) && s.subs[id].stage.key == key && s.ring.entries[key].Open?
    requires id in s.posted && IdOk(s, id) && KeyOk(s, key) && Handled(s, key, r, t)
    ensures key in t.ring.entries && KeyOk(t, key) && IdOk(t, id)
  {
    NotifiedEffects(s.ring.effects, s.ring.entries[key], r, id);
    var consumed := ConsumedBy(s.ring.effects, id);
    assert consumed + [] == consumed;
    var results, rest := s.ring.entries[key].results, QueuedFor(t.ring.cq, key);
    assert results + [r] + rest == results + ([r] + rest);
    assert Live(t, id) && Held(t, id) == Held(s, id);
  }

  lemma HandleDropped(s: System, id: Id, key: Key, r: RingResult, t: System)
    requires Live(s, id) && s.subs[id].stage.key == key && s.ring.entries[key] == Dropped(id)
    requires id in s.posted && IdOk(s, id) && s.subs[id].gone && Handled(s, key, r, t)
    requires !r.HasMore() && QueuedFor(t.ring.cq, key) == []
    ensures key !in t.ring.entries && IdOk(t, id)
  {
    NotifiedEffects(s.ring.effects, s.ring.entries[key], r, id);
    assert [] + ([r] + []) == [r];
    assert Held(s, id) == [r] && !Live(t, id) && Held(t, id) == [];
    SubConsumesLast(s.subs[id], r, s.posted[id], ConsumedBy(s.ring.effects, id));
  }

  lemma HandleShape(s: System, key: Key, t: System)
    requires s.ring.cq != [] && s.ring.cq[0].userData == key && key < KEY_LIMIT
    requires key in s.ring.entries && !s.ring.entries[key].Closed?
    requires Reap(s.ring).Some? && t.ring == Reap(s.ring).value
    requires t.subs == s.subs && t.posted == s.posted && t.owner == Owners(s.owner, key, t.ring.entries)
    ensures Handled(s, key, s.ring.cq[0].result, t) && t.ring.cq == s.ring.cq[1..]
  {
    QueuedFirst(s.ring.cq, key);
  }

  /** Reaping an entry for a key moves its result from the queue to the entry or the cancellation. */
  lemma HandleId(s: System, id: Id, key: Key, r: RingResult, t: System)
    requires Live(s, id) && id in s.posted && IdOk(s, id) && s.subs[id].stage.key == key && KeyOk(s, key)
    requires !s.ring.entries[key].Closed? && Handled(s, key, r, t)
    requires s.ring.entries[key].Dropped? ==> !r.HasMore()
    requires !r.HasMore() ==> QueuedFor(t.ring.cq, key) == []
    ensures IdOk(t, id)
    ensures key in t.ring.entries ==> KeyOk(t, key)
  {
    if s.ring.entries[key].Open? {
      HandleOpen(s, id, key, r, t);
    } else {
      HandleDropped(s, id, key, r, t);
    }
  }

  predicate HandlesKey(s: System) {
    && s.phase.Reaping? && s.ring.cq != []
    && s.ring.cq[0].userData < KEY_LIMIT && s.ring.cq[0].userData in s.ring.entries
    && !s.ring.entries[s.ring.cq[0].userData].Closed? && !Hazard(s.ring)
  }

  lemma HandleKeepsOther(s: System, t: System, other: Key)
    requires HandlesKey(s) && After(s, Handle) == Some(t) && other != s.ring.cq[0].userData
    ensures SameKey(s, t, other)
  {
    OtherQueued(s.ring.cq, other);
  }

  lemma HandleAffectsOwner(s: System, t: System, other: Id)
    requires HandlesKey(s) && After(s, Handle) == Some(t) && KeyOk(s, s.ring.cq[0].userData)
    requires other != s.owner[s.ring.cq[0].userData]
    ensures SameEffects(s, t, other)
  {
    NotifiedEffects(s.ring.effects, s.ring.entries[s.ring.cq[0].userData], s.ring.cq[0].result, other);
    assert ConsumedBy(s.ring.effects, other) + [] == ConsumedBy(s.ring.effects, other);
  }

  lemma HandleIsLocal(s: System)
    requires s.owner.Keys == s.ring.entries.Keys && HandlesKey(s) && KeyOk(s, s.ring.cq[0].userData)
    ensures After(s, Handle).Some?
    ensures var key := s.ring.cq[0].userData;
            OnlyAt(s, After(s, Handle).value, s.owner[key], key)
  {
    var t := After(s, Handle).value;
    var key := s.ring.cq[0].userData;
    assert t.owner.Keys == t.ring.entries.Keys;
    forall k: Key | k != key ensures SameKey(s, t, k) {
      HandleKeepsOther(s, t, k);
    }
    forall i: Id | i != s.owner[key] ensures SameEffects(s, t, i) {
      HandleAffectsOwner(s, t, i);
    }
  }

  lemma HandleSucceeds(s: System)
    requires HandlesKey(s)
    ensures After(s, Handle).Some?
  {
  }

  lemma HandleLinks(s: System)
    requires ClientInv(s) && HandlesKey(s)
    requires !s.ring.cq[0].result.HasMore() ==> QueuedFor(s.ring.cq[1..], s.ring.cq[0].userData) == []
    ensures After(s, Handle).Some? && ClientInv(After(s, Handle).value)
  {
    HandleSucceeds(s);
    HandleLinksTo(s, After(s, Handle).value);
  }

  lemma HandleLinksTo(s: System, t: System)
    requires ClientInv(s) && HandlesKey(s) && After(s, Handle) == Some(t)
    requires !s.ring.cq[0].result.HasMore() ==> QueuedFor(s.ring.cq[1..], s.ring.cq[0].userData) == []
    ensures ClientInv(t)
  {
    var key := s.ring.cq[0].userData;
    assert KeyOk(s, key);
    var id := s.owner[key];
    assert IdOk(s, id);
    HandleIsLocal(s);
    HandleOwner(s, id, key, t);
    LocalStep(s, t, id, key);
  }

  lemma HandleOwner(s: System, id: Id, key: Key, t: System)
    requires HandlesKey(s) && s.ring.cq[0].userData == key && After(s, Handle) == Some(t)
    requires KeyOk(s, key) && id == s.owner[key] && id in s.posted && IdOk(s, id)
    requires !s.ring.cq[0].result.HasMore() ==> QueuedFor(s.ring.cq[1..], key) == []
    ensures id in t.subs && id in t.posted && IdOk(t, id)
    ensures key in t.ring.entries ==> KeyOk(t, key)
  {
    HandleShape(s, key, t);
    HandleId(s, id, key, s.ring.cq[0].result, t);
  }

  lemma HandleIgnored(s: System)
    requires ClientInv(s) && Enabled(s, Handle) && s.ring.cq[0].userData == IGNORE_KEY
    requires EntriesOk(s.ring.entries)
    ensures After(s, Handle).Some? && ClientInv(After(s, Handle).value)
  {
    var t := After(s, Handle).value;
    assert IGNORE_KEY !in s.ring.entries;
    assert t.owner == s.owner;
    forall k: Key | k in s.ring.entries ensures QueuedFor(t.ring.cq, k) == QueuedFor(s.ring.cq, k) {
      OtherQueued(s.ring.cq, k);
    }
    QuietStep(s, t);
  }

  lemma QueuedPush(cq: seq<Cqe>, cqe: Cqe, key: Key)
    ensures QueuedFor(cq + [cqe], key) == QueuedFor(cq, key) + if cqe.userData == key then [cqe.result] else []
  {
    assert (cq + [cqe])[..|cq|] == cq;
  }

  lemma CompleteIgnored(s: System, cqe: Cqe)
    requires ClientInv(s) && Enabled(s, Complete(cqe)) && cqe.userData !in s.ring.entries
    ensures ClientInv(After(s, Complete(cqe)).value)
  {
    var t := After(s, Complete(cqe)).value;
    forall k: Key | k in s.ring.entries ensures QueuedFor(t.ring.cq, k) == QueuedFor(s.ring.cq, k) {
      QueuedPush(s.ring.cq, cqe, k);
      assert QueuedFor(s.ring.cq, k) + [] == QueuedFor(s.ring.cq, k);
    }
    QuietStep(s, t);
  }

  lemma SubIsPosted(sub: Sub, r: RingResult, held: seq<RingResult>, posted: seq<RingResult>,
                    consumed: seq<RingResult>, drops: nat)
    requires SubOk(sub, true, held, posted, consumed, drops)
    ensures SubOk(sub, true, held + [r], posted + [r], consumed, drops)
  {
    assert sub.got + consumed + (held + [r]) == sub.got + consumed + held + [r];
  }

  lemma CompleteLinks(s: System, cqe: Cqe)
    requires ClientInv(s) && Enabled(s, Complete(cqe)) && cqe.userData in s.ring.entries
    ensures ClientInv(After(s, Complete(cqe)).value)
  {
    var t := After(s, Complete(cqe)).value;
    var key := cqe.userData;
    assert KeyOk(s, key);
    var id := s.owner[key];
    assert IdOk(s, id);
    CompleteIsLocal(s, cqe, t);
    CompleteId(s, cqe, t);
    LocalStep(s, t, id, key);
  }

  lemma CompleteIsLocal(s: System, cqe: Cqe, t: System)
    requires Enabled(s, Complete(cqe)) && After(s, Complete(cqe)) == Some(t)
    requires s.owner.Keys == s.ring.entries.Keys && s.posted.Keys == s.subs.Keys
    requires cqe.userData in s.ring.entries && KeyOk(s, cqe.userData)
    ensures OnlyAt(s, t, s.owner[cqe.userData], cqe.userData)
  {
    forall k: Key | k != cqe.userData ensures SameKey(s, t, k) {
      QueuedPush(s.ring.cq, cqe, k);
      assert QueuedFor(s.ring.cq, k) + [] == QueuedFor(s.ring.cq, k);
    }
  }

  lemma CompleteId(s: System, cqe: Cqe, t: System)
    requires Enabled(s, Complete(cqe)) && After(s, Complete(cqe)) == Some(t)
    requires cqe.userData in s.ring.entries && KeyOk(s, cqe.userData)
    requires s.owner[cqe.userData] in s.posted && IdOk(s, s.owner[cqe.userData])
    ensures KeyOk(t, cqe.userData)
    ensures var id := s.owner[cqe.userData]; id in t.subs && id in t.posted && IdOk(t, id)
  {
    var key := cqe.userData;
    var id := s.owner[key];
    QueuedPush(s.ring.cq, cqe, key);
    var stored := StoredIn(s.ring.entries[key]);
    assert Held(t, id) == stored + (QueuedFor(s.ring.cq, key) + [cqe.result]);
    assert Held(t, id) == Held(s, id) + [cqe.result];
    SubIsPosted(s.subs[id], cqe.result, Held(s, id), s.posted[id],
                ConsumedBy(s.ring.effects, id), DropsOf(s.ring.effects, id));
  }
}
