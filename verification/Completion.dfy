/**
  What a set of completions means, without its five stages and its pool of recycled queues:
  each key is waiting for more results, has received its last one, or was given up.
*/
module CompletionModel {
  import opened Common

  type Key = nat
  type Waker = nat
  type Cancellation = nat

  datatype Entry =
    | Open(waker: Waker, results: seq<RingResult>)
    | Closed(results: seq<RingResult>)
    | Dropped(cancel: Cancellation)

  type Entries = map<Key, Entry>

  /** Calls made into code outside the set, in the order in which they happen. */
  datatype Effect =
    | Wake(waker: Waker)
    | Consume(cancel: Cancellation, result: RingResult)
    | DropRaw(cancel: Cancellation)

  /** Removing an entry, or keeping what is left of it. */
  datatype Fate = Keep(entry: Entry) | Remove

  function Settle(m: Entries, key: Key, fate: Fate): Entries {
    match fate
    case Keep(entry) => m[key := entry]
    case Remove => m - {key}
  }

  function NotifyFate(entry: Entry, result: RingResult): Fate
    requires !entry.Closed?
  {
    match entry
    case Open(waker, results) =>
      Keep(if result.HasMore() then Open(waker, results + [result]) else Closed(results + [result]))
    case Dropped(_) => Remove
  }

  function NotifyEffects(entry: Entry, result: RingResult): seq<Effect>
    requires !entry.Closed?
  {
    match entry
    case Open(waker, _) => [Wake(waker)]
    case Dropped(cancel) => [Consume(cancel, result), DropRaw(cancel)]
  }

  function CancelFate(entry: Entry, cancel: Cancellation): Fate
    requires !entry.Dropped?
  {
    if entry.Open? then Keep(Dropped(cancel)) else Remove
  }

  function ConsumeAll(cancel: Cancellation, results: seq<RingResult>): seq<Effect> {
    if results == [] then []
    else ConsumeAll(cancel, results[..|results| - 1]) + [Consume(cancel, results[|results| - 1])]
  }

  function CancelEffects(entry: Entry, cancel: Cancellation): seq<Effect>
    requires !entry.Dropped?
  {
    ConsumeAll(cancel, entry.results) + if entry.Open? then [] else [DropRaw(cancel)]
  }

  function NextResult(entry: Entry): Option<RingResult> {
    if entry.Dropped? || entry.results == [] then None else Some(entry.results[0])
  }

  function TakeFate(entry: Entry): Fate {
    match entry
    case Open(waker, results) => Keep(if results == [] then entry else Open(waker, results[1..]))
    case Closed(results) => if |results| <= 1 then Remove else Keep(Closed(results[1..]))
    case Dropped(_) => Keep(entry)
  }
}

/** The set of completions and its pool of result queues, updated in place. */
module Completions {
  import opened Common
  import opened CompletionModel

  type Queues = seq<seq<RingResult>>

  /** Unused handles are listed once each, and their queues are empty. */
  ghost predicate PoolValid(queues: Queues, unused: seq<nat>) {
    && NoDuplicates(unused)
    && forall i :: 0 <= i < |unused| ==> unused[i] < |queues| && queues[unused[i]] == []
  }

  ghost predicate InUse(queues: Queues, unused: seq<nat>, h: nat) {
    h < |queues| && h !in unused
  }

  /** Every queue except h is in use as before, with the same contents. */
  ghost predicate OthersKept(q0: Queues, u0: seq<nat>, q1: Queues, u1: seq<nat>, h: nat) {
    forall g: nat :: g != h ==> InUse(q0, u0, g) == InUse(q1, u1, g) && (InUse(q1, u1, g) ==> q1[g] == q0[g])
  }

  /** One queue of results for each operation that completes more than once, recycled among them. */
  class ResultQueues {
    var queues: Queues
    var unused: seq<nat>

    ghost predicate Valid()
      reads this
    {
      PoolValid(queues, unused)
    }

    constructor (capacity: nat)
      ensures Valid()
      ensures |queues| == capacity
      ensures forall h: nat :: !InUse(queues, unused, h)
    {
      queues := seq(capacity, _ => []);
      unused := seq(capacity, (i: nat) => i);
      new;
      forall h: nat ensures !InUse(queues, unused, h) {
        assert h < capacity ==> unused[h] == h;
      }
    }

    /** True exactly when no queue is in use: the lengths alone decide it. */
    method IsEmpty() returns (empty: bool)
      requires Valid()
      ensures empty <==> forall h: nat :: !InUse(queues, unused, h)
    {
      FullExactlyWhenComplete(unused, |queues|);
      empty := |queues| == |unused|;
      assert forall h: nat :: InUse(queues, unused, h) <==> h < |queues| && h !in unused;
    }

    method Handle() returns (h: nat)
      requires Valid()
      modifies this
      ensures Valid()
      ensures !InUse(old(queues), old(unused), h) && InUse(queues, unused, h) && queues[h] == []
      ensures OthersKept(old(queues), old(unused), queues, unused, h)
      ensures |queues| == |old(queues)| <==> exists g: nat :: g < |old(queues)| && !InUse(old(queues), old(unused), g)
    {
      if unused != [] {
        h := unused[|unused| - 1];
        unused := unused[..|unused| - 1];
      } else {
        h := |queues|;
        queues := queues + [[]];
      }
    }

    method PushBack(h: nat, result: RingResult)
      requires Valid() && InUse(queues, unused, h)
      modifies this
      ensures Valid() && InUse(queues, unused, h)
      ensures queues[h] == old(queues[h]) + [result]
      ensures OthersKept(old(queues), old(unused), queues, unused, h)
    {
      queues := queues[h := queues[h] + [result]];
    }

    method PopFront(h: nat) returns (result: Option<RingResult>)
      requires Valid() && InUse(queues, unused, h)
      modifies this
      ensures Valid() && InUse(queues, unused, h)
      ensures OthersKept(old(queues), old(unused), queues, unused, h)
      ensures old(queues[h]) == [] ==> result == None && queues[h] == []
      ensures old(queues[h]) != [] ==> result == Some(old(queues[h])[0]) && queues[h] == old(queues[h])[1..]
    {
      if queues[h] == [] {
        result := None;
      } else {
        result := Some(queues[h][0]);
        queues := queues[h := queues[h][1..]];
      }
    }

    method Release(h: nat)
      requires Valid() && InUse(queues, unused, h)
      modifies this
      ensures Valid() && !InUse(queues, unused, h)
      ensures OthersKept(old(queues), old(unused), queues, unused, h)
    {
      queues := queues[h := []];
      unused := unused + [h];
    }
  }

  /** The stages an entry of the slab goes through. */
  datatype Completion =
    | Vacant(waker: Waker)
    | Single(result: RingResult)
    | Multiple(waker: Waker, handle: nat, more: bool)
    | Cancelled(cancel: Cancellation)
    | Finished

  type Slab = map<nat, Completion>

  ghost predicate Usable(completion: Completion, queues: Queues, unused: seq<nat>) {
    && !completion.Finished?
    && (completion.Multiple? ==>
          && InUse(queues, unused, completion.handle)
          && (!completion.more ==> queues[completion.handle] != []))
  }

  /** What a stage means, given the contents of the queues. */
  ghost function Meaning(completion: Completion, queues: Queues): Entry
    requires !completion.Finished?
    requires completion.Multiple? ==> completion.handle < |queues|
  {
    match completion
    case Vacant(waker) => Open(waker, [])
    case Single(result) => Closed([result])
    case Multiple(waker, handle, more) =>
      if more then Open(waker, queues[handle]) else Closed(queues[handle])
    case Cancelled(cancel) => Dropped(cancel)
  }

  ghost predicate Owns(slab: Slab, key: nat, h: nat) {
    key in slab && slab[key].Multiple? && slab[key].handle == h
  }

  /** Each queue in use belongs to exactly one entry, and each entry's stage is usable. */
  ghost predicate Consistent(slab: Slab, queues: Queues, unused: seq<nat>) {
    && PoolValid(queues, unused)
    && (forall key :: key in slab ==> Usable(slab[key], queues, unused))
    && (forall a, b, h :: Owns(slab, a, h) && Owns(slab, b, h) ==> a == b)
    && (forall h: nat :: InUse(queues, unused, h) ==> exists key :: Owns(slab, key, h))
  }

  ghost function Abstract(slab: Slab, queues: Queues, unused: seq<nat>): Entries
    requires Consistent(slab, queues, unused)
  {
    map key | key in slab :: Meaning(slab[key], queues)
  }

  /** A stage, with the queues, is what an entry's fate says. */
  ghost predicate Fits(completion: Completion, queues: Queues, unused: seq<nat>, fate: Fate) {
    match fate
    case Keep(entry) => Usable(completion, queues, unused) && Meaning(completion, queues) == entry
    case Remove => completion.Finished?
  }

  ghost predicate Holds(completion: Completion, h: nat) {
    completion.Multiple? && completion.handle == h
  }

  /**
    Moving one entry from c0 to c1 touches that entry's queue only: a handle it gives up is no
    longer in use, one it gains was not in use, and all others keep their contents.
  */
  ghost predicate Local(c0: Completion, q0: Queues, u0: seq<nat>, c1: Completion, q1: Queues, u1: seq<nat>) {
    && (forall g: nat :: InUse(q0, u0, g) && !Holds(c0, g) ==>
          InUse(q1, u1, g) && q1[g] == q0[g] && !Holds(c1, g))
    && (forall g: nat :: InUse(q1, u1, g) ==> Holds(c1, g) || (InUse(q0, u0, g) && !Holds(c0, g)))
  }

  function Stored(slab: Slab, key: Key, completion: Completion): Slab {
    if completion.Finished? then slab - {key} else slab[key := completion]
  }

  /**
    The pool refines one sequence per key: a local change to one entry, stored back, changes what
    the whole set means at that key only.
  */
  lemma LocalChange(slab: Slab, key: Key, q0: Queues, u0: seq<nat>,
                    c1: Completion, q1: Queues, u1: seq<nat>, fate: Fate)
    requires Consistent(slab, q0, u0) && key in slab
    requires PoolValid(q1, u1) && Local(slab[key], q0, u0, c1, q1, u1) && Fits(c1, q1, u1, fate)
    ensures Consistent(Stored(slab, key, c1), q1, u1)
    ensures Abstract(Stored(slab, key, c1), q1, u1) == Settle(Abstract(slab, q0, u0), key, fate)
  {
    var next := Stored(slab, key, c1);
    forall k | k in slab && k != key
      ensures Usable(slab[k], q1, u1) && Meaning(slab[k], q1) == Meaning(slab[k], q0)
      ensures c1.Multiple? ==> !Owns(slab, k, c1.handle)
    {
      if slab[k].Multiple? {
        var h := slab[k].handle;
        assert Owns(slab, k, h) && InUse(q0, u0, h);
        assert Holds(slab[key], h) ==> Owns(slab, key, h);
      }
    }
    assert forall k, h :: k != key ==> (Owns(next, k, h) <==> Owns(slab, k, h));
    assert forall h :: Owns(next, key, h) <==> Holds(c1, h);
    forall h: nat | InUse(q1, u1, h) ensures exists k :: Owns(next, k, h) {
      if Holds(c1, h) {
        assert Owns(next, key, h);
      } else {
        var k :| Owns(slab, k, h);
        assert Owns(next, k, h);
      }
    }
  }

  /** The completion stage of every submitted operation, by key. */
  class CompletionSet {
    var slab: Slab
    const pool: ResultQueues
    ghost var effects: seq<Effect>

    ghost predicate Valid()
      reads this, pool
    {
      Consistent(slab, pool.queues, pool.unused)
    }

    ghost function View(): Entries
      requires Valid()
      reads this, pool
    {
      Abstract(slab, pool.queues, pool.unused)
    }

    constructor ()
      ensures Valid() && fresh(pool)
      ensures View() == map[] && effects == []
    {
      slab := map[];
      effects := [];
      pool := new ResultQueues(4);
    }

    /** True exactly when no entry exists: that the pool is then idle follows. */
    method IsEmpty() returns (empty: bool)
      requires Valid()
      ensures empty <==> View() == map[]
    {
      var idle := pool.IsEmpty();
      empty := |slab| == 0 && idle;
      assert View().Keys == slab.Keys;
      if View() == map[] {
        assert slab.Keys == {};
        assert slab == map[];
        assert forall key, h :: !Owns(slab, key, h);
      }
    }

    /** `index` is the vacant slab slot picked for the new entry. */
    method Insert(waker: Waker, index: nat) returns (key: Key)
      requires Valid()
      requires index !in View()
      modifies this`slab
      ensures Valid()
      ensures key < 0x1_0000_0000 && (key == index <==> index < 0x1_0000_0000)
      ensures View() == old(View())[index := Open(waker, [])]
    {
      key := index % 0x1_0000_0000;
      slab := slab[index := Vacant(waker)];
      assert forall k, h :: Owns(slab, k, h) <==> Owns(old(slab), k, h);
    }

    /** Writes the new stage of an entry back, or frees its slot once it is finished. */
    method Store(key: Key, completion: Completion)
      modifies this`slab
      ensures slab == Stored(old(slab), key, completion)
    {
      if completion.Finished? {
        slab := slab - {key};
      } else {
        slab := slab[key := completion];
      }
    }

    /** Gives up an entry; the results it still holds go to the cancellation. */
    method Cancel(key: Key, cancel: Cancellation) returns (waiting: bool)
      requires Valid()
      requires key in View() && !View()[key].Dropped?
      modifies this, pool
      ensures Valid()
      ensures waiting == old(View()[key]).Open?
      ensures View() == Settle(old(View()), key, CancelFate(old(View()[key]), cancel))
      ensures effects == old(effects) + CancelEffects(old(View()[key]), cancel)
    {
      ghost var q0, u0 := pool.queues, pool.unused;
      var next;
      next, waiting := TryCancel(slab[key], cancel);
      LocalChange(slab, key, q0, u0, next, pool.queues, pool.unused, CancelFate(Meaning(slab[key], q0), cancel));
      Store(key, next);
    }

    method Notify(key: Key, result: RingResult)
      requires Valid()
      requires key in View() && !View()[key].Closed?
      modifies this, pool
      ensures Valid()
      ensures View() == Settle(old(View()), key, NotifyFate(old(View()[key]), result))
      ensures effects == old(effects) + NotifyEffects(old(View()[key]), result)
    {
      ghost var q0, u0 := pool.queues, pool.unused;
      var next := TryNotify(slab[key], result);
      LocalChange(slab, key, q0, u0, next, pool.queues, pool.unused, NotifyFate(Meaning(slab[key], q0), result));
      Store(key, next);
    }

    method Result(key: Key) returns (result: Option<RingResult>)
      requires Valid()
      requires key in View()
      modifies this`slab, pool
      ensures Valid()
      ensures result == NextResult(old(View()[key]))
      ensures View() == Settle(old(View()), key, TakeFate(old(View()[key])))
    {
      ghost var q0, u0 := pool.queues, pool.unused;
      var next;
      next, result := TakeResult(slab[key]);
      LocalChange(slab, key, q0, u0, next, pool.queues, pool.unused, TakeFate(Meaning(slab[key], q0)));
      Store(key, next);
    }

    method TryCancel(completion: Completion, cancel: Cancellation) returns (next: Completion, waiting: bool)
      requires pool.Valid() && Usable(completion, pool.queues, pool.unused)
      requires !completion.Cancelled?
      modifies this`effects, pool
      ensures pool.Valid()
      ensures Local(completion, old(pool.queues), old(pool.unused), next, pool.queues, pool.unused)
      ensures Fits(next, pool.queues, pool.unused, CancelFate(Meaning(completion, old(pool.queues)), cancel))
      ensures waiting == Meaning(completion, old(pool.queues)).Open?
      ensures effects == old(effects) + CancelEffects(Meaning(completion, old(pool.queues)), cancel)
    {
      match completion {
        case Vacant(_) =>
          next := Cancelled(cancel);
          waiting := true;
        case Single(result) =>
          effects := effects + [Consume(cancel, result)];
          effects := effects + [DropRaw(cancel)];
          next := Finished;
          waiting := false;
          assert ConsumeAll(cancel, [result]) == [Consume(cancel, result)] by {
            assert [result][..0] == [];
          }
        case Multiple(_, handle, more) =>
          var i := 0;
          ghost var results := pool.queues[handle];
          while i < |pool.queues[handle]|
            invariant i <= |results| && pool.queues == old(pool.queues) && pool.unused == old(pool.unused)
            invariant effects == old(effects) + ConsumeAll(cancel, results[..i])
          {
            effects := effects + [Consume(cancel, pool.queues[handle][i])];
            i := i + 1;
            assert results[..i][..i - 1] == results[..i - 1];
          }
          assert results[..i] == results;
          pool.Release(handle);
          if more {
            next := Cancelled(cancel);
            waiting := true;
          } else {
            effects := effects + [DropRaw(cancel)];
            next := Finished;
            waiting := false;
          }
      }
    }

    method TryNotify(completion: Completion, result: RingResult) returns (next: Completion)
      requires pool.Valid() && Usable(completion, pool.queues, pool.unused)
      requires !Meaning(completion, pool.queues).Closed?
      modifies this`effects, pool
      ensures pool.Valid()
      ensures Local(completion, old(pool.queues), old(pool.unused), next, pool.queues, pool.unused)
      ensures Fits(next, pool.queues, pool.unused, NotifyFate(Meaning(completion, old(pool.queues)), result))
      ensures effects == old(effects) + NotifyEffects(Meaning(completion, old(pool.queues)), result)
    {
      match completion {
        case Vacant(waker) =>
          effects := effects + [Wake(waker)];
          if result.HasMore() {
            var handle := pool.Handle();
            pool.PushBack(handle, result);
            next := Multiple(waker, handle, true);
          } else {
            next := Single(result);
          }
        case Multiple(waker, handle, _) =>
          effects := effects + [Wake(waker)];
          pool.PushBack(handle, result);
          next := Multiple(waker, handle, result.HasMore());
        case Cancelled(cancel) =>
          effects := effects + [Consume(cancel, result)];
          effects := effects + [DropRaw(cancel)];
          next := Finished;
      }
    }

    method TakeResult(completion: Completion) returns (next: Completion, result: Option<RingResult>)
      requires pool.Valid() && Usable(completion, pool.queues, pool.unused)
      modifies pool
      ensures pool.Valid()
      ensures Local(completion, old(pool.queues), old(pool.unused), next, pool.queues, pool.unused)
      ensures result == NextResult(Meaning(completion, old(pool.queues)))
      ensures Fits(next, pool.queues, pool.unused, TakeFate(Meaning(completion, old(pool.queues))))
    {
      next := completion;
      match completion {
        case Single(r) =>
          next := Finished;
          result := Some(r);
        case Multiple(_, handle, more) =>
          result := pool.PopFront(handle);
          if pool.queues[handle] == [] && !more {
            pool.Release(handle);
            next := Finished;
          }
        case _ =>
          result := None;
      }
    }
  }
}
