/** The ring loses no wakeup: over whole runs, a result that no poll has seen yet comes with a call of the waker. */
module Wakeups {
  import opened Common
  import opened CompletionModel
  import opened RingModel
  import opened SubmissionModel
  import opened Runtime
  import opened Runs

  /**
    The waker a submission was first polled with, and how many effects there were when a poll last
    answered Pending.
  */
  datatype Watch = Watch(waker: Waker, since: Option<nat>)

  type Watches = map<Id, Watch>

  /** A poll that gives no result answers Pending; one that gives a result ends the watch. */
  function Polled(s: System, t: System, id: Id, w: Watches): Watches {
    if id !in w || id !in s.subs || id !in t.subs then w
    else
      w[id := w[id].(since := if t.subs[id].got == s.subs[id].got then Some(|t.ring.effects|) else None)]
  }

  function Update(s: System, step: Step, t: System, w: Watches): Watches {
    match step
    case First(id, waker, _) => w[id := Watch(waker, Some(|t.ring.effects|))]
    case Await(id) => Polled(s, t, id, w)
    case Next(id) => Polled(s, t, id, w)
    case _ => w
  }

  /** The watches at the end of a run. */
  function WatchesOf(steps: seq<Step>): Watches {
    if steps == [] then map[]
    else
      var before := WatchesOf(steps[..|steps| - 1]);
      match (Run(steps[..|steps| - 1]), Run(steps))
      case (Running(s), Running(t)) => Update(s, steps[|steps| - 1], t, before)
      case _ => before
  }

  ghost predicate WokenSince(effects: seq<Effect>, since: nat, waker: Waker) {
    exists i :: since <= i < |effects| && effects[i] == Wake(waker)
  }

  /** An entry is watched if its waker is the one, and it holds a result only if that was called. */
  ghost predicate EntryWatched(entry: Entry, effects: seq<Effect>, watch: Watch) {
    && (entry.Open? ==> entry.waker == watch.waker)
    && (watch.since.Some? ==>
          && watch.since.value <= |effects|
          && (StoredIn(entry) != [] ==> WokenSince(effects, watch.since.value, watch.waker)))
  }

  /** The submission waits on the ring. */
  predicate Waits(s: System, id: Id) {
    Alive(s, id) && s.subs[id].stage.Submitted?
  }

  ghost predicate IdWatched(s: System, w: Watches, id: Id) {
    && id in w && Waits(s, id)
    && s.subs[id].stage.key in s.ring.entries
    && EntryWatched(s.ring.entries[s.subs[id].stage.key], s.ring.effects, w[id])
  }

  ghost predicate AllWatched(s: System, w: Watches) {
    forall id :: Waits(s, id) ==> IdWatched(s, w, id)
  }

  // ---- one step ----

  /** The key whose entry a step may change. */
  function ChangedKey(s: System, step: Step): Option<Key> {
    match step
    case First(_, _, key) => Some(key)
    case Await(id) => KeyOf(s, id)
    case Next(id) => KeyOf(s, id)
    case Forget(id, _) => KeyOf(s, id)
    case Handle => if s.ring.cq != [] then Some(s.ring.cq[0].userData % KEY_LIMIT) else None
    case _ => None
  }

  function KeyOf(s: System, id: Id): Option<Key> {
    if id in s.subs && s.subs[id].stage.Submitted? then Some(s.subs[id].stage.key) else None
  }

  lemma EffectsGrow(s: System, step: Step, t: System)
    requires Enabled(s, step) && After(s, step) == Some(t)
    ensures s.ring.effects <= t.ring.effects
  {
  }

  lemma OtherEntriesStay(s: System, step: Step, t: System, key: Key)
    requires Enabled(s, step) && After(s, step) == Some(t) && ChangedKey(s, step) != Some(key)
    ensures key in s.ring.entries <==> key in t.ring.entries
    ensures key in s.ring.entries ==> s.ring.entries[key] == t.ring.entries[key]
  {
  }

  lemma StillWatched(entry: Entry, before: seq<Effect>, after: seq<Effect>, watch: Watch)
    requires EntryWatched(entry, before, watch) && before <= after
    ensures EntryWatched(entry, after, watch)
  {
    if watch.since.Some? && StoredIn(entry) != [] {
      var i :| watch.since.value <= i < |before| && before[i] == Wake(watch.waker);
      assert after[i] == before[i];
    }
  }

  /** A submission that waits after a step has waited before, on the same key, or has just been submitted. */
  lemma WaitedBefore(s: System, step: Step, t: System, id: Id)
    requires Enabled(s, step) && After(s, step) == Some(t) && Waits(t, id)
    requires !(step.First? && step.id == id)
    ensures Waits(s, id) && s.subs[id].stage == t.subs[id].stage
    ensures !(step.Forget? && step.id == id)
  {
  }

  /** No other submission polls or drops the key of one that waits. */
  lemma KeyIsOwn(s: System, step: Step, id: Id)
    requires ClientInv(s) && Enabled(s, step) && Waits(s, id)
    requires ChangedKey(s, step) == Some(s.subs[id].stage.key)
    ensures step.Handle? || ((step.Await? || step.Next? || step.Forget?) && step.id == id)
  {
    TakeHeld(s, id);
    if (step.Await? || step.Next? || step.Forget?) && step.id != id {
      TakeHeld(s, step.id);
    }
  }

  lemma OtherIsWatched(s: System, step: Step, t: System, w: Watches, id: Id)
    requires Enabled(s, step) && After(s, step) == Some(t) && Waits(t, id) && IdWatched(s, w, id)
    requires s.subs[id].stage == t.subs[id].stage && ChangedKey(s, step) != Some(s.subs[id].stage.key)
    requires id in Update(s, step, t, w) && Update(s, step, t, w)[id] == w[id]
    ensures IdWatched(t, Update(s, step, t, w), id)
  {
    EffectsGrow(s, step, t);
    OtherEntriesStay(s, step, t, s.subs[id].stage.key);
    StillWatched(s.ring.entries[s.subs[id].stage.key], s.ring.effects, t.ring.effects, w[id]);
  }

  /** Handling a completion adds a result and calls the waker. */
  lemma HandledIsWatched(s: System, t: System, w: Watches, id: Id)
    requires Enabled(s, Handle) && After(s, Handle) == Some(t) && Waits(t, id) && IdWatched(s, w, id)
    requires s.subs[id].stage == t.subs[id].stage && s.ring.cq[0].userData == s.subs[id].stage.key
    requires s.ring.cq[0].userData < KEY_LIMIT && s.ring.entries[s.subs[id].stage.key].Open?
    ensures IdWatched(t, w, id)
  {
    var n := |s.ring.effects|;
    assert t.ring.effects[n] == Wake(w[id].waker);
  }

  /** A poll that finds no result leaves none, and starts the watch anew. */
  lemma PolledIsWatched(s: System, step: Step, t: System, w: Watches, id: Id)
    requires Enabled(s, step) && (step == Await(id) || step == Next(id)) && After(s, step) == Some(t)
    requires Waits(s, id) && Waits(t, id) && IdWatched(s, w, id) && s.subs[id].stage == t.subs[id].stage
    requires !s.ring.entries[s.subs[id].stage.key].Dropped? && EntryShape(s.ring.entries[s.subs[id].stage.key])
    ensures IdWatched(t, Update(s, step, t, w), id)
  {
    var entry := s.ring.entries[s.subs[id].stage.key];
    assert t.ring.effects == s.ring.effects;
    if entry.results != [] {
      assert t.subs[id].got == s.subs[id].got + [entry.results[0]];
      assert |t.subs[id].got| != |s.subs[id].got|;
    }
  }

  lemma SubmittedIsWatched(s: System, id: Id, waker: Waker, key: Key, t: System, w: Watches)
    requires Enabled(s, First(id, waker, key)) && After(s, First(id, waker, key)) == Some(t)
    ensures IdWatched(t, Update(s, First(id, waker, key), t, w), id)
  {
  }

  lemma HandledKey(s: System, id: Id)
    requires Inv(s.ring) && Enabled(s, Handle) && Waits(s, id)
    requires s.subs[id].stage.key in s.ring.entries && !s.ring.entries[s.subs[id].stage.key].Dropped?
    requires ChangedKey(s, Handle) == Some(s.subs[id].stage.key) && s.ring.cq[0].userData != IGNORE_KEY
    ensures s.ring.cq[0].userData == s.subs[id].stage.key < KEY_LIMIT
    ensures s.ring.entries[s.subs[id].stage.key].Open?
  {
    ReapIsSafe(s.ring);
  }

  lemma IgnoredIsWatched(s: System, t: System, w: Watches, id: Id)
    requires Enabled(s, Handle) && After(s, Handle) == Some(t) && IdWatched(s, w, id)
    requires s.ring.cq[0].userData == IGNORE_KEY
    ensures IdWatched(t, w, id)
  {
  }

  lemma HandleWatches(s: System, t: System, w: Watches, id: Id)
    requires Inv(s.ring) && Enabled(s, Handle) && After(s, Handle) == Some(t) && Waits(s, id) && Waits(t, id)
    requires IdWatched(s, w, id) && s.subs[id].stage == t.subs[id].stage
    requires !s.ring.entries[s.subs[id].stage.key].Dropped?
    requires ChangedKey(s, Handle) == Some(s.subs[id].stage.key)
    ensures IdWatched(t, w, id)
  {
    if s.ring.cq[0].userData == IGNORE_KEY {
      IgnoredIsWatched(s, t, w, id);
    } else {
      HandledKey(s, id);
      HandledIsWatched(s, t, w, id);
    }
  }

  /** The steps that may change what a waiting submission is watched for. */
  lemma OwnStepWatches(s: System, step: Step, t: System, w: Watches, id: Id)
    requires Inv(s.ring) && Enabled(s, step) && After(s, step) == Some(t) && Waits(s, id) && Waits(t, id)
    requires IdWatched(s, w, id) && s.subs[id].stage == t.subs[id].stage
    requires !s.ring.entries[s.subs[id].stage.key].Dropped?
    requires ChangedKey(s, step) == Some(s.subs[id].stage.key)
    requires step.Handle? || step == Await(id) || step == Next(id)
    ensures IdWatched(t, Update(s, step, t, w), id)
  {
    if step.Handle? {
      HandleWatches(s, t, w, id);
    } else {
      PolledIsWatched(s, step, t, w, id);
    }
  }

  lemma IdStepWatches(s: System, step: Step, t: System, w: Watches, id: Id)
    requires SysInv(s) && Enabled(s, step) && After(s, step) == Some(t) && Waits(t, id)
    requires Waits(s, id) && s.subs[id].stage == t.subs[id].stage && IdWatched(s, w, id)
    requires !(step.First? && step.id == id) && !(step.Forget? && step.id == id)
    ensures IdWatched(t, Update(s, step, t, w), id)
  {
    if ChangedKey(s, step) == Some(s.subs[id].stage.key) {
      KeyIsOwn(s, step, id);
      TakeHeld(s, id);
      OwnStepWatches(s, step, t, w, id);
    } else {
      UpdateIsOther(s, step, t, w, id);
      OtherIsWatched(s, step, t, w, id);
    }
  }

  lemma UpdateIsOther(s: System, step: Step, t: System, w: Watches, id: Id)
    requires Waits(s, id) && id in w && ChangedKey(s, step) != Some(s.subs[id].stage.key)
    requires !(step.First? && step.id == id)
    ensures id in Update(s, step, t, w) && Update(s, step, t, w)[id] == w[id]
  {
  }

  lemma StepWatches(s: System, step: Step, t: System, w: Watches)
    requires SysInv(s) && Enabled(s, step) && After(s, step) == Some(t) && AllWatched(s, w)
    ensures AllWatched(t, Update(s, step, t, w))
  {
    forall id | Waits(t, id) ensures IdWatched(t, Update(s, step, t, w), id) {
      if step.First? && step.id == id {
        SubmittedIsWatched(s, id, step.waker, step.key, t, w);
      } else {
        WaitedBefore(s, step, t, id);
        IdStepWatches(s, step, t, w, id);
      }
    }
  }

  // ---- whole runs ----

  lemma {:induction false} RunsAreWatched(steps: seq<Step>)
    requires Calm(steps) && Run(steps).Running?
    ensures AllWatched(Run(steps).s, WatchesOf(steps))
  {
    if steps != [] {
      var front := steps[..|steps| - 1];
      RunsAreWatched(front);
      CalmRunsAreSound(front);
      StepWatches(Run(front).s, steps[|steps| - 1], Run(steps).s, WatchesOf(front));
    }
  }

  /**
    No wakeup is lost by the ring: in every calm run, if a submission was last polled without a result,
    and one is stored for it now, its waker has been called since that poll.
  */
  lemma NoWakeupIsLost(steps: seq<Step>, id: Id)
    requires Calm(steps) && Run(steps).Running? && Waits(Run(steps).s, id)
    ensures var s := Run(steps).s;
            && id in WatchesOf(steps) && s.subs[id].stage.key in s.ring.entries
            && var watch := WatchesOf(steps)[id];
               watch.since.Some? && StoredIn(s.ring.entries[s.subs[id].stage.key]) != [] ==>
                 WokenSince(s.ring.effects, watch.since.value, watch.waker)
  {
    RunsAreWatched(steps);
    assert IdWatched(Run(steps).s, WatchesOf(steps), id);
  }
}
