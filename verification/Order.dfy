/** Over whole runs: what happens to one cancellation happens in order, and its end comes last. */
module EffectOrder {
  import opened Common
  import opened CompletionModel
  import opened RingModel
  import opened Runtime
  import opened Runs

  predicate Consumes(effect: Effect, id: Id) {
    effect.Consume? && effect.cancel == id
  }

  /** The cancellation is not used after it has been dropped. */
  ghost predicate DroppedLast(effects: seq<Effect>, id: Id) {
    forall i, j :: 0 <= i < j < |effects| && effects[i] == DropRaw(id) ==> !Consumes(effects[j], id)
  }

  ghost predicate NeverDropped(effects: seq<Effect>, id: Id) {
    forall i :: 0 <= i < |effects| ==> effects[i] != DropRaw(id)
  }

  ghost predicate NeverUsed(effects: seq<Effect>, id: Id) {
    forall i :: 0 <= i < |effects| ==> !Consumes(effects[i], id)
  }

  lemma Joined(a: seq<Effect>, b: seq<Effect>, id: Id)
    requires DroppedLast(a, id) && DroppedLast(b, id) && (NeverDropped(a, id) || NeverUsed(b, id))
    ensures DroppedLast(a + b, id)
  {
    var all := a + b;
    forall i, j | 0 <= i < j < |all| && all[i] == DropRaw(id) ensures !Consumes(all[j], id) {
      assert i >= |a| ==> all[i] == b[i - |a|];
      assert j >= |a| ==> all[j] == b[j - |a|];
    }
  }

  lemma {:induction false} NoDropCounted(effects: seq<Effect>, id: Id)
    requires DropsOf(effects, id) == 0
    ensures NeverDropped(effects, id)
  {
    if effects != [] {
      NoDropCounted(effects[..|effects| - 1], id);
    }
  }

  lemma {:induction false} OnlyConsumes(cancel: Cancellation, results: seq<RingResult>)
    ensures forall e :: e in ConsumeAll(cancel, results) ==> Consumes(e, cancel)
  {
    if results != [] {
      OnlyConsumes(cancel, results[..|results| - 1]);
    }
  }

  lemma CancelOrder(entry: Entry, cancel: Cancellation, id: Id)
    requires !entry.Dropped?
    ensures DroppedLast(CancelEffects(entry, cancel), id)
    ensures id != cancel ==> NeverUsed(CancelEffects(entry, cancel), id)
  {
    var consumed := ConsumeAll(cancel, entry.results);
    OnlyConsumes(cancel, entry.results);
    forall i | 0 <= i < |consumed| ensures Consumes(consumed[i], cancel) {
      assert consumed[i] in consumed;
    }
  }

  lemma NotifyOrder(entry: Entry, result: RingResult, id: Id)
    requires !entry.Closed?
    ensures DroppedLast(NotifyEffects(entry, result), id)
    ensures entry != Dropped(id) ==> NeverUsed(NotifyEffects(entry, result), id)
  {
  }

  lemma ForgetOrder(s: System, id: Id, withEntry: bool, t: System, other: Id)
    requires SysInv(s) && Enabled(s, Forget(id, withEntry)) && After(s, Forget(id, withEntry)) == Some(t)
    requires DroppedLast(s.ring.effects, other)
    ensures DroppedLast(t.ring.effects, other)
  {
    if s.subs[id].stage.Submitted? {
      var entry := s.ring.entries[s.subs[id].stage.key];
      CancelOrder(entry, id, other);
      assert IdOk(s, id);
      NoDropCounted(s.ring.effects, id);
      Joined(s.ring.effects, CancelEffects(entry, id), other);
    }
  }

  /** The key of a completion that is handled may be one given up; then its cancellation is not dropped yet. */
  lemma HandledIsUndropped(s: System, key: Key, id: Id)
    requires ClientInv(s) && key in s.ring.entries && s.ring.entries[key] == Dropped(id)
    ensures NeverDropped(s.ring.effects, id)
  {
    assert KeyOk(s, key);
    assert IdOk(s, id);
    NoDropCounted(s.ring.effects, id);
  }

  lemma HandleAppends(s: System, t: System, key: Key)
    requires Enabled(s, Handle) && After(s, Handle) == Some(t) && s.ring.cq[0].userData == key < KEY_LIMIT
    ensures key in s.ring.entries && !s.ring.entries[key].Closed?
    ensures t.ring.effects == s.ring.effects + NotifyEffects(s.ring.entries[key], s.ring.cq[0].result)
  {
  }

  lemma NotifiedInOrder(effects: seq<Effect>, entry: Entry, result: RingResult, id: Id)
    requires !entry.Closed? && DroppedLast(effects, id) && (entry == Dropped(id) ==> NeverDropped(effects, id))
    ensures DroppedLast(effects + NotifyEffects(entry, result), id)
  {
    NotifyOrder(entry, result, id);
    Joined(effects, NotifyEffects(entry, result), id);
  }

  lemma HandleOrder(s: System, t: System, id: Id)
    requires SysInv(s) && Enabled(s, Handle) && After(s, Handle) == Some(t)
    requires DroppedLast(s.ring.effects, id)
    ensures DroppedLast(t.ring.effects, id)
  {
    ReapIsSafe(s.ring);
    var key := s.ring.cq[0].userData;
    if key != IGNORE_KEY {
      HandleAppends(s, t, key);
      if s.ring.entries[key] == Dropped(id) {
        HandledIsUndropped(s, key, id);
      }
      NotifiedInOrder(s.ring.effects, s.ring.entries[key], s.ring.cq[0].result, id);
    }
  }

  lemma StepOrder(s: System, step: Step, t: System, id: Id)
    requires SysInv(s) && Enabled(s, step) && After(s, step) == Some(t)
    requires DroppedLast(s.ring.effects, id)
    ensures DroppedLast(t.ring.effects, id)
  {
    match step {
      case Forget(dropped, withEntry) => ForgetOrder(s, dropped, withEntry, t, id);
      case Handle => HandleOrder(s, t, id);
      case _ => assert t.ring.effects == s.ring.effects;
    }
  }

  /**
    No use after the end: in every calm run, no cancellation consumes a result after it has been
    dropped, whether the results were stored when the submission was given up or were completed later.
  */
  lemma NoUseAfterDrop(steps: seq<Step>, id: Id, i: nat, j: nat)
    requires Calm(steps) && Run(steps).Running?
    requires i < j < |Run(steps).s.ring.effects| && Run(steps).s.ring.effects[i] == DropRaw(id)
    ensures var late := Run(steps).s.ring.effects[j]; !(late.Consume? && late.cancel == id)
  {
    RunsAreInOrder(steps, id);
    assert !Consumes(Run(steps).s.ring.effects[j], id);
  }

  lemma {:induction false} RunsAreInOrder(steps: seq<Step>, id: Id)
    requires Calm(steps) && Run(steps).Running?
    ensures DroppedLast(Run(steps).s.ring.effects, id)
  {
    if steps != [] {
      var front := steps[..|steps| - 1];
      RunsAreInOrder(front, id);
      CalmRunsAreSound(front);
      StepOrder(Run(front).s, steps[|steps| - 1], Run(steps).s, id);
    }
  }
}
