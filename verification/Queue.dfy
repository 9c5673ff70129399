/** Over whole runs: what is in the submission queue, entry by entry, and what put it there. */
module QueueHistory {
  import opened Common
  import opened RingModel
  import opened Runtime
  import opened Runs

  /** The operation of this submission is queued, in flight, or finally completed and not reaped. */
  predicate IsOutstanding(s: System, id: Id) {
    id in s.subs && s.subs[id].stage.Submitted? && Outstanding(s.ring, s.subs[id].stage.key) > 0
  }

  /** What a step adds to the queue: a submission that is dropped, only if it has something to cancel. */
  function PushedBy(s: System, step: Step): seq<Sqe> {
    match step
    case First(_, _, key) => [OpSqe(key)]
    case Detach => [OpSqe(IGNORE_KEY)]
    case Forget(id, withEntry) =>
      if withEntry && IsOutstanding(s, id) then [AsyncCancel(IGNORE_KEY, s.subs[id].stage.key, id)] else []
    case _ => []
  }

  /** What the steps of a run have pushed since the kernel last took the queue. */
  function Pushed(steps: seq<Step>): seq<Sqe> {
    if steps == [] || steps[|steps| - 1].Enter? then []
    else
      match Run(steps[..|steps| - 1])
      case Running(s) => Pushed(steps[..|steps| - 1]) + PushedBy(s, steps[|steps| - 1])
      case _ => []
  }

  /** A submission that waits on the ring is outstanding exactly while its entry is open. */
  lemma OutstandingIsOpen(s: System, id: Id)
    requires SysInv(s) && Alive(s, id) && s.subs[id].stage.Submitted?
    ensures s.subs[id].stage.key in s.ring.entries
    ensures IsOutstanding(s, id) <==> s.ring.entries[s.subs[id].stage.key].Open?
  {
    TakeHeld(s, id);
    assert s.subs[id].stage.key < KEY_LIMIT;
    OutstandingIsAwaited(s, s.subs[id].stage.key);
  }

  lemma ForgetPushes(s: System, id: Id, withEntry: bool, t: System)
    requires Enabled(s, Forget(id, withEntry)) && After(s, Forget(id, withEntry)) == Some(t)
    requires s.subs[id].stage.Submitted? ==>
               && s.subs[id].stage.key in s.ring.entries
               && (IsOutstanding(s, id) <==> s.ring.entries[s.subs[id].stage.key].Open?)
    ensures t.ring.sq == s.ring.sq + PushedBy(s, Forget(id, withEntry))
  {
  }

  lemma OtherPushes(s: System, step: Step, t: System)
    requires Enabled(s, step) && !step.Forget? && After(s, step) == Some(t)
    ensures t.ring.sq == if step.Enter? then [] else s.ring.sq + PushedBy(s, step)
  {
  }

  lemma StepPushes(s: System, step: Step, t: System)
    requires SysInv(s) && Enabled(s, step) && After(s, step) == Some(t)
    ensures t.ring.sq == if step.Enter? then [] else s.ring.sq + PushedBy(s, step)
  {
    if step.Forget? {
      if s.subs[step.id].stage.Submitted? {
        OutstandingIsOpen(s, step.id);
      }
      ForgetPushes(s, step.id, step.withEntry, t);
    } else {
      OtherPushes(s, step, t);
    }
  }

  /**
    The submission queue is exact: in every calm run it holds, in the order of the steps since the
    kernel last took it, one entry for each submission started, one for each detached one, one cancel
    entry for each submission dropped while its operation was outstanding, if that has such an entry,
    and nothing else.
  */
  lemma {:induction false} QueueIsExact(steps: seq<Step>)
    requires Calm(steps) && Run(steps).Running?
    ensures Run(steps).s.ring.sq == Pushed(steps)
  {
    if steps != [] {
      var front := steps[..|steps| - 1];
      QueueIsExact(front);
      CalmRunsAreSound(front);
      StepPushes(Run(front).s, steps[|steps| - 1], Run(steps).s);
    }
  }
}
