/** What exactly the two hazards break, in any state, and a run from the start for each. */
module Hazards {
  import opened Common
  import opened CompletionModel
  import opened RingModel
  import opened SubmissionModel
  import opened Runtime
  import opened Runs

  /**
    A future that is polled and then dropped takes its operation twice if and only if the poll gives it
    a result announcing another one.
  */
  lemma TakenTwiceExactly(s: System, id: Id, withEntry: bool)
    requires SysInv(s) && Enabled(s, Await(id))
    ensures After(s, Await(id)).Some?
    ensures var t := After(s, Await(id)).value;
            && Enabled(t, Forget(id, withEntry)) && After(t, Forget(id, withEntry)).Some?
            && id in After(t, Forget(id, withEntry)).value.subs
            && After(t, Forget(id, withEntry)).value.subs[id].taken == if Hazardous(s, Await(id)) then 2 else 1
  {
    TakeHeld(s, id);
    assert IdOk(s, id);
    PolledThenDropped(s, id, withEntry);
  }

  lemma PolledThenDropped(s: System, id: Id, withEntry: bool)
    requires Enabled(s, Await(id)) && Knows(PairOf(s, id)) && s.subs[id].taken == 0
    requires !s.ring.entries[s.subs[id].stage.key].Dropped?
    requires EntryShape(s.ring.entries[s.subs[id].stage.key])
    ensures After(s, Await(id)).Some?
    ensures var t := After(s, Await(id)).value;
            && Enabled(t, Forget(id, withEntry)) && After(t, Forget(id, withEntry)).Some?
            && id in After(t, Forget(id, withEntry)).value.subs
            && After(t, Forget(id, withEntry)).value.subs[id].taken == if Hazardous(s, Await(id)) then 2 else 1
  {
    var t := After(s, Await(id)).value;
    assert Alive(t, id);
    assert CanDrop(t, id);
  }

  /**
    Handling a completion frees its key while the operation is still outstanding if and only if the
    completion is an early one for a key given up.
  */
  lemma FreedTooEarlyExactly(s: System)
    requires SysInv(s) && Enabled(s, Handle)
    ensures After(s, Handle).Some?
    ensures var key := s.ring.cq[0].userData;
            var t := After(s, Handle).value.ring;
            (key != IGNORE_KEY && key !in t.entries && Outstanding(t, key) > 0) <==> Hazard(s.ring)
  {
    ReapIsSafe(s.ring);
    if Hazard(s.ring) {
      OutstandingAfterReap(s.ring);
    } else if s.ring.cq[0].userData != IGNORE_KEY {
      HandleKeeps(s);
      OutstandingIsAwaited(After(s, Handle).value, s.ring.cq[0].userData);
    }
  }

  lemma OutstandingAfterReap(s: State)
    requires Inv(s) && Hazard(s) && Reap(s).Some?
    ensures s.cq[0].userData !in Reap(s).value.entries && Outstanding(Reap(s).value, s.cq[0].userData) == 1
  {
    var key := s.cq[0].userData;
    assert CqeBelongs(AwaitingKeys(s.entries), s.cq[0]);
    assert Outstanding(s, key) == Expected(AwaitingKeys(s.entries), s.detached, key);
    EarlyIsNotCounted(s, Reap(s).value, key);
  }

  lemma EarlyIsNotCounted(s: State, t: State, key: nat)
    requires s.cq != [] && s.cq[0].result.HasMore()
    requires t.sq == s.sq && t.inflight == s.inflight && t.cq == s.cq[1..]
    ensures Outstanding(t, key) == Outstanding(s, key)
  {
    FinalsFirst(s.cq);
  }

  const MORE := RingResult(1, 2)
  const LAST := RingResult(0, 0)

  /** A run goes on with one more step. */
  lemma Go(steps: seq<Step>, s: System, step: Step) returns (next: seq<Step>, t: System)
    requires Run(steps) == Running(s) && Enabled(s, step) && After(s, step).Some?
    ensures Run(next) == Running(t) && After(s, step) == Some(t)
  {
    next, t := steps + [step], After(s, step).value;
    assert next[..|steps|] == steps;
  }

  /** The kernel completes something; phase, submissions and entries stay as they are. */
  lemma Posted(steps: seq<Step>, s: System, cqe: Cqe) returns (next: seq<Step>, t: System)
    requires Run(steps) == Running(s) && CanPost(s.ring, cqe)
    ensures Run(next) == Running(t)
    ensures t.phase == s.phase && t.subs == s.subs && t.ring == Post(s.ring, cqe)
  {
    next, t := Go(steps, s, Complete(cqe));
  }

  lemma Returned(steps: seq<Step>, s: System) returns (next: seq<Step>, t: System)
    requires Run(steps) == Running(s) && s.phase.Blocked? && |s.ring.cq| >= s.phase.want >= 1
    ensures Run(next) == Running(t)
    ensures t.phase == Reaping(|s.ring.cq|) && t.subs == s.subs && t.ring == s.ring.(canceled := 0)
  {
    next, t := Go(steps, s, Return);
  }

  lemma OneSubmitted(sqe: Sqe)
    ensures RingModel.Submitted([sqe]) == multiset{sqe.userData}
  {
    assert [sqe][..0] == [];
  }

  /** Where the run stands: the phase, submission 0, and the ring without its history. */
  ghost predicate At(s: System, phase: Phase, sub: Sub, m: Entries, active: int, detached: int, canceled: int) {
    && s.phase == phase && 0 in s.subs && s.subs[0] == sub
    && s.ring.entries == m
    && s.ring.active == active && s.ring.detached == detached && s.ring.canceled == canceled
  }

  ghost predicate Queues(s: System, sq: seq<Sqe>, inflight: multiset<nat>, cq: seq<Cqe>) {
    s.ring.sq == sq && s.ring.inflight == inflight && s.ring.cq == cq
  }

  const WAITING := Sub(Submitted(0), 0, [], false)
  const GIVEN_UP := Sub(Submitted(0), 1, [], true)

  lemma Started() returns (steps: seq<Step>, s: System)
    ensures Run(steps) == Running(s)
    ensures At(s, Idle, WAITING, map[0 := Open(7, [])], 1, 0, 0) && Queues(s, [OpSqe(0)], multiset{}, [])
  {
    steps, s := Go([], START, New(0));
    steps, s := Go(steps, s, First(0, 7, 0));
  }

  lemma Flushed() returns (steps: seq<Step>, s: System)
    ensures Run(steps) == Running(s)
    ensures At(s, Blocked(1), WAITING, map[0 := Open(7, [])], 1, 0, 0) && Queues(s, [], multiset{0}, [])
  {
    steps, s := Started();
    OneSubmitted(OpSqe(0));
    steps, s := Go(steps, s, Enter);
  }

  lemma PostedOnce() returns (steps: seq<Step>, s: System)
    ensures Run(steps) == Running(s)
    ensures At(s, Blocked(1), WAITING, map[0 := Open(7, [])], 1, 0, 0) && Queues(s, [], multiset{0}, [Cqe(0, MORE)])
  {
    steps, s := Flushed();
    assert MORE.HasMore() && [] + [Cqe(0, MORE)] == [Cqe(0, MORE)];
    steps, s := Posted(steps, s, Cqe(0, MORE));
  }

  /** A multi-shot operation is on the ring and has completed once. */
  lemma CompletedOnce() returns (steps: seq<Step>, s: System)
    ensures Run(steps) == Running(s)
    ensures At(s, Reaping(1), WAITING, map[0 := Open(7, [])], 1, 0, 0) && Queues(s, [], multiset{0}, [Cqe(0, MORE)])
  {
    steps, s := PostedOnce();
    steps, s := Returned(steps, s);
  }

  /** Its first completion has been handled. */
  lemma HandledOnce() returns (steps: seq<Step>, s: System)
    ensures Run(steps) == Running(s)
    ensures At(s, Idle, WAITING, map[0 := Open(7, [MORE])], 1, 0, 0) && Queues(s, [], multiset{0}, [])
  {
    steps, s := CompletedOnce();
    assert MORE.HasMore() && [] + [MORE] == [MORE];
    steps, s := Go(steps, s, Handle);
    assert s.ring.entries[0] == Open(7, [MORE]);
  }

  lemma TakenOnce() returns (steps: seq<Step>, s: System)
    ensures Run(steps) == Running(s)
    ensures At(s, Idle, Sub(Submitted(0), 1, [MORE], false), map[0 := Open(7, [])], 1, 0, 0)
    ensures Queues(s, [], multiset{0}, [])
  {
    steps, s := HandledOnce();
    assert MORE.HasMore() && [MORE][1..] == [] && [] + [MORE] == [MORE];
    steps, s := Go(steps, s, Await(0));
    assert s.ring.entries[0] == Open(7, []);
  }

  /**
    A future that is given a result announcing another one takes its operation and stays submitted;
    dropping it then takes the operation a second time.
  */
  lemma FutureTakesTwice()
    ensures exists steps, id ::
              Run(steps).Running? && id in Run(steps).s.subs && Run(steps).s.subs[id].taken == 2
  {
    var steps, s := TakenOnce();
    steps, s := Go(steps, s, Forget(0, true));
    assert s.subs[0].taken == 2;
  }

  lemma GivenUpTooEarly() returns (steps: seq<Step>, s: System)
    ensures Run(steps) == Running(s)
    ensures At(s, Idle, GIVEN_UP, map[0 := Dropped(0)], 1, 1, 1)
    ensures Queues(s, [AsyncCancel(IGNORE_KEY, 0, 0)], multiset{0}, [])
  {
    steps, s := HandledOnce();
    steps, s := Go(steps, s, Forget(0, true));
  }

  lemma CancelFlushed() returns (steps: seq<Step>, s: System)
    ensures Run(steps) == Running(s)
    ensures At(s, Blocked(2), GIVEN_UP, map[0 := Dropped(0)], 1, 1, 1)
    ensures Queues(s, [], multiset{0, IGNORE_KEY}, [])
  {
    steps, s := GivenUpTooEarly();
    OneSubmitted(AsyncCancel(IGNORE_KEY, 0, 0));
    steps, s := Go(steps, s, Enter);
  }

  /** Before the cancel entry takes effect, the kernel completes the operation early once more. */
  lemma EarlyPosted() returns (steps: seq<Step>, s: System)
    ensures Run(steps) == Running(s)
    ensures At(s, Blocked(2), GIVEN_UP, map[0 := Dropped(0)], 1, 1, 1)
    ensures Queues(s, [], multiset{0, IGNORE_KEY}, [Cqe(0, MORE)])
  {
    steps, s := CancelFlushed();
    assert MORE.HasMore() && [] + [Cqe(0, MORE)] == [Cqe(0, MORE)];
    steps, s := Posted(steps, s, Cqe(0, MORE));
  }

  lemma BothPosted() returns (steps: seq<Step>, s: System)
    ensures Run(steps) == Running(s)
    ensures At(s, Blocked(2), GIVEN_UP, map[0 := Dropped(0)], 1, 1, 1)
    ensures Queues(s, [], multiset{0}, [Cqe(0, MORE), Cqe(IGNORE_KEY, LAST)])
  {
    steps, s := EarlyPosted();
    assert !LAST.HasMore() && multiset{0, IGNORE_KEY} - multiset{IGNORE_KEY} == multiset{0};
    assert [Cqe(0, MORE)] + [Cqe(IGNORE_KEY, LAST)] == [Cqe(0, MORE), Cqe(IGNORE_KEY, LAST)];
    steps, s := Posted(steps, s, Cqe(IGNORE_KEY, LAST));
  }

  lemma CompletedEarly() returns (steps: seq<Step>, s: System)
    ensures Run(steps) == Running(s)
    ensures At(s, Reaping(2), GIVEN_UP, map[0 := Dropped(0)], 1, 1, 0)
    ensures Queues(s, [], multiset{0}, [Cqe(0, MORE), Cqe(IGNORE_KEY, LAST)])
  {
    steps, s := BothPosted();
    steps, s := Returned(steps, s);
  }

  lemma ReapsEarly(s: State)
    requires s.entries == map[0 := Dropped(0)] && s.cq == [Cqe(0, MORE), Cqe(IGNORE_KEY, LAST)]
    ensures Reap(s) == Some(s.(entries := map[], cq := [Cqe(IGNORE_KEY, LAST)],
                               effects := s.effects + [Consume(0, MORE), DropRaw(0)]))
  {
    assert MORE.HasMore();
  }

  /** That completion frees the key, while the operation is still in flight. */
  lemma FreedTooEarly() returns (steps: seq<Step>, s: System)
    ensures Run(steps) == Running(s)
    ensures At(s, Reaping(1), GIVEN_UP, map[], 1, 1, 0) && Queues(s, [], multiset{0}, [Cqe(IGNORE_KEY, LAST)])
  {
    steps, s := CompletedEarly();
    ReapsEarly(s.ring);
    steps, s := Go(steps, s, Handle);
  }

  lemma BatchHandled() returns (steps: seq<Step>, s: System)
    ensures Run(steps) == Running(s)
    ensures At(s, Idle, GIVEN_UP, map[], 1, 0, 0) && Queues(s, [], multiset{0}, [])
  {
    steps, s := FreedTooEarly();
    steps, s := Go(steps, s, Handle);
  }

  lemma WaitsAgain() returns (steps: seq<Step>, s: System)
    ensures Run(steps) == Running(s)
    ensures At(s, Blocked(1), GIVEN_UP, map[], 1, 0, 0) && Queues(s, [], multiset{0}, [])
  {
    steps, s := BatchHandled();
    steps, s := Go(steps, s, Enter);
  }

  lemma LastCompletion() returns (steps: seq<Step>, s: System)
    ensures Run(steps) == Running(s)
    ensures At(s, Reaping(1), GIVEN_UP, map[], 1, 0, 0) && Queues(s, [], multiset{}, [Cqe(0, LAST)])
  {
    steps, s := WaitsAgain();
    assert !LAST.HasMore();
    steps, s := Posted(steps, s, Cqe(0, LAST));
    steps, s := Returned(steps, s);
  }

  /** A dropped multi-shot operation: the final completion finds no entry, and the runtime panics. */
  lemma CancelledMultishotPanics()
    ensures exists steps :: Run(steps).Panicked?
  {
    var steps, s := LastCompletion();
    assert Enabled(s, Handle) && After(s, Handle) == None;
    var all := steps + [Handle];
    assert all[..|steps|] == steps;
    assert Run(all).Panicked?;
  }
}
