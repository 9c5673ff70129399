/** What holds in every run of submissions, ring and kernel, and exactly when it stops holding. */
module Runs {
  import opened Common
  import opened CompletionModel
  import opened RingModel
  import opened SubmissionModel
  import opened Runtime
  import WaitModel

  // ---- one step ----

  lemma QueueIsEmptyFor(s: State, key: Key)
    requires Inv(s) && key != IGNORE_KEY && key !in AwaitingKeys(s.entries)
    ensures QueuedFor(s.cq, key) == []
  {
    forall i | 0 <= i < |s.cq| ensures s.cq[i].userData != key {
      assert CqeBelongs(AwaitingKeys(s.entries), s.cq[i]);
    }
    QueuedAbsent(s.cq, key);
  }

  lemma EntryIsReady(s: State, key: Key)
    requires Inv(s) && key in s.entries
    ensures EntryReady(s.entries[key], QueuedFor(s.cq, key)) && key < KEY_LIMIT
  {
    if s.entries[key].Closed? {
      QueueIsEmptyFor(s, key);
    }
  }

  /** After the final completion of a key, none follows for it. */
  lemma NothingAfterFinal(s: State)
    requires Inv(s) && s.cq != [] && s.cq[0].userData != IGNORE_KEY && !s.cq[0].result.HasMore()
    ensures QueuedFor(s.cq[1..], s.cq[0].userData) == []
  {
    var rest := s.cq[1..];
    forall i | 0 <= i < |rest| ensures rest[i].userData != s.cq[0].userData {
      assert rest[i] == s.cq[i + 1] && AnnouncesNext(s.cq, 0, i + 1);
    }
    QueuedAbsent(rest, s.cq[0].userData);
  }

  lemma ClientStepKeeps(s: System, step: Step)
    requires SysInv(s) && Enabled(s, step) && !Hazardous(s, step)
    requires step.New? || step.First? || step.Detach?
    ensures After(s, step).Some? && SysInv(After(s, step).value)
  {
    match step {
      case New(id) =>
        NewLinks(s, id);
      case First(id, waker, key) =>
        SubmitKeeps(s.ring, waker, key);
        QueueIsEmptyFor(s.ring, key);
        FirstLinks(s, id, waker, key);
      case Detach =>
        SubmitDetachedKeeps(s.ring);
        QuietStep(s, After(s, step).value);
    }
  }

  /** Without the hazard, polling a future and polling a stream come to the same. */
  lemma PollShape(s: System, step: Step)
    requires Enabled(s, step) && !Hazardous(s, step) && (step.Await? || step.Next?)
    requires s.subs[step.id].stage.Submitted? && Knows(PairOf(s, step.id))
    ensures var key := s.subs[step.id].stage.key;
            After(s, step) ==
            Some(With(s, step.id, Pair(AfterPollNext(s.subs[step.id], NextResult(s.ring.entries[key])),
                                       CheckResult(s.ring, key))))
  {
  }

  lemma PollOnRing(s: System, id: Id, t: System)
    requires SysInv(s) && s.phase == Idle && Alive(s, id) && s.subs[id].stage.Submitted? && Knows(PairOf(s, id))
    requires var key := s.subs[id].stage.key;
             t == With(s, id, Pair(AfterPollNext(s.subs[id], NextResult(s.ring.entries[key])),
                                   CheckResult(s.ring, key)))
    ensures SysInv(t)
  {
    var key := s.subs[id].stage.key;
    EntryIsReady(s.ring, key);
    CheckResultKeeps(s.ring, key);
    PolledLinks(s, id, AfterPollNext(s.subs[id], NextResult(s.ring.entries[key])), t);
  }

  lemma PollStepKeeps(s: System, step: Step)
    requires SysInv(s) && Enabled(s, step) && !Hazardous(s, step)
    requires step.Await? || step.Next?
    ensures After(s, step).Some? && SysInv(After(s, step).value)
  {
    if s.subs[step.id].stage.Submitted? {
      TakeHeld(s, step.id);
      PollShape(s, step);
      PollOnRing(s, step.id, After(s, step).value);
    } else {
      assert s.subs[step.id := s.subs[step.id]] == s.subs;
      assert After(s, step) == Some(s);
    }
  }

  lemma ForgetStepKeeps(s: System, id: Id, withEntry: bool)
    requires SysInv(s) && Enabled(s, Forget(id, withEntry))
    ensures After(s, Forget(id, withEntry)).Some? && SysInv(After(s, Forget(id, withEntry)).value)
  {
    if s.subs[id].stage.Submitted? {
      var key := s.subs[id].stage.key;
      TakeHeld(s, id);
      EntryIsReady(s.ring, key);
      CancelKeeps(s.ring, key, withEntry, id);
      ForgetLinks(s, id, withEntry);
    } else {
      ForgetOffRing(s, id, withEntry);
    }
  }

  lemma EnterKeeps(s: System)
    requires SysInv(s) && Enabled(s, Enter)
    ensures SysInv(After(s, Enter).value)
  {
    FlushKeeps(s.ring);
    WaitModel.WantIsBounded(s.ring);
    WaitModel.TotalIsCounted(s.ring);
    QuietStep(s, After(s, Enter).value);
  }

  lemma CompleteKeeps(s: System, cqe: Cqe)
    requires SysInv(s) && Enabled(s, Complete(cqe))
    ensures SysInv(After(s, Complete(cqe)).value)
  {
    PostKeeps(s.ring, cqe);
    assert Outstanding(s.ring, cqe.userData) >= 1;
    if cqe.userData in s.ring.entries {
      CompleteLinks(s, cqe);
    } else {
      CompleteIgnored(s, cqe);
    }
  }

  lemma ReturnKeeps(s: System)
    requires SysInv(s) && Enabled(s, Return)
    ensures SysInv(After(s, Return).value)
  {
    var t := After(s, Return).value;
    assert forall u: nat :: Outstanding(t.ring, u) == Outstanding(s.ring, u);
    QuietStep(s, t);
  }

  lemma HandleKeeps(s: System)
    requires SysInv(s) && Enabled(s, Handle) && !Hazard(s.ring)
    ensures After(s, Handle).Some? && SysInv(After(s, Handle).value)
  {
    ReapIsSafe(s.ring);
    ReapKeeps(s.ring);
    if s.ring.cq[0].userData == IGNORE_KEY {
      HandleIgnored(s);
    } else {
      if !s.ring.cq[0].result.HasMore() {
        NothingAfterFinal(s.ring);
      }
      HandleLinks(s);
    }
  }

  lemma StepKeeps(s: System, step: Step)
    requires SysInv(s) && Enabled(s, step) && !Hazardous(s, step)
    ensures After(s, step).Some? && SysInv(After(s, step).value)
  {
    match step {
      case Await(_) => PollStepKeeps(s, step);
      case Next(_) => PollStepKeeps(s, step);
      case Forget(id, withEntry) => ForgetStepKeeps(s, id, withEntry);
      case Enter => EnterKeeps(s);
      case Complete(cqe) => CompleteKeeps(s, cqe);
      case Return => ReturnKeeps(s);
      case Handle => HandleKeeps(s);
      case _ => ClientStepKeeps(s, step);
    }
  }

  lemma TakenTooEarly(s: System, id: Id, t: System)
    requires Enabled(s, Await(id)) && Hazardous(s, Await(id)) && After(s, Await(id)) == Some(t)
    ensures id in t.subs && t.subs[id].taken > 0 && !t.subs[id].gone && !t.subs[id].stage.Completed?
  {
  }

  lemma TakenBreaks(s: System, id: Id)
    requires id in s.subs && s.subs[id].taken > 0 && !s.subs[id].gone && !s.subs[id].stage.Completed?
    ensures !ClientInv(s)
  {
    assert ClientInv(s) ==> IdOk(s, id);
  }

  /**
    A step that the caller and the kernel may take keeps the runtime in order if and only if it is
    not one of the two hazards: an early completion handled for a cancelled key, and a future that
    is given a result announcing another one.
  */
  lemma StepKeepsExactly(s: System, step: Step)
    requires SysInv(s) && Enabled(s, step)
    ensures (After(s, step).Some? && SysInv(After(s, step).value)) <==> !Hazardous(s, step)
  {
    if !Hazardous(s, step) {
      StepKeeps(s, step);
    } else if step.Handle? {
      ReapKeepsExactly(s.ring);
    } else {
      var t := After(s, step).value;
      TakenTooEarly(s, step.id, t);
      TakenBreaks(t, step.id);
    }
  }

  // ---- whole runs ----

  datatype Outcome = Running(s: System) | Panicked | Impossible

  /** Where a run leads, starting with no submission on an idle ring. */
  function Run(steps: seq<Step>): Outcome {
    if steps == [] then Running(START)
    else
      match Run(steps[..|steps| - 1])
      case Running(s) =>
        var step := steps[|steps| - 1];
        if !Enabled(s, step) then Impossible
        else
          (match After(s, step)
           case None => Panicked
           case Some(t) => Running(t))
      case other => other
  }

  /** No step of the run is one of the two hazards. */
  predicate Calm(steps: seq<Step>) {
    steps == [] ||
    (Calm(steps[..|steps| - 1]) &&
     match Run(steps[..|steps| - 1])
     case Running(s) => Enabled(s, steps[|steps| - 1]) ==> !Hazardous(s, steps[|steps| - 1])
     case _ => true)
  }

  lemma StartIsSound()
    ensures SysInv(START)
  {
    WaitModel.InitialInv();
  }

  /** No calm run panics, and the invariant holds wherever one leads. */
  lemma {:induction false} CalmRunsAreSound(steps: seq<Step>)
    requires Calm(steps)
    ensures !Run(steps).Panicked?
    ensures Run(steps).Running? ==> SysInv(Run(steps).s)
  {
    if steps == [] {
      StartIsSound();
    } else {
      var front := steps[..|steps| - 1];
      CalmRunsAreSound(front);
      if Run(front).Running? && Enabled(Run(front).s, steps[|steps| - 1]) {
        StepKeeps(Run(front).s, steps[|steps| - 1]);
      }
    }
  }

  /** The kernel completes every submission of the run with a single completion. */
  predicate SingleShot(steps: seq<Step>) {
    forall i :: 0 <= i < |steps| && steps[i].Complete? ==> !steps[i].cqe.result.HasMore()
  }

  ghost predicate NoMore(s: State) {
    && (forall i :: 0 <= i < |s.cq| ==> !s.cq[i].result.HasMore())
    && (forall k :: k in s.entries && !s.entries[k].Dropped? ==>
          forall i :: 0 <= i < |s.entries[k].results| ==> !s.entries[k].results[i].HasMore())
  }

  lemma SingleShotStep(s: System, step: Step)
    requires NoMore(s.ring) && Enabled(s, step)
    requires step.Complete? ==> !step.cqe.result.HasMore()
    ensures !Hazardous(s, step)
    ensures After(s, step).Some? ==> NoMore(After(s, step).value.ring)
  {
    match step {
      case Await(id) => SingleShotPoll(s, step, id);
      case Next(id) => SingleShotPoll(s, step, id);
      case Forget(id, withEntry) => SingleShotDrop(s, id, withEntry);
      case Handle => SingleShotReap(s);
      case _ =>
    }
  }

  lemma SingleShotPoll(s: System, step: Step, id: Id)
    requires NoMore(s.ring) && Enabled(s, step) && (step == Await(id) || step == Next(id))
    ensures !Hazardous(s, step)
    ensures After(s, step).Some? ==> NoMore(After(s, step).value.ring)
  {
  }

  lemma SingleShotDrop(s: System, id: Id, withEntry: bool)
    requires NoMore(s.ring) && Enabled(s, Forget(id, withEntry))
    ensures After(s, Forget(id, withEntry)).Some? ==> NoMore(After(s, Forget(id, withEntry)).value.ring)
  {
  }

  lemma SingleShotReap(s: System)
    requires NoMore(s.ring) && Enabled(s, Handle)
    ensures !Hazardous(s, Handle)
    ensures After(s, Handle).Some? ==> NoMore(After(s, Handle).value.ring)
  {
  }

  /** Without multi-shot operations neither hazard can arise, so every run is sound. */
  lemma {:induction false} SingleShotRunsAreCalm(steps: seq<Step>)
    requires SingleShot(steps)
    ensures Calm(steps)
    ensures Run(steps).Running? ==> NoMore(Run(steps).s.ring)
  {
    if steps != [] {
      var front := steps[..|steps| - 1];
      SingleShotRunsAreCalm(front);
      if Run(front).Running? && Enabled(Run(front).s, steps[|steps| - 1]) {
        SingleShotStep(Run(front).s, steps[|steps| - 1]);
      }
    }
  }

  // ---- what the invariant says ----

  /**
    Exactly-once, in-order delivery. What the kernel completed for a submission is what the
    submission was given, then what its cancellation consumed, then what its entry stores, then what
    waits to be reaped.
  */
  lemma Delivered(steps: seq<Step>, id: Id)
    requires Calm(steps) && Run(steps).Running? && id in Run(steps).s.subs
    ensures var s := Run(steps).s;
            id in s.posted &&
            s.posted[id] == s.subs[id].got + ConsumedBy(s.ring.effects, id) + Held(s, id)
    ensures var s := Run(steps).s;
            Alive(s, id) ==> ConsumedBy(s.ring.effects, id) == []
  {
    CalmRunsAreSound(steps);
    assert IdOk(Run(steps).s, id);
  }

  /**
    Linear ownership. The operation is used up at most once, and exactly when its submission
    completed or was dropped. Its cancellation is dropped at most once, exactly when a submission
    dropped on the ring has left it, and then everything posted has been delivered and ended with
    the final completion.
  */
  lemma OwnedOnce(steps: seq<Step>, id: Id)
    requires Calm(steps) && Run(steps).Running? && id in Run(steps).s.subs
    ensures var s := Run(steps).s;
            var sub := s.subs[id];
            var drops := DropsOf(s.ring.effects, id);
            && id in s.posted
            && sub.taken <= 1
            && (sub.taken == 1 <==> sub.gone || sub.stage.Completed?)
            && drops <= 1
            && (drops == 1 <==> sub.gone && sub.stage.Submitted? && !Live(s, id))
            && (drops == 1 ==> EndsFinal(s.posted[id]) &&
                               s.posted[id] == sub.got + ConsumedBy(s.ring.effects, id))
  {
    CalmRunsAreSound(steps);
    var s := Run(steps).s;
    assert IdOk(s, id);
    var all := s.subs[id].got + ConsumedBy(s.ring.effects, id);
    assert all + [] == all;
  }

  /** Once the ring holds no entry, every submission has had all it will ever get, and lost its operation. */
  lemma DrainedIsSettled(steps: seq<Step>, id: Id)
    requires Calm(steps) && Run(steps).Running? && id in Run(steps).s.subs
    requires Run(steps).s.ring.entries == map[] && Run(steps).s.subs[id].stage != Initial
    ensures var s := Run(steps).s;
            && s.subs[id].taken == 1
            && id in s.posted && EndsFinal(s.posted[id])
            && s.posted[id] == s.subs[id].got + ConsumedBy(s.ring.effects, id)
            && DropsOf(s.ring.effects, id) == (if s.subs[id].stage.Submitted? then 1 else 0)
  {
    CalmRunsAreSound(steps);
    var s := Run(steps).s;
    assert IdOk(s, id);
    var all := s.subs[id].got + ConsumedBy(s.ring.effects, id);
    assert all + [] == all;
  }

  /** The key belongs to a submission on the ring, or given up there, that awaits a completion. */
  predicate AwaitedByOwner(s: System, key: Key) {
    && key in s.ring.entries && !s.ring.entries[key].Closed?
    && key in s.owner && Live(s, s.owner[key]) && s.subs[s.owner[key]].stage == Submitted(key)
  }

  lemma OutstandingIsAwaited(s: System, u: nat)
    requires SysInv(s) && u != IGNORE_KEY
    ensures Outstanding(s.ring, u) <= 1 && (Outstanding(s.ring, u) == 1 <==> AwaitedByOwner(s, u))
  {
    assert Outstanding(s.ring, u) == Expected(AwaitingKeys(s.ring.entries), s.ring.detached, u);
    if u in s.ring.entries {
      assert KeyOk(s, u);
    }
  }

  /**
    Key safety. A submission still on the ring owns its key alone; no key is the one detached
    submissions use; every completion waiting to be reaped is for a detached submission or
    for a key whose owner still awaits it; and whatever is queued, in flight or finally completed
    and not reaped is so once, for a key whose owner awaits it: no key is freed before that.
  */
  lemma KeysAreSafe(steps: seq<Step>)
    requires Calm(steps) && Run(steps).Running?
    ensures var s := Run(steps).s;
            && (forall a, b :: Live(s, a) && Live(s, b) && s.subs[a].stage.key == s.subs[b].stage.key ==> a == b)
            && (forall a :: Live(s, a) ==> s.subs[a].stage.key != IGNORE_KEY)
            && (forall a :: Alive(s, a) && s.subs[a].stage.Submitted? ==> Live(s, a))
    ensures var s := Run(steps).s;
            forall i :: 0 <= i < |s.ring.cq| && s.ring.cq[i].userData != IGNORE_KEY ==>
              exists a :: Live(s, a) && s.subs[a].stage.key == s.ring.cq[i].userData &&
                          !s.ring.entries[s.ring.cq[i].userData].Closed?
    ensures var s := Run(steps).s;
            forall u: nat :: u != IGNORE_KEY ==>
              Outstanding(s.ring, u) <= 1 && (Outstanding(s.ring, u) == 1 <==> AwaitedByOwner(s, u))
  {
    CalmRunsAreSound(steps);
    var s := Run(steps).s;
    forall u: nat | u != IGNORE_KEY
      ensures Outstanding(s.ring, u) <= 1 && (Outstanding(s.ring, u) == 1 <==> AwaitedByOwner(s, u))
    {
      OutstandingIsAwaited(s, u);
    }
    forall a | Alive(s, a) && s.subs[a].stage.Submitted? ensures Live(s, a) {
      assert IdOk(s, a);
    }
    forall i | 0 <= i < |s.ring.cq| && s.ring.cq[i].userData != IGNORE_KEY
      ensures exists a :: Live(s, a) && s.subs[a].stage.key == s.ring.cq[i].userData &&
                          !s.ring.entries[s.ring.cq[i].userData].Closed?
    {
      var key := s.ring.cq[i].userData;
      assert CqeBelongs(AwaitingKeys(s.ring.entries), s.ring.cq[i]);
      assert KeyOk(s, key);
      assert Live(s, s.owner[key]);
    }
  }

  /**
    A cancel entry never reaches a newer operation: whenever the kernel takes the submission queue,
    the key named by a cancel entry still belongs to the dropped submission it was pushed for.
  */
  lemma CancelFindsItsTarget(steps: seq<Step>, i: nat)
    requires Calm(steps) && Run(steps).Running?
    requires i < |Run(steps).s.ring.sq| && Run(steps).s.ring.sq[i].AsyncCancel?
    ensures var s := Run(steps).s;
            var sqe := s.ring.sq[i];
            && sqe.target in s.ring.entries && s.ring.entries[sqe.target] == Dropped(sqe.cancel)
            && sqe.target in s.owner && s.owner[sqe.target] == sqe.cancel
            && sqe.cancel in s.subs && s.subs[sqe.cancel].gone && Live(s, sqe.cancel)
            && s.phase == Idle
  {
    CalmRunsAreSound(steps);
    var s := Run(steps).s;
    assert CancelBelongs(s.ring.entries, s.ring.sq[i]);
    assert KeyOk(s, s.ring.sq[i].target);
  }

  /** The counters: how many keys await a completion, and how many detached submissions are out. */
  lemma CountersAreExact(steps: seq<Step>)
    requires Calm(steps) && Run(steps).Running?
    ensures var s := Run(steps).s.ring;
            && s.active == |AwaitingKeys(s.entries)|
            && s.detached == Outstanding(s, IGNORE_KEY)
            && s.active + s.detached == WaitModel.Total(s)
            && (Run(steps).s.phase == Idle ==> s.canceled <= s.active && s.canceled <= s.detached)
  {
    CalmRunsAreSound(steps);
    var s := Run(steps).s.ring;
    assert Outstanding(s, IGNORE_KEY) == Expected(AwaitingKeys(s.entries), s.detached, IGNORE_KEY);
    WaitModel.TotalIsCounted(s);
    if Run(steps).s.phase == Idle {
      WaitModel.CanceledIsBounded(s);
    }
  }

  /** A blocked run is never stuck: the ring can return, or the kernel has something to complete. */
  lemma BlockedRunsCanGoOn(steps: seq<Step>)
    requires Calm(steps) && Run(steps).Running? && Run(steps).s.phase.Blocked?
    ensures Enabled(Run(steps).s, Return) || Run(steps).s.ring.inflight != multiset{}
  {
    CalmRunsAreSound(steps);
    BlockedCanGoOn(Run(steps).s);
  }

  lemma BlockedCanGoOn(s: System)
    requires SysInv(s) && s.phase.Blocked?
    ensures Enabled(s, Return) || s.ring.inflight != multiset{}
  {
    if |s.ring.cq| < s.phase.want {
      WaitModel.MoreIsInFlight(s.ring, s.phase.want);
    }
  }

  // ---- a call of the ring's wait is such a run ----

  /** Where steps lead from a given state; None if one is not enabled, or panics. */
  function From(s: System, steps: seq<Step>): Option<System> {
    if steps == [] then Some(s)
    else
      match From(s, steps[..|steps| - 1])
      case None => None
      case Some(t) => if Enabled(t, steps[|steps| - 1]) then After(t, steps[|steps| - 1]) else None
  }

  lemma OneMore(s: System, steps: seq<Step>, t: System, step: Step) returns (next: seq<Step>)
    requires From(s, steps) == Some(t) && Enabled(t, step)
    ensures From(s, next) == After(t, step)
  {
    next := steps + [step];
    assert next[..|steps|] == steps;
  }

  /** The kernel completes a list of entries, one step each. */
  lemma {:induction false} CompletesAll(s: System, before: seq<Step>, b: System, moves: seq<Cqe>)
    returns (steps: seq<Step>, t: System)
    requires From(s, before) == Some(b) && WaitModel.CanPostAll(b.ring, moves)
    ensures From(s, steps) == Some(t)
    ensures t.ring == WaitModel.PostAll(b.ring, moves) && t.phase == b.phase && t.subs == b.subs
  {
    if moves == [] {
      steps, t := before, b;
    } else {
      var last := |moves| - 1;
      var front, u := CompletesAll(s, before, b, moves[..last]);
      steps := OneMore(s, front, u, Complete(moves[last]));
      t := After(u, Complete(moves[last])).value;
    }
  }

  /** The ring handles n entries, one step each. */
  lemma {:induction false} HandlesAll(s: System, before: seq<Step>, b: System, n: nat)
    returns (steps: seq<Step>, t: System)
    requires From(s, before) == Some(b) && b.phase.Reaping? && n <= b.phase.left == |b.ring.cq|
    requires WaitModel.ReapN(b.ring, n).Some?
    ensures From(s, steps) == Some(t)
    ensures WaitModel.ReapN(b.ring, n) == Some(t.ring) && t.subs == b.subs
    ensures t.phase == if n == 0 then b.phase else if n == b.phase.left then Idle else Reaping(b.phase.left - n)
  {
    if n == 0 {
      steps, t := before, b;
    } else {
      var front, u := HandlesAll(s, before, b, n - 1);
      steps := OneMore(s, front, u, Handle);
      t := After(u, Handle).value;
    }
  }

  /**
    The state a wait leaves the ring in, as the ring's own method promises it, is reached by entering
    the kernel, completing the same entries, returning, and handling everything in the queue.
  */
  lemma WaitIsARun(s: System, moves: seq<Cqe>) returns (steps: seq<Step>, t: System)
    requires SysInv(s) && s.phase == Idle && s.ring.active + s.ring.detached != 0
    requires WaitModel.CanWait(s.ring, moves)
    requires WaitModel.ReapN(WaitModel.Awake(s.ring, moves), |WaitModel.Awake(s.ring, moves).cq|).Some?
    ensures From(s, steps) == Some(t) && t.phase == Idle && t.subs == s.subs
    ensures Some(t.ring) ==
            WaitModel.ReapN(WaitModel.Awake(s.ring, moves), |WaitModel.Awake(s.ring, moves).cq|)
  {
    var awake := WaitModel.Awake(s.ring, moves);
    WaitModel.AwakeKeeps(s.ring, moves);
    WaitModel.WantIsBounded(s.ring);
    steps := OneMore(s, [], s, Enter);
    t := After(s, Enter).value;
    WaitModel.PostAllShape(t.ring, moves);
    steps, t := CompletesAll(s, steps, t, moves);
    assert t.phase == Blocked(Want(s.ring)) && t.ring.cq == s.ring.cq + moves;
    steps := OneMore(s, steps, t, Return);
    t := After(t, Return).value;
    assert t.ring == awake;
    steps, t := HandlesAll(s, steps, t, |awake.cq|);
  }
}
