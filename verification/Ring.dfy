/** The ring: submissions, cancellations, waiting, and the registers of slots, updated in place. */
module Rings {
  import opened Common
  import opened CompletionModel
  import opened Completions
  import opened Register
  import RingModel
  import WaitModel
  import WaitProgress

  class Ring {
    var active: nat
    var detached: nat
    var canceled: nat
    const completions: CompletionSet
    const directFiles: SlotRegister
    const fixedBuffers: SlotRegister
    const bufferGroups: SlotRegister

    // the io_uring instance: its two queues, and what the kernel works on
    var sq: seq<RingModel.Sqe>
    var inflight: multiset<nat>
    var cq: seq<RingModel.Cqe>

    ghost function State(): RingModel.State
      requires completions.Valid()
      reads this, completions, completions.pool
    {
      RingModel.State(completions.View(), active, detached, canceled, sq, inflight, cq, completions.effects)
    }

    ghost predicate Valid()
      reads this, completions, completions.pool
    {
      completions.Valid() && RingModel.IdleInv(State())
    }

    ghost predicate RegistersValid()
      reads directFiles, fixedBuffers, bufferGroups
    {
      && directFiles != fixedBuffers && fixedBuffers != bufferGroups && bufferGroups != directFiles
      && directFiles.Valid() && fixedBuffers.Valid() && bufferGroups.Valid()
    }

    constructor (manualDirectFiles: nat, buffers: nat, groups: nat)
      ensures Valid() && RegistersValid()
      ensures State() == RingModel.INITIAL
      ensures directFiles.size == manualDirectFiles && fixedBuffers.size == buffers && bufferGroups.size == groups
      ensures directFiles.Held() == {} && fixedBuffers.Held() == {} && bufferGroups.Held() == {}
      ensures fresh(completions) && fresh(completions.pool)
    {
      active, detached, canceled := 0, 0, 0;
      sq, inflight, cq := [], multiset{}, [];
      completions := new CompletionSet();
      directFiles := new SlotRegister(manualDirectFiles);
      fixedBuffers := new SlotRegister(buffers);
      bufferGroups := new SlotRegister(groups);
      new;
      WaitModel.InitialInv();
    }

    /** True exactly at quiescence: nothing outstanding, nothing unclaimed, no slot held. */
    method IsDone() returns (done: bool)
      requires Valid() && RegistersValid()
      ensures done <==>
              && WaitModel.Quiescent(State())
              && directFiles.Held() == {} && fixedBuffers.Held() == {} && bufferGroups.Held() == {}
    {
      WaitModel.CountersDecideQuiescence(State());
      var empty := completions.IsEmpty();
      var files := directFiles.IsFull();
      var buffers := fixedBuffers.IsFull();
      var groups := bufferGroups.IsFull();
      done := active + detached == 0 && empty && files && buffers && groups;
    }

    /** `index` is the vacant slab slot picked for the new entry. */
    method Submit(waker: Waker, index: nat) returns (key: Key)
      requires Valid()
      requires index !in State().entries && index < RingModel.KEY_LIMIT
      modifies this, completions, completions.pool
      ensures Valid()
      ensures key == index
      ensures State() == RingModel.Submit(old(State()), waker, key)
    {
      RingModel.SubmitKeeps(State(), waker, index);
      key := completions.Insert(waker, index);
      sq := sq + [RingModel.OpSqe(key)];
      active := active + 1;
    }

    method SubmitDetached()
      requires Valid()
      modifies this
      ensures Valid()
      ensures State() == RingModel.SubmitDetached(old(State()))
    {
      RingModel.SubmitDetachedKeeps(State());
      sq := sq + [RingModel.OpSqe(RingModel.IGNORE_KEY)];
      detached := detached + 1;
    }

    /** `withEntry` tells whether the operation has a cancel entry to push. */
    method Cancel(key: Key, withEntry: bool, cancel: Cancellation)
      requires Valid()
      requires key in State().entries && !State().entries[key].Dropped?
      modifies this, completions, completions.pool
      ensures Valid()
      ensures State() == RingModel.Cancel(old(State()), key, withEntry, cancel)
    {
      ghost var before := State();
      RingModel.CancelKeeps(before, key, withEntry, cancel);
      var waiting := completions.Cancel(key, cancel);
      if !waiting {
        assert State() == RingModel.Cancel(before, key, withEntry, cancel);
        return;
      }
      if withEntry {
        sq := sq + [RingModel.AsyncCancel(RingModel.IGNORE_KEY, key, cancel)];
        detached := detached + 1;
        canceled := canceled + 1;
      }
      assert State() == RingModel.Cancel(before, key, withEntry, cancel);
    }

    method CheckResult(key: Key) returns (result: Option<RingResult>)
      requires Valid()
      requires key in State().entries
      modifies this, completions, completions.pool
      ensures Valid()
      ensures result == NextResult(old(State()).entries[key])
      ensures State() == RingModel.CheckResult(old(State()), key)
    {
      RingModel.CheckResultKeeps(State(), key);
      result := completions.Result(key);
    }

    /** The kernel completes something between two calls. */
    method KernelPosts(cqe: RingModel.Cqe)
      requires Valid()
      requires RingModel.CanPost(State(), cqe)
      modifies this`inflight, this`cq
      ensures Valid()
      ensures State() == RingModel.Post(old(State()), cqe)
    {
      RingModel.PostKeeps(State(), cqe);
      KernelCompletes(cqe);
    }

    /**
      `moves` is what the kernel completes while the ring is blocked. Whenever handling the queue does
      not panic, the ring is in order afterwards if and only if no early completion of a key given up
      was in the queue. A wait wakes where every wait must; and with nothing outstanding but detached
      submissions, or this round's cancellations, it leaves nothing to wait for.
    */
    method Wait(moves: seq<RingModel.Cqe>)
      requires Valid()
      requires WaitModel.CanWait(State(), moves)
      requires WaitModel.ReapN(WaitModel.Awake(State(), moves), |WaitModel.Awake(State(), moves).cq|).Some?
      modifies this, completions, completions.pool
      ensures completions.Valid() && sq == [] && cq == [] && canceled == 0
      ensures Some(State()) ==
              WaitModel.ReapN(WaitModel.Awake(old(State()), moves), |WaitModel.Awake(old(State()), moves).cq|)
      ensures Valid() <==> WaitModel.Quiet(WaitModel.Awake(old(State()), moves),
                                           |WaitModel.Awake(old(State()), moves).cq|)
      ensures WaitProgress.OpenQueued(old(State())) || WaitProgress.OnlyCancelling(old(State())) ==>
                WaitModel.Wakes(completions.effects) > WaitModel.Wakes(old(completions.effects))
      ensures WaitProgress.NothingElse(old(State())) ==>
                RingModel.AwaitingKeys(State().entries) == {} && detached == 0 && (Valid() ==> active == 0)
    {
      ghost var before, awake := State(), WaitModel.Awake(State(), moves);
      WaitModel.AwakeKeeps(before, moves);
      WaitModel.InvIsSolid(awake);
      WaitModel.ReapNKeepsExactly(awake, |awake.cq|);
      WaitModel.ReapSq(awake, |awake.cq|);
      var want := SubmitAndWait(moves);
      HandleCompletions();
      WaitProgress.WaitOutcome(before, moves, want);
    }

    /**
      Answers how many completions the kernel was asked for: the right count, which is the least one
      that makes the wait wake whatever is completed, when only this round's cancellations are silent.
    */
    method SubmitAndWait(moves: seq<RingModel.Cqe>) returns (want: int)
      requires Valid()
      requires WaitModel.CanWait(State(), moves)
      modifies this
      ensures completions.Valid()
      ensures State() == WaitModel.Awake(old(State()), moves)
      ensures old(active + detached) == 0 ==> want == 0
      ensures old(active + detached) > 0 ==>
                && WaitProgress.RightCount(old(State()), want)
                && |old(cq)| + |moves| >= want
      ensures old(active + detached) > 0 && WaitProgress.OnlyCancelling(old(State())) ==>
                && WaitProgress.MustWakeFor(old(State()), want)
                && want == |RingModel.DroppedKeys(old(State()).entries)| + old(detached) + 1
      ensures old(active + detached) > 0 && !WaitProgress.OnlyCancelling(old(State())) ==>
                want <= |RingModel.DroppedKeys(old(State()).entries)| + old(detached)
    {
      WaitModel.AwakeKeeps(State(), moves);
      if active + detached == 0 {
        return 0;
      }
      WaitProgress.WantIsRight(State());
      WaitProgress.RightCountWakes(State(), RingModel.Want(State()));
      want := if active == canceled then 2 * canceled else 1 + 2 * canceled;
      if want == 0 && detached > 0 {
        want := detached;
      }
      KernelRuns(want, moves);
      canceled := 0;
    }

    /** The kernel takes the whole submission queue and completes `moves`, until there are as many as asked for. */
    method KernelRuns(want: int, moves: seq<RingModel.Cqe>)
      requires completions.Valid()
      requires WaitModel.CanPostAll(RingModel.Flush(State()), moves) && |cq| + |moves| >= want
      modifies this`sq, this`inflight, this`cq
      ensures State() == WaitModel.PostAll(RingModel.Flush(old(State())), moves)
      ensures |cq| >= want
    {
      WaitModel.PostAllIs(RingModel.Flush(State()), moves);
      inflight := WaitModel.Remaining(inflight + RingModel.Submitted(sq), moves);
      sq, cq := [], cq + moves;
    }

    method KernelCompletes(cqe: RingModel.Cqe)
      requires completions.Valid()
      modifies this`inflight, this`cq
      ensures State() == RingModel.Post(old(State()), cqe)
    {
      if !cqe.result.HasMore() {
        inflight := inflight - multiset{cqe.userData};
      }
      cq := cq + [cqe];
    }

    method HandleCompletions()
      requires completions.Valid() && WaitModel.Solid(State())
      requires WaitModel.ReapN(State(), |cq|).Some?
      modifies this, completions, completions.pool
      ensures completions.Valid() && cq == []
      ensures Some(State()) == WaitModel.ReapN(old(State()), |old(cq)|)
    {
      ghost var start := State();
      ghost var n := 0;
      while cq != []
        invariant completions.Valid()
        invariant n + |cq| == |start.cq| && WaitModel.ReapN(start, n) == Some(State())
        decreases |cq|
      {
        HandleNext(start, n);
        n := n + 1;
      }
    }

    /** Handles the entry numbered n of a queue, after those before it. */
    method HandleNext(ghost start: RingModel.State, ghost n: nat)
      requires completions.Valid() && WaitModel.Solid(start) && n < |start.cq|
      requires WaitModel.ReapN(start, |start.cq|).Some? && WaitModel.ReapN(start, n) == Some(State())
      modifies this, completions, completions.pool
      ensures completions.Valid() && WaitModel.ReapN(start, n + 1) == Some(State())
      ensures |cq| == |start.cq| - (n + 1)
    {
      WaitModel.NextIsSafe(start, n);
      HandleCompletion();
    }

    /** Handles the oldest completion entry. */
    method HandleCompletion()
      requires completions.Valid() && WaitModel.Solid(State()) && cq != []
      requires RingModel.Reap(State()).Some?
      modifies this, completions, completions.pool
      ensures completions.Valid()
      ensures Some(State()) == RingModel.Reap(old(State()))
    {
      WaitModel.ReapStaysSolid(State());
      var entry := cq[0];
      cq := cq[1..];
      if entry.userData == RingModel.IGNORE_KEY {
        detached := detached - 1;
        return;
      }
      if !entry.result.HasMore() {
        active := active - 1;
      }
      completions.Notify(entry.userData % RingModel.KEY_LIMIT, entry.result);
    }
  }
}
