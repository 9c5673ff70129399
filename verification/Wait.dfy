/** What a wait asks of the kernel, what it reaps, and the progress it makes. */
module WaitModel {
  import opened Common
  import opened CompletionModel
  import opened RingModel

  // ---- how much is outstanding ----

  /** All submissions whose final completion has not been reaped yet. */
  function Total(s: State): nat {
    |Submitted(s.sq)| + |s.inflight| + |Finals(s.cq)|
  }

  lemma TotalIsCounted(s: State)
    requires Inv(s)
    ensures Total(s) == s.active + s.detached
  {
    var keys := AwaitingKeys(s.entries);
    var all := Submitted(s.sq) + s.inflight + Finals(s.cq);
    var awaiting: multiset<nat> := multiset(keys);
    var booked := awaiting[IGNORE_KEY := s.detached];
    assert IGNORE_KEY !in keys;
    forall u: nat ensures all[u] == booked[u] {
      assert Outstanding(s, u) == Expected(keys, s.detached, u);
    }
    assert all == booked;
    assert |awaiting| == |keys| && awaiting[IGNORE_KEY] == 0;
    assert |booked| == |awaiting| + s.detached;
  }

  /** The keys named by queued cancel entries have been given up, and canceled counts them. */
  lemma TargetsAreDropped(s: State)
    requires IdleInv(s)
    ensures Targets(s.sq) <= DroppedKeys(s.entries) <= AwaitingKeys(s.entries)
    ensures |Targets(s.sq)| == CancelCount(s.sq) == s.canceled
  {
    TargetCount(s.sq);
    forall k | k in Targets(s.sq) ensures k in DroppedKeys(s.entries) {
      var i :| 0 <= i < |s.sq| && s.sq[i].AsyncCancel? && s.sq[i].target == k;
      assert CancelBelongs(s.entries, s.sq[i]);
    }
  }

  lemma CanceledIsBounded(s: State)
    requires IdleInv(s)
    ensures s.canceled <= |DroppedKeys(s.entries)| <= s.active
    ensures s.canceled <= s.detached
  {
    TargetsAreDropped(s);
    SubsetSize(Targets(s.sq), DroppedKeys(s.entries));
    SubsetSize(DroppedKeys(s.entries), AwaitingKeys(s.entries));
    CancelsAreIgnored(s.entries, s.sq);
    assert Outstanding(s, IGNORE_KEY) == s.detached;
  }

  /** A wait never asks for nothing, and never for more completions than are outstanding. */
  lemma WantIsBounded(s: State)
    requires IdleInv(s) && s.active + s.detached > 0
    ensures 1 <= Want(s) <= Total(s)
  {
    CanceledIsBounded(s);
    TotalIsCounted(s);
  }

  /** Short of completions it was promised, the ring still has something in flight. */
  lemma MoreIsInFlight(blocked: State, want: int)
    requires Inv(blocked) && blocked.sq == []
    requires |blocked.cq| < want <= blocked.active + blocked.detached
    ensures blocked.inflight != multiset{}
  {
    TotalIsCounted(blocked);
    FinalsBounded(blocked.cq);
  }

  /** While a wait is still short of completions, the kernel has something left to complete. */
  lemma WaitCanEnd(s: State, blocked: State)
    requires IdleInv(s) && s.active + s.detached > 0
    requires Inv(blocked) && blocked.sq == []
    requires blocked.active == s.active && blocked.detached == s.detached
    requires |blocked.cq| < Want(s)
    ensures blocked.inflight != multiset{}
  {
    WantIsBounded(s);
    TotalIsCounted(s);
    MoreIsInFlight(blocked, Want(s));
  }

  // ---- the kernel during a wait ----

  predicate CanPostAll(s: State, moves: seq<Cqe>) {
    moves == [] ||
    (CanPostAll(s, moves[..|moves| - 1]) && CanPost(PostAll(s, moves[..|moves| - 1]), moves[|moves| - 1]))
  }

  function PostAll(s: State, moves: seq<Cqe>): State {
    if moves == [] then s else Post(PostAll(s, moves[..|moves| - 1]), moves[|moves| - 1])
  }

  /** What is still in flight after these completions. */
  function Remaining(inflight: multiset<nat>, moves: seq<Cqe>): multiset<nat> {
    if moves == [] then inflight
    else
      var last := moves[|moves| - 1];
      var rest := Remaining(inflight, moves[..|moves| - 1]);
      if last.result.HasMore() then rest else rest - multiset{last.userData}
  }

  lemma {:induction false} PostAllShape(s: State, moves: seq<Cqe>)
    ensures PostAll(s, moves) == s.(inflight := PostAll(s, moves).inflight, cq := s.cq + moves)
  {
    if moves == [] {
      assert s.cq + moves == s.cq;
    } else {
      var front := moves[..|moves| - 1];
      PostAllShape(s, front);
      Regroup(s.cq, moves);
    }
  }

  lemma Regroup(cq: seq<Cqe>, moves: seq<Cqe>)
    requires moves != []
    ensures cq + moves[..|moves| - 1] + [moves[|moves| - 1]] == cq + moves
  {
  }

  lemma {:induction false} PostAllIs(s: State, moves: seq<Cqe>)
    ensures PostAll(s, moves) == s.(inflight := Remaining(s.inflight, moves), cq := s.cq + moves)
  {
    PostAllShape(s, moves);
    if moves != [] {
      PostAllIs(s, moves[..|moves| - 1]);
    }
  }

  lemma {:induction false} PostAllKeeps(s: State, moves: seq<Cqe>)
    requires Inv(s) && CanPostAll(s, moves)
    ensures Inv(PostAll(s, moves))
  {
    if moves != [] {
      var front := moves[..|moves| - 1];
      PostAllKeeps(s, front);
      PostKeeps(PostAll(s, front), moves[|moves| - 1]);
    }
  }

  // ---- reaping a run of completion entries ----

  /** The state after reaping n entries; None once something has panicked. */
  function ReapN(s: State, n: nat): (r: Option<State>)
    requires n <= |s.cq|
    ensures r.Some? ==> r.value.cq == s.cq[n..]
  {
    if n == 0 then Some(s)
    else
      match ReapN(s, n - 1)
      case None => None
      case Some(t) => Reap(t)
  }

  /** No early completion of a cancelled key is among the first n entries. */
  ghost predicate Quiet(s: State, n: nat)
    requires n <= |s.cq|
  {
    forall i :: 0 <= i < n && s.cq[i].result.HasMore() ==> s.cq[i].userData !in DroppedKeys(s.entries)
  }

  function Wakes(effects: seq<Effect>): nat {
    if effects == [] then 0
    else Wakes(effects[..|effects| - 1]) + if effects[|effects| - 1].Wake? then 1 else 0
  }

  lemma WakesOfReap(effects: seq<Effect>, entry: Entry, result: RingResult)
    requires !entry.Closed?
    ensures Wakes(effects + NotifyEffects(entry, result)) == Wakes(effects) + if entry.Open? then 1 else 0
  {
    var all := effects + NotifyEffects(entry, result);
    assert all[..|all| - 1] == effects + NotifyEffects(entry, result)[..|NotifyEffects(entry, result)| - 1];
    if entry.Open? {
      assert all[..|all| - 1] == effects;
    } else {
      assert all[..|all| - 1][..|all| - 2] == effects;
    }
  }

  /** What the reaped entries between two states have in common: how many of each kind there were. */
  function Settlements(s: State, t: State): int {
    (Wakes(t.effects) - Wakes(s.effects)) + (s.detached - t.detached) +
    (|DroppedKeys(s.entries)| - |DroppedKeys(t.entries)|)
  }

  /**
    Each reaped entry is a detached submission done, a cancelled one done, or a waker called, whatever
    entry it is.
  */
  lemma ReapConserves(s: State)
    requires s.cq != [] && Reap(s).Some?
    ensures Settlements(s, Reap(s).value) == 1
    ensures DroppedKeys(Reap(s).value.entries) <= DroppedKeys(s.entries)
    ensures |s.effects| <= |Reap(s).value.effects| && s.effects == Reap(s).value.effects[..|s.effects|]
  {
    var t := Reap(s).value;
    var cqe := s.cq[0];
    if cqe.userData != IGNORE_KEY {
      var key := cqe.userData % KEY_LIMIT;
      WakesOfReap(s.effects, s.entries[key], cqe.result);
      if s.entries[key].Open? {
        assert DroppedKeys(t.entries) == DroppedKeys(s.entries);
      } else {
        assert t.entries == s.entries - {key};
        assert DroppedKeys(t.entries) == DroppedKeys(s.entries) - {key};
      }
    }
  }

  /** The same summed over a batch that does not panic, early completions or not. */
  lemma {:induction false} ReapNConserves(s: State, n: nat)
    requires n <= |s.cq| && ReapN(s, n).Some?
    ensures Settlements(s, ReapN(s, n).value) == n
    ensures DroppedKeys(ReapN(s, n).value.entries) <= DroppedKeys(s.entries)
  {
    if n > 0 {
      ReapNConserves(s, n - 1);
      ReapConserves(ReapN(s, n - 1).value);
    }
  }

  lemma ReapsOne(s: State)
    requires Inv(s) && s.sq == [] && s.cq != []
    requires s.cq[0].result.HasMore() ==> s.cq[0].userData !in DroppedKeys(s.entries)
    ensures Reap(s).Some?
    ensures var t := Reap(s).value;
            && Inv(t) && t.sq == [] && t.canceled == s.canceled && t.inflight == s.inflight
            && DroppedKeys(t.entries) <= DroppedKeys(s.entries)
  {
    ReapIsSafe(s);
    ReapKeeps(s);
    ReapConserves(s);
  }

  lemma {:induction false} ReapNKeeps(s: State, n: nat)
    requires Inv(s) && s.sq == [] && n <= |s.cq| && Quiet(s, n)
    ensures ReapN(s, n).Some?
    ensures var t := ReapN(s, n).value;
            Inv(t) && t.sq == [] && t.canceled == s.canceled && t.inflight == s.inflight
    ensures DroppedKeys(ReapN(s, n).value.entries) <= DroppedKeys(s.entries)
  {
    if n > 0 {
      ReapNKeeps(s, n - 1);
      var t := ReapN(s, n - 1).value;
      assert t.cq[0] == s.cq[n - 1];
      ReapsOne(t);
    }
  }

  /** What is cancelled when reaping starts is still cancelled, or gone. */
  lemma {:induction false} DroppedStays(s: State, n: nat, key: Key)
    requires n <= |s.cq| && ReapN(s, n).Some?
    requires key in DroppedKeys(s.entries)
    ensures key in ReapN(s, n).value.entries ==> key in DroppedKeys(ReapN(s, n).value.entries)
  {
    if n > 0 {
      DroppedStays(s, n - 1, key);
    }
  }

  ghost predicate SoundAfter(s: State, n: nat)
    requires n <= |s.cq|
  {
    ReapN(s, n).Some? && Inv(ReapN(s, n).value)
  }

  /**
    The exact condition for a whole batch, readable off the queue before the first entry is handled:
    the invariant survives every step if and only if no cancelled key has an early completion in it.
  */
  lemma BatchKeepsExactly(s: State, n: nat)
    requires Inv(s) && s.sq == [] && n <= |s.cq|
    ensures (forall m: nat :: m <= n ==> SoundAfter(s, m)) <==> Quiet(s, n)
  {
    if Quiet(s, n) {
      forall m: nat | m <= n ensures SoundAfter(s, m) {
        ReapNKeeps(s, m);
      }
    } else {
      var i :| 0 <= i < n && s.cq[i].result.HasMore() && s.cq[i].userData in DroppedKeys(s.entries);
      if SoundAfter(s, i) {
        HazardInBatch(s, i);
        assert !SoundAfter(s, i + 1);
      }
    }
  }

  lemma HazardInBatch(s: State, i: nat)
    requires Inv(s) && s.sq == [] && i < |s.cq|
    requires s.cq[i].result.HasMore() && s.cq[i].userData in DroppedKeys(s.entries)
    requires ReapN(s, i).Some? && Inv(ReapN(s, i).value)
    ensures ReapN(s, i + 1).Some? && Excess(ReapN(s, i + 1).value) > 0
    ensures !Inv(ReapN(s, i + 1).value)
  {
    var t := ReapN(s, i).value;
    DroppedStays(s, i, s.cq[i].userData);
    assert t.cq[0] == s.cq[i];
    ReapIsSafe(t);
    HazardCounts(t);
  }

  lemma HazardCounts(s: State)
    requires Inv(s) && Hazard(s) && Reap(s).Some?
    ensures Excess(Reap(s).value) > 0
  {
    assert CqeBelongs(AwaitingKeys(s.entries), s.cq[0]);
    assert AwaitingKeys(Reap(s).value.entries) == AwaitingKeys(s.entries) - {s.cq[0].userData};
  }

  lemma {:induction false} ReapSq(s: State, n: nat)
    requires n <= |s.cq| && ReapN(s, n).Some?
    ensures ReapN(s, n).value.sq == s.sq && ReapN(s, n).value.canceled == s.canceled
  {
    if n > 0 {
      ReapSq(s, n - 1);
    }
  }

  // ---- a batch with early completions of cancelled keys, as long as nothing panics ----

  /** How many operations the counter takes for active that no key awaits: those freed too early. */
  function Excess(s: State): int {
    s.active - |AwaitingKeys(s.entries)|
  }

  /** What is left of the invariant after an early completion: enough to keep the counters from underflowing. */
  ghost predicate Solid(s: State) {
    && Excess(s) >= 0
    && Finals(s.cq)[IGNORE_KEY] <= s.detached
    && forall i :: 0 <= i < |s.cq| && s.cq[i].userData == IGNORE_KEY ==> !s.cq[i].result.HasMore()
  }

  lemma InvIsSolid(s: State)
    requires Inv(s)
    ensures Solid(s) && Excess(s) == 0
  {
    assert Outstanding(s, IGNORE_KEY) == s.detached;
    forall i | 0 <= i < |s.cq| && s.cq[i].userData == IGNORE_KEY ensures !s.cq[i].result.HasMore() {
      assert CqeBelongs(AwaitingKeys(s.entries), s.cq[i]);
    }
  }

  lemma ClosedAwaitsNothing(m: Entries, key: Key, results: seq<RingResult>)
    requires key in m
    ensures AwaitingKeys(m[key := Closed(results)]) == AwaitingKeys(m) - {key}
  {
    var after := m[key := Closed(results)];
    forall k: Key ensures k in AwaitingKeys(after) <==> k in AwaitingKeys(m) - {key} {
      assert k != key && k in m ==> after[k] == m[k];
    }
  }

  lemma ReapExcess(s: State)
    requires Excess(s) >= 0 && s.cq != [] && Reap(s).Some?
    ensures Excess(Reap(s).value) >= Excess(s)
    ensures s.cq[0].userData != IGNORE_KEY && !s.cq[0].result.HasMore() ==> s.active > 0
  {
    var user := s.cq[0].userData;
    if user != IGNORE_KEY {
      var key := user % KEY_LIMIT;
      var keys := AwaitingKeys(s.entries);
      assert key in keys;
      SubsetSize({key}, keys);
      var after := AwaitingKeys(Reap(s).value.entries);
      if s.entries[key].Open? && s.cq[0].result.HasMore() {
        assert after == keys;
      } else if s.entries[key].Open? {
        ClosedAwaitsNothing(s.entries, key, s.entries[key].results + [s.cq[0].result]);
      } else {
        assert Reap(s).value.entries == s.entries - {key};
        assert after == keys - {key};
      }
    }
  }

  lemma ReapStaysSolid(s: State)
    requires Solid(s) && s.cq != [] && Reap(s).Some?
    ensures Solid(Reap(s).value) && Excess(Reap(s).value) >= Excess(s)
    ensures s.cq[0].userData == IGNORE_KEY ==> s.detached > 0
    ensures s.cq[0].userData != IGNORE_KEY && !s.cq[0].result.HasMore() ==> s.active > 0
  {
    ReapExcess(s);
    FinalsOfRest(s.cq, IGNORE_KEY);
    var t := Reap(s).value;
    forall i | 0 <= i < |t.cq| && t.cq[i].userData == IGNORE_KEY ensures !t.cq[i].result.HasMore() {
      assert t.cq[i] == s.cq[i + 1];
    }
  }

  lemma {:induction false} ReapNPrefix(s: State, m: nat, n: nat)
    requires m <= n <= |s.cq| && ReapN(s, n).Some?
    ensures ReapN(s, m).Some?
  {
    if m < n {
      ReapNPrefix(s, m, n - 1);
    }
  }

  lemma {:induction false} ReapNSolid(s: State, n: nat)
    requires Solid(s) && n <= |s.cq| && ReapN(s, n).Some?
    ensures Solid(ReapN(s, n).value)
  {
    if n > 0 {
      ReapNSolid(s, n - 1);
      ReapStaysSolid(ReapN(s, n - 1).value);
    }
  }

  /** As long as the whole batch does not panic, its next entry can be handled. */
  lemma NextIsSafe(s: State, n: nat)
    requires Solid(s) && n < |s.cq| && ReapN(s, |s.cq|).Some?
    ensures ReapN(s, n).Some? && Solid(ReapN(s, n).value)
    ensures Reap(ReapN(s, n).value).Some? && Reap(ReapN(s, n).value) == ReapN(s, n + 1)
  {
    ReapNPrefix(s, n + 1, |s.cq|);
    ReapNSolid(s, n);
  }

  lemma {:induction false} EarlyLeavesExcess(s: State, n: nat)
    requires Inv(s) && s.sq == [] && n <= |s.cq| && ReapN(s, n).Some? && !Quiet(s, n)
    ensures Excess(ReapN(s, n).value) > 0
  {
    if Quiet(s, n - 1) {
      ReapNKeeps(s, n - 1);
      HazardInBatch(s, n - 1);
    } else {
      EarlyLeavesExcess(s, n - 1);
      ReapExcess(ReapN(s, n - 1).value);
    }
  }

  /**
    The exact condition at the end of a batch that does not panic: the invariant holds again if and
    only if the batch was quiet. Each early completion leaves one operation counted for good.
  */
  lemma ReapNKeepsExactly(s: State, n: nat)
    requires Inv(s) && s.sq == [] && n <= |s.cq| && ReapN(s, n).Some?
    ensures Quiet(s, n) <==> Excess(ReapN(s, n).value) == 0
    ensures Quiet(s, n) <==> Inv(ReapN(s, n).value)
  {
    if Quiet(s, n) {
      ReapNKeeps(s, n);
    } else {
      EarlyLeavesExcess(s, n);
    }
    ExcessDecides(ReapN(s, n).value);
  }

  lemma ExcessDecides(s: State)
    ensures Inv(s) ==> Excess(s) == 0
  {
  }

  // ---- a whole wait ----

  /** The state in which the kernel lets the ring continue, having completed `moves`. */
  function Awake(s: State, moves: seq<Cqe>): State {
    if s.active + s.detached == 0 then s
    else PostAll(Flush(s), moves).(canceled := 0)
  }

  /** What the kernel may complete while the ring is blocked; with nothing outstanding the ring does not block. */
  predicate CanMove(s: State, moves: seq<Cqe>) {
    if s.active + s.detached == 0 then moves == [] else CanPostAll(Flush(s), moves)
  }

  /** After that, a wait for so many completions may end. */
  predicate CanWaitFor(s: State, moves: seq<Cqe>, count: int) {
    CanMove(s, moves) && (s.active + s.detached == 0 || |s.cq| + |moves| >= count)
  }

  predicate CanWait(s: State, moves: seq<Cqe>) {
    CanWaitFor(s, moves, Want(s))
  }

  lemma AwakeKeeps(s: State, moves: seq<Cqe>)
    requires IdleInv(s) && CanMove(s, moves)
    ensures IdleInv(Awake(s, moves)) && Awake(s, moves).sq == []
    ensures Awake(s, moves).cq == s.cq + moves
    ensures Awake(s, moves) ==
            s.(sq := [], inflight := Awake(s, moves).inflight, cq := s.cq + moves, canceled := 0)
  {
    if s.active + s.detached == 0 {
      TotalIsCounted(s);
      CanceledIsBounded(s);
      SubmittedSize(s.sq);
      assert s.cq + moves == s.cq;
    } else {
      FlushKeeps(s);
      PostAllKeeps(Flush(s), moves);
      PostAllShape(Flush(s), moves);
      var p := PostAll(Flush(s), moves);
      var t := p.(canceled := 0);
      assert forall u: nat :: Outstanding(t, u) == Outstanding(p, u);
    }
  }

  lemma {:induction false} SubmittedSize(sq: seq<Sqe>)
    ensures |Submitted(sq)| == |sq|
  {
    if sq != [] {
      SubmittedSize(sq[..|sq| - 1]);
    }
  }

  /** A quiet wait leaves the ring in order, with everything flushed and reaped. */
  lemma WaitKeeps(s: State, moves: seq<Cqe>)
    requires IdleInv(s) && CanWait(s, moves)
    requires Quiet(Awake(s, moves), |Awake(s, moves).cq|)
    ensures var r := ReapN(Awake(s, moves), |Awake(s, moves).cq|);
            r.Some? && IdleInv(r.value) && r.value.sq == [] && r.value.cq == [] && r.value.canceled == 0
  {
    AwakeKeeps(s, moves);
    ReapNKeeps(Awake(s, moves), |Awake(s, moves).cq|);
  }

  /**
    More completions than all that is detached or given up: then handling them calls a waker, if it
    does not panic.
  */
  lemma EnoughWakes(s: State, moves: seq<Cqe>)
    requires IdleInv(s) && CanMove(s, moves)
    requires ReapN(Awake(s, moves), |Awake(s, moves).cq|).Some?
    requires |s.cq| + |moves| > |DroppedKeys(s.entries)| + s.detached
    ensures Wakes(ReapN(Awake(s, moves), |Awake(s, moves).cq|).value.effects) > Wakes(s.effects)
  {
    AwakeKeeps(s, moves);
    var awake := Awake(s, moves);
    InvIsSolid(awake);
    ReapNSolid(awake, |awake.cq|);
    ReapNConserves(awake, |awake.cq|);
  }

  /**
    A wait makes progress: if an operation nobody gave up is outstanding, and all that is detached
    or given up belongs to the cancellations of this round, any wait that does not panic calls a waker.
  */
  lemma WaitProgresses(s: State, moves: seq<Cqe>)
    requires IdleInv(s) && CanWait(s, moves)
    requires ReapN(Awake(s, moves), |Awake(s, moves).cq|).Some?
    requires s.active > s.canceled
    requires s.detached == s.canceled && |DroppedKeys(s.entries)| == s.canceled
    ensures Wakes(ReapN(Awake(s, moves), |Awake(s, moves).cq|).value.effects) > Wakes(s.effects)
  {
    CanceledIsBounded(s);
    EnoughWakes(s, moves);
  }

  lemma InitialInv()
    ensures IdleInv(INITIAL)
  {
    assert AwaitingKeys(INITIAL.entries) == {};
  }

  /** Every waker a batch calls belongs to an operation nobody gave up. */
  lemma {:induction false} WokenAreOpen(s: State, n: nat, i: nat)
    requires n <= |s.cq| && ReapN(s, n).Some? && |s.effects| <= i < |ReapN(s, n).value.effects|
    requires ReapN(s, n).value.effects[i].Wake?
    ensures exists k :: k in s.entries && s.entries[k].Open? && ReapN(s, n).value.effects[i] == Wake(s.entries[k].waker)
    decreases n
  {
    if n > 0 {
      var t := ReapN(s, n - 1).value;
      if i < |t.effects| {
        ReapConserves(t);
        WokenAreOpen(s, n - 1, i);
      } else {
        var key := WokenByReap(t, i);
        OpenWasOpen(s, n - 1, key);
      }
    }
  }

  lemma WokenByReap(s: State, i: nat) returns (key: Key)
    requires s.cq != []
    requires Reap(s).Some? && |s.effects| <= i < |Reap(s).value.effects|
    requires Reap(s).value.effects[i].Wake?
    ensures key in s.entries && s.entries[key].Open?
    ensures Reap(s).value.effects[i] == Wake(s.entries[key].waker)
  {
    key := s.cq[0].userData % KEY_LIMIT;
  }

  lemma {:induction false} OpenWasOpen(s: State, n: nat, key: Key)
    requires n <= |s.cq| && ReapN(s, n).Some?
    requires key in ReapN(s, n).value.entries && ReapN(s, n).value.entries[key].Open?
    ensures key in s.entries && s.entries[key].Open?
    ensures s.entries[key].waker == ReapN(s, n).value.entries[key].waker
  {
    if n > 0 {
      OpenWasOpen(s, n - 1, key);
    }
  }

  // ---- quiescence ----

  /** Nothing is queued, in flight, waiting to be reaped, or waiting to be claimed. */
  ghost predicate Quiescent(s: State) {
    s.sq == [] && s.inflight == multiset{} && s.cq == [] && s.entries == map[]
  }

  /** The counters and the empty set of completions together say exactly that. */
  lemma CountersDecideQuiescence(s: State)
    requires Inv(s)
    ensures s.active + s.detached == 0 && s.entries == map[] <==> Quiescent(s)
  {
    TotalIsCounted(s);
    SubmittedSize(s.sq);
    if s.entries == map[] && s.active + s.detached == 0 {
      if s.cq != [] {
        assert CqeBelongs(AwaitingKeys(s.entries), s.cq[0]);
        FinalsMembers(s.cq);
      }
    }
  }
}
