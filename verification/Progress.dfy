/** Exactly when a wait must call a waker, whatever the kernel completes meanwhile. */
module WaitProgress {
  import opened Common
  import opened CompletionModel
  import opened RingModel
  import opened WaitModel

  const LAST := RingResult(0, 0)

  // ---- a queued entry for an operation nobody gave up ----

  /** Some completion of an operation that still waits is in the queue already. */
  ghost predicate OpenQueued(s: State) {
    exists i :: 0 <= i < |s.cq| && s.cq[i].userData in s.entries && s.entries[s.cq[i].userData].Open?
  }

  lemma {:induction false} OpenStays(s: State, i: nat, m: nat)
    requires CqOk(AwaitingKeys(s.entries), s.cq) && EntriesOk(s.entries)
    requires m <= i < |s.cq| && s.cq[i].userData in s.entries && s.entries[s.cq[i].userData].Open?
    requires ReapN(s, m).Some?
    ensures var key := s.cq[i].userData;
            key in ReapN(s, m).value.entries && ReapN(s, m).value.entries[key].Open?
  {
    if m > 0 {
      OpenStays(s, i, m - 1);
      var t := ReapN(s, m - 1).value;
      assert t.cq[0] == s.cq[m - 1];
      assert AnnouncesNext(s.cq, m - 1, i);
      if s.cq[m - 1].userData != IGNORE_KEY {
        assert CqeBelongs(AwaitingKeys(s.entries), s.cq[m - 1]);
      }
    }
  }

  lemma {:induction false} WakesGrow(s: State, m: nat, n: nat)
    requires m <= n <= |s.cq| && ReapN(s, n).Some?
    ensures ReapN(s, m).Some? && Wakes(ReapN(s, m).value.effects) <= Wakes(ReapN(s, n).value.effects)
  {
    if m < n {
      WakesGrow(s, m, n - 1);
      ReapWakes(ReapN(s, n - 1).value);
    }
  }

  /** Reaping calls the waker of the entry's key, if that still waits, and no other. */
  lemma ReapWakes(s: State)
    requires s.cq != [] && Reap(s).Some?
    ensures var user := s.cq[0].userData;
            Wakes(Reap(s).value.effects) ==
            Wakes(s.effects) + if user != IGNORE_KEY && s.entries[user % KEY_LIMIT].Open? then 1 else 0
  {
    var user := s.cq[0].userData;
    if user != IGNORE_KEY {
      WakesOfReap(s.effects, s.entries[user % KEY_LIMIT], s.cq[0].result);
    }
  }

  /** It wakes that operation, whatever else is reaped. */
  lemma OpenQueuedWakes(s: State, i: nat)
    requires CqOk(AwaitingKeys(s.entries), s.cq) && EntriesOk(s.entries)
    requires i < |s.cq| && s.cq[i].userData in s.entries && s.entries[s.cq[i].userData].Open?
    requires ReapN(s, |s.cq|).Some?
    ensures Wakes(ReapN(s, |s.cq|).value.effects) > Wakes(s.effects)
  {
    WakesGrow(s, i + 1, |s.cq|);
    WakesNext(s, i);
    WakesGrow(s, 0, i);
  }

  lemma WakesNext(s: State, i: nat)
    requires CqOk(AwaitingKeys(s.entries), s.cq) && EntriesOk(s.entries)
    requires i < |s.cq| && s.cq[i].userData in s.entries && s.entries[s.cq[i].userData].Open?
    requires ReapN(s, i + 1).Some?
    ensures ReapN(s, i).Some? && Wakes(ReapN(s, i + 1).value.effects) > Wakes(ReapN(s, i).value.effects)
  {
    WakesGrow(s, i, i + 1);
    OpenStays(s, i, i);
    WakesHere(s, i);
  }

  lemma WakesHere(s: State, i: nat)
    requires i < |s.cq| && s.cq[i].userData < KEY_LIMIT && ReapN(s, i).Some? && ReapN(s, i + 1).Some?
    requires var t := ReapN(s, i).value; s.cq[i].userData in t.entries && t.entries[s.cq[i].userData].Open?
    ensures Wakes(ReapN(s, i + 1).value.effects) == Wakes(ReapN(s, i).value.effects) + 1
  {
    var t := ReapN(s, i).value;
    assert t.cq[0] == s.cq[i];
    ReapWakes(t);
  }

  // ---- a queue that panics ----

  /** An early completion of a key given up is queued with another one of the same key behind it. */
  ghost predicate Doomed(s: State) {
    exists i, j :: 0 <= i < j < |s.cq| && s.cq[i].userData == s.cq[j].userData &&
                   s.cq[i].userData in DroppedKeys(s.entries)
  }

  /** The first completion handled for a dropped key frees it, for good. */
  lemma {:induction false} GoneAfter(s: State, i: nat, m: nat)
    requires i < m <= |s.cq| && ReapN(s, m).Some?
    requires s.cq[i].userData in DroppedKeys(s.entries) && s.cq[i].userData < KEY_LIMIT
    ensures s.cq[i].userData !in ReapN(s, m).value.entries
  {
    var t := ReapN(s, m - 1).value;
    assert t.cq[0] == s.cq[m - 1];
    if i < m - 1 {
      GoneAfter(s, i, m - 1);
    } else {
      DroppedStays(s, i, s.cq[i].userData);
    }
  }

  lemma GonePanics(s: State, j: nat)
    requires j < |s.cq| && ReapN(s, j).Some? && s.cq[j].userData < KEY_LIMIT
    requires s.cq[j].userData !in ReapN(s, j).value.entries
    ensures ReapN(s, j + 1) == None
  {
    assert ReapN(s, j).value.cq[0] == s.cq[j];
  }

  lemma DoomedPanics(s: State, i: nat, j: nat)
    requires i < j < |s.cq| && s.cq[i].userData == s.cq[j].userData
    requires s.cq[i].userData in DroppedKeys(s.entries) && s.cq[i].userData < KEY_LIMIT
    ensures ReapN(s, j + 1) == None
  {
    if ReapN(s, j).Some? {
      GoneAfter(s, i, j);
      GonePanics(s, j);
    }
  }

  /** Nothing follows a panic. */
  lemma {:induction false} StaysPanicked(s: State, m: nat, n: nat)
    requires m <= n <= |s.cq| && ReapN(s, m) == None
    ensures ReapN(s, n) == None
  {
    if m < n {
      StaysPanicked(s, m, n - 1);
    }
  }

  /** Then every wait panics on an unexpected key. */
  lemma DoomedWaitsPanic(s: State, moves: seq<Cqe>)
    requires IdleInv(s) && Doomed(s) && CanMove(s, moves)
    ensures ReapN(Awake(s, moves), |Awake(s, moves).cq|) == None
  {
    AwakeKeeps(s, moves);
    var awake := Awake(s, moves);
    var i, j :| 0 <= i < j < |s.cq| && s.cq[i].userData == s.cq[j].userData &&
                s.cq[i].userData in DroppedKeys(s.entries);
    assert awake.cq[i] == s.cq[i] && awake.cq[j] == s.cq[j];
    DoomedPanics(awake, i, j);
    StaysPanicked(awake, j + 1, |awake.cq|);
  }

  // ---- a wait that wakes nobody ----

  /** The user data of a run of completion entries, with multiplicity. */
  function Data(cq: seq<Cqe>): multiset<nat> {
    if cq == [] then multiset{} else Data(cq[..|cq| - 1]) + multiset{cq[|cq| - 1].userData}
  }

  lemma {:induction false} DataConcat(a: seq<Cqe>, b: seq<Cqe>)
    ensures Data(a + b) == Data(a) + Data(b)
  {
    if b == [] {
      assert a + b == a;
    } else {
      DataConcat(a, b[..|b| - 1]);
      ButLast(a, b);
      var last := multiset{b[|b| - 1].userData};
      assert Data(a) + Data(b[..|b| - 1]) + last == Data(a) + (Data(b[..|b| - 1]) + last);
    }
  }

  lemma {:induction false} DataSize(cq: seq<Cqe>)
    ensures |Data(cq)| == |cq|
  {
    if cq != [] {
      DataSize(cq[..|cq| - 1]);
    }
  }

  lemma {:induction false} DataMember(cq: seq<Cqe>, i: nat)
    requires i < |cq|
    ensures cq[i].userData in Data(cq)
  {
    if i < |cq| - 1 {
      DataMember(cq[..|cq| - 1], i);
    }
  }

  lemma {:induction false} DataFrom(cq: seq<Cqe>, u: nat) returns (i: nat)
    requires u in Data(cq)
    ensures i < |cq| && cq[i].userData == u
  {
    var last := |cq| - 1;
    if u in Data(cq[..last]) {
      i := DataFrom(cq[..last], u);
    } else {
      i := last;
    }
  }

  /** A user data that occurs twice is counted twice. */
  lemma {:induction false} DataTwice(cq: seq<Cqe>, i: nat, j: nat)
    requires i < j < |cq| && cq[i].userData == cq[j].userData
    ensures Data(cq)[cq[i].userData] >= 2
  {
    if j < |cq| - 1 {
      DataTwice(cq[..|cq| - 1], i, j);
    } else {
      DataMember(cq[..j], i);
    }
  }

  lemma {:induction false} DataOnce(cq: seq<Cqe>, u: nat)
    requires forall i, j :: 0 <= i < j < |cq| ==> cq[i].userData != u || cq[j].userData != u
    ensures Data(cq)[u] <= 1
  {
    if cq != [] {
      var last := |cq| - 1;
      DataOnce(cq[..last], u);
      if u in Data(cq[..last]) {
        var i := DataFrom(cq[..last], u);
        assert cq[i].userData == u && cq[last].userData != u;
      }
    }
  }

  /** Detached submissions complete with a final entry, so both counts agree on them. */
  lemma {:induction false} IgnoredAreFinal(cq: seq<Cqe>)
    requires forall i :: 0 <= i < |cq| && cq[i].userData == IGNORE_KEY ==> !cq[i].result.HasMore()
    ensures Data(cq)[IGNORE_KEY] == Finals(cq)[IGNORE_KEY]
  {
    if cq != [] {
      IgnoredAreFinal(cq[..|cq| - 1]);
    }
  }

  lemma {:induction false} FinalsAreData(cq: seq<Cqe>)
    ensures Finals(cq) <= Data(cq)
  {
    if cq != [] {
      FinalsAreData(cq[..|cq| - 1]);
    }
  }

  /** The kernel can finish any submissions that are in flight. */
  lemma {:induction false} FinishAll(s: State, m: multiset<nat>) returns (moves: seq<Cqe>)
    requires m <= s.inflight
    ensures CanPostAll(s, moves) && PostAll(s, moves).inflight == s.inflight - m
    ensures Data(moves) == m
    decreases |m|
  {
    if m == multiset{} {
      moves := [];
    } else {
      var user: nat :| user in m;
      var rest := m - multiset{user};
      assert |rest| == |m| - 1;
      var front := FinishAll(s, rest);
      LessOne(s.inflight, m, user);
      moves := PostsOne(s, front, user);
    }
  }

  lemma PostsOne(s: State, front: seq<Cqe>, user: nat) returns (moves: seq<Cqe>)
    requires CanPostAll(s, front) && user in PostAll(s, front).inflight
    ensures CanPostAll(s, moves) && Data(moves) == Data(front) + multiset{user}
    ensures PostAll(s, moves).inflight == PostAll(s, front).inflight - multiset{user}
  {
    var cqe := Cqe(user, LAST);
    moves := front + [cqe];
    assert !LAST.HasMore() && moves[..|front|] == front && moves[|front|] == cqe;
    assert CanPost(PostAll(s, front), cqe);
  }

  lemma LessOne(all: multiset<nat>, m: multiset<nat>, user: nat)
    requires m <= all && user in m
    ensures user in all - (m - multiset{user})
    ensures all - (m - multiset{user}) - multiset{user} == all - m
    ensures m - multiset{user} + multiset{user} == m
  {
  }

  /** All that is outstanding and wakes nobody: the dropped keys, and what is detached. */
  function Silent(s: State): multiset<nat>
    requires s.detached >= 0
  {
    multiset(DroppedKeys(s.entries))[IGNORE_KEY := s.detached]
  }

  lemma SilentSize(s: State)
    requires EntriesOk(s.entries) && s.detached >= 0
    ensures |Silent(s)| == |DroppedKeys(s.entries)| + s.detached
  {
    var dropped: multiset<nat> := multiset(DroppedKeys(s.entries));
    assert IGNORE_KEY !in DroppedKeys(s.entries) && dropped[IGNORE_KEY] == 0;
    assert |dropped| == |DroppedKeys(s.entries)|;
  }

  /** With no waiting operation completed yet, each queued entry is for something silent. */
  lemma QueueIsSilent(s: State, i: nat)
    requires Inv(s) && !OpenQueued(s) && i < |s.cq|
    ensures s.cq[i].userData == IGNORE_KEY || s.cq[i].userData in DroppedKeys(s.entries)
  {
    assert CqeBelongs(AwaitingKeys(s.entries), s.cq[i]);
  }

  lemma IgnoredOne(s: State)
    requires Inv(s) && s.sq == []
    ensures Data(s.cq)[IGNORE_KEY] + s.inflight[IGNORE_KEY] == s.detached
  {
    assert Outstanding(s, IGNORE_KEY) == s.detached;
    InvIsSolid(s);
    IgnoredAreFinal(s.cq);
  }

  lemma DroppedOne(s: State, key: Key)
    requires Inv(s) && s.sq == [] && !Doomed(s) && key in DroppedKeys(s.entries)
    ensures Data(s.cq)[key] <= 1 <= Data(s.cq)[key] + s.inflight[key]
  {
    assert Outstanding(s, key) == 1;
    DataOnce(s.cq, key);
    FinalsAreData(s.cq);
    assert Finals(s.cq)[key] <= Data(s.cq)[key];
  }

  lemma OtherNotQueued(s: State, u: nat)
    requires Inv(s) && !OpenQueued(s) && u != IGNORE_KEY && u !in DroppedKeys(s.entries)
    ensures Data(s.cq)[u] == 0
  {
    if u in Data(s.cq) {
      var i := DataFrom(s.cq, u);
      QueueIsSilent(s, i);
    }
  }

  /** Nothing silent is queued more often than it is outstanding; and what is not queued is in flight. */
  lemma SilentOne(s: State, u: nat)
    requires Inv(s) && s.sq == [] && !OpenQueued(s) && !Doomed(s)
    ensures Data(s.cq)[u] <= Silent(s)[u] && Silent(s)[u] - Data(s.cq)[u] <= s.inflight[u]
  {
    if u == IGNORE_KEY {
      IgnoredOne(s);
    } else if u in DroppedKeys(s.entries) {
      DroppedOne(s, u);
    } else {
      OtherNotQueued(s, u);
    }
  }

  /** The kernel's choice: it finishes everything silent that is not queued, and nothing else. */
  lemma SilentMoves(s: State) returns (moves: seq<Cqe>)
    requires Inv(s) && s.sq == [] && !OpenQueued(s) && !Doomed(s)
    ensures CanPostAll(s, moves) && Data(s.cq + moves) == Silent(s)
    ensures |s.cq| + |moves| == |DroppedKeys(s.entries)| + s.detached
  {
    var rest := Silent(s) - Data(s.cq);
    forall u: nat ensures rest[u] <= s.inflight[u] && Data(s.cq)[u] + rest[u] == Silent(s)[u] {
      SilentOne(s, u);
    }
    assert rest <= s.inflight && Data(s.cq) + rest == Silent(s);
    moves := FinishAll(s, rest);
    DataConcat(s.cq, moves);
    DataSize(s.cq + moves);
    SilentSize(s);
  }

  /** Each dropped key occurs once in the queue, and nothing else but detached submissions. */
  ghost predicate AllSilent(m: Entries, cq: seq<Cqe>) {
    && (forall i :: 0 <= i < |cq| ==> cq[i].userData == IGNORE_KEY || cq[i].userData in DroppedKeys(m))
    && (forall i, j {:trigger Apart(cq, i, j)} :: 0 <= i < j < |cq| ==> Apart(cq, i, j))
  }

  predicate Apart(cq: seq<Cqe>, i: int, j: int)
    requires 0 <= i < j < |cq|
  {
    cq[i].userData == IGNORE_KEY || cq[i].userData != cq[j].userData
  }

  lemma SilentQueue(s: State, cq: seq<Cqe>)
    requires EntriesOk(s.entries) && s.detached >= 0 && Data(cq) == Silent(s)
    ensures AllSilent(s.entries, cq)
  {
    forall i | 0 <= i < |cq| ensures cq[i].userData == IGNORE_KEY || cq[i].userData in DroppedKeys(s.entries) {
      DataMember(cq, i);
    }
    forall i, j | 0 <= i < j < |cq| ensures Apart(cq, i, j) {
      if cq[i].userData != IGNORE_KEY && cq[i].userData == cq[j].userData {
        DataTwice(cq, i, j);
      }
    }
  }

  /** What the first n entries are not about stays as it is. */
  ghost predicate Untouched(s: State, n: nat, t: State)
    requires n <= |s.cq|
  {
    forall k {:trigger k in t.entries} :: k in s.entries && (forall i :: 0 <= i < n ==> s.cq[i].userData != k) ==>
      k in t.entries && t.entries[k] == s.entries[k]
  }

  /** Such a queue is reaped without a panic, and without calling a waker. */
  lemma {:induction false} SilentReap(s: State, n: nat)
    requires EntriesOk(s.entries) && AllSilent(s.entries, s.cq) && n <= |s.cq|
    ensures ReapN(s, n).Some? && Untouched(s, n, ReapN(s, n).value)
    ensures Wakes(ReapN(s, n).value.effects) == Wakes(s.effects)
  {
    if n > 0 {
      SilentReap(s, n - 1);
      var t := ReapN(s, n - 1).value;
      var key := s.cq[n - 1].userData;
      assert t.cq[0] == s.cq[n - 1];
      if key != IGNORE_KEY {
        forall i | 0 <= i < n - 1 ensures s.cq[i].userData != key {
          assert Apart(s.cq, i, n - 1);
        }
        assert key in t.entries && t.entries[key] == s.entries[key];
      }
      SilentStep(t);
    }
  }

  lemma SilentStep(s: State)
    requires s.cq != []
    requires var key := s.cq[0].userData;
             key == IGNORE_KEY || (key < KEY_LIMIT && key in s.entries && s.entries[key].Dropped?)
    ensures Reap(s).Some? && Wakes(Reap(s).value.effects) == Wakes(s.effects)
    ensures forall k :: k in s.entries && k != s.cq[0].userData ==>
              k in Reap(s).value.entries && Reap(s).value.entries[k] == s.entries[k]
  {
    ReapWakes(s);
  }

  /** A wait for so many completions that does not panic, and whether it calls a waker. */
  ghost predicate Possible(s: State, moves: seq<Cqe>, count: int) {
    CanWaitFor(s, moves, count) && ReapN(Awake(s, moves), |Awake(s, moves).cq|).Some?
  }

  ghost predicate CallsWaker(s: State, moves: seq<Cqe>)
    requires ReapN(Awake(s, moves), |Awake(s, moves).cq|).Some?
  {
    Wakes(ReapN(Awake(s, moves), |Awake(s, moves).cq|).value.effects) > Wakes(s.effects)
  }

  /** Whatever the kernel completes, a wait for so many completions calls a waker or panics. */
  ghost predicate MustWakeFor(s: State, count: int) {
    forall moves :: Possible(s, moves, count) ==> CallsWaker(s, moves)
  }

  ghost predicate MustWake(s: State) {
    MustWakeFor(s, Want(s))
  }

  lemma NothingToWaitFor(s: State, count: int)
    requires IdleInv(s) && s.active + s.detached == 0
    ensures s.cq == [] && Possible(s, [], count) && !CallsWaker(s, [])
  {
    TotalIsCounted(s);
    if s.cq != [] {
      assert CqeBelongs(AwaitingKeys(s.entries), s.cq[0]);
      FinalsMembers(s.cq);
    }
  }

  /** The kernel can finish everything silent, and nothing else; then no waker is called. */
  lemma SilentWait(s: State, count: int) returns (moves: seq<Cqe>)
    requires IdleInv(s) && !OpenQueued(s) && !Doomed(s) && s.active + s.detached > 0
    requires count <= |DroppedKeys(s.entries)| + s.detached
    ensures Possible(s, moves, count) && !CallsWaker(s, moves)
  {
    FlushKeeps(s);
    moves := SilentMoves(Flush(s));
    SilentEnd(s, moves);
  }

  lemma SilentEnd(s: State, moves: seq<Cqe>)
    requires IdleInv(s) && CanMove(s, moves) && Data(s.cq + moves) == Silent(s)
    ensures ReapN(Awake(s, moves), |Awake(s, moves).cq|).Some? && !CallsWaker(s, moves)
  {
    AwakeKeeps(s, moves);
    SilentQueue(s, s.cq + moves);
    SilentReap(Awake(s, moves), |s.cq + moves|);
  }

  lemma OpenQueuedMustWake(s: State, moves: seq<Cqe>, count: int)
    requires IdleInv(s) && OpenQueued(s) && Possible(s, moves, count)
    ensures CallsWaker(s, moves)
  {
    AwakeKeeps(s, moves);
    var awake := Awake(s, moves);
    var i :| 0 <= i < |s.cq| && s.cq[i].userData in s.entries && s.entries[s.cq[i].userData].Open?;
    assert awake.cq[i] == s.cq[i];
    OpenQueuedWakes(awake, i);
  }

  /**
    Which counts make a wait call a waker or panic, whatever the kernel completes: any, if a waiting
    operation has completed already or the queue is one on which every wait panics; otherwise those
    above the number of keys given up and submissions detached, and no smaller one.
  */
  lemma CountWakesExactly(s: State, count: int)
    requires IdleInv(s) && s.active + s.detached > 0
    ensures MustWakeFor(s, count) <==>
            OpenQueued(s) || Doomed(s) || count > |DroppedKeys(s.entries)| + s.detached
  {
    if OpenQueued(s) {
      forall moves | Possible(s, moves, count) ensures CallsWaker(s, moves) {
        OpenQueuedMustWake(s, moves, count);
      }
    } else if Doomed(s) {
      forall moves: seq<Cqe> ensures !Possible(s, moves, count) {
        if CanMove(s, moves) {
          DoomedWaitsPanic(s, moves);
        }
      }
    } else if count > |DroppedKeys(s.entries)| + s.detached {
      forall moves | Possible(s, moves, count) ensures CallsWaker(s, moves) {
        EnoughWakes(s, moves);
      }
    } else {
      var moves := SilentWait(s, count);
    }
  }

  // ---- the count a wait asks for ----

  /** What is detached or given up all belongs to this round's cancellations, and more is waited for. */
  ghost predicate OnlyCancelling(s: State) {
    s.active > s.canceled && s.detached == s.canceled && |DroppedKeys(s.entries)| == s.canceled
  }

  /** Two completions for each cancellation of this round: the operation's, and the cancel entry's own. */
  function RoundShare(s: State): nat {
    |Targets(s.sq)| + CancelCount(s.sq)
  }

  /**
    The right number of completions to ask for. It can be had; with a key that awaits a completion it
    covers the cancellations of this round, and one more if they are not all that is awaited; without
    one it is all there is.
  */
  ghost predicate RightCount(s: State, count: int) {
    && 1 <= count <= Total(s)
    && (AwaitingKeys(s.entries) == {} ==> count == Total(s))
    && (AwaitingKeys(s.entries) != {} ==>
          count == RoundShare(s) + if AwaitingKeys(s.entries) <= Targets(s.sq) then 0 else 1)
  }

  lemma TargetsAreCanceled(s: State)
    requires IdleInv(s)
    ensures Targets(s.sq) <= DroppedKeys(s.entries) <= AwaitingKeys(s.entries)
    ensures |Targets(s.sq)| == CancelCount(s.sq) == s.canceled
    ensures AwaitingKeys(s.entries) <= Targets(s.sq) <==> s.active == s.canceled
  {
    TargetsAreDropped(s);
    SubsetSize(Targets(s.sq), AwaitingKeys(s.entries));
    if AwaitingKeys(s.entries) <= Targets(s.sq) {
      assert AwaitingKeys(s.entries) == Targets(s.sq);
    }
  }

  /** The counters, which know nothing of keys, arrive at it. */
  lemma WantIsRight(s: State)
    requires IdleInv(s) && s.active + s.detached > 0
    ensures RightCount(s, Want(s))
  {
    TargetsAreCanceled(s);
    WantIsBounded(s);
    TotalIsCounted(s);
  }

  /**
    It makes every wait call a waker in exactly one more case, and then no smaller one does: all that
    is detached or given up belongs to this round's cancellations, and something else is waited for.
  */
  lemma RightCountWakes(s: State, count: int)
    requires IdleInv(s) && RightCount(s, count)
    ensures count <= |DroppedKeys(s.entries)| + s.detached + 1
    ensures count > |DroppedKeys(s.entries)| + s.detached <==> OnlyCancelling(s)
    ensures MustWakeFor(s, count) <==> OpenQueued(s) || OnlyCancelling(s) || Doomed(s)
  {
    TargetsAreCanceled(s);
    TotalIsCounted(s);
    CanceledIsBounded(s);
    CountWakesExactly(s, count);
  }

  /**
    The exact condition, readable before the wait: whatever the kernel completes, a wait calls a waker
    or panics if and only if a waiting operation has completed already, or everything detached or given
    up belongs to the cancellations of this round and something else is waited for, or the queue is
    one on which every wait panics.
  */
  lemma WaitWakesExactly(s: State)
    requires IdleInv(s)
    ensures MustWake(s) <==> OpenQueued(s) || OnlyCancelling(s) || Doomed(s)
  {
    if s.active + s.detached == 0 {
      NothingToWaitFor(s, Want(s));
    } else {
      WantIsRight(s);
      RightCountWakes(s, Want(s));
    }
  }

  /** For instance, one unrelated detached submission satisfies a wait while the only operation is in flight. */
  lemma WaitMayWakeNobody(waker: Waker)
    ensures var s := SubmitDetached(Submit(INITIAL, waker, 0));
            IdleInv(s) && s.active > s.canceled && !MustWake(s)
  {
    InitialInv();
    SubmitKeeps(INITIAL, waker, 0);
    SubmitDetachedKeeps(Submit(INITIAL, waker, 0));
    WaitWakesExactly(SubmitDetached(Submit(INITIAL, waker, 0)));
  }

  // ---- a wait for all there is ----

  /** Nobody waits: every key that awaits a completion has been given up. */
  ghost predicate AllGivenUp(m: Entries) {
    forall k :: k in m ==> !m[k].Open?
  }

  lemma GivenUpStep(s: State)
    requires AllGivenUp(s.entries) && s.cq != [] && Reap(s).Some?
    ensures AllGivenUp(Reap(s).value.entries) && Wakes(Reap(s).value.effects) == Wakes(s.effects)
  {
    ReapWakes(s);
  }

  lemma {:induction false} GivenUpStays(s: State, n: nat)
    requires AllGivenUp(s.entries) && n <= |s.cq| && ReapN(s, n).Some?
    ensures AllGivenUp(ReapN(s, n).value.entries)
    ensures Wakes(ReapN(s, n).value.effects) == Wakes(s.effects)
  {
    if n > 0 {
      GivenUpStays(s, n - 1);
      GivenUpStep(ReapN(s, n - 1).value);
    }
  }

  /**
    If nobody waits, a wait for all that is outstanding handles the completion of each: no key awaits
    one afterwards, no detached submission is left, and unless early completions were among them,
    nothing is outstanding at all.
  */
  lemma WaitDrains(s: State, moves: seq<Cqe>)
    requires IdleInv(s) && AllGivenUp(s.entries) && CanWaitFor(s, moves, Total(s))
    requires ReapN(Awake(s, moves), |Awake(s, moves).cq|).Some?
    ensures var t := ReapN(Awake(s, moves), |Awake(s, moves).cq|).value;
            && AwaitingKeys(t.entries) == {} && t.detached == 0
            && (Quiet(Awake(s, moves), |Awake(s, moves).cq|) ==> t.active == 0 && Total(t) == 0)
  {
    AwakeKeeps(s, moves);
    var awake := Awake(s, moves);
    var n := |awake.cq|;
    var t := ReapN(awake, n).value;
    TotalIsCounted(s);
    assert DroppedKeys(s.entries) == AwaitingKeys(s.entries);
    InvIsSolid(awake);
    ReapNSolid(awake, n);
    ReapNConserves(awake, n);
    GivenUpStays(awake, n);
    assert DroppedKeys(t.entries) == AwaitingKeys(t.entries);
    if Quiet(awake, n) {
      ReapNKeeps(awake, n);
      TotalIsCounted(t);
    }
  }

  /** All that is outstanding is detached submissions, or belongs to this round's cancellations. */
  ghost predicate NothingElse(s: State) {
    AwaitingKeys(s.entries) == {} || (AwaitingKeys(s.entries) <= Targets(s.sq) && s.detached == CancelCount(s.sq))
  }

  /** Then the right count asks for all of it. */
  lemma RightCountDrains(s: State, count: int)
    requires IdleInv(s) && RightCount(s, count) && NothingElse(s)
    ensures AllGivenUp(s.entries) && count == Total(s)
  {
    TargetsAreCanceled(s);
    TotalIsCounted(s);
    forall k | k in s.entries ensures !s.entries[k].Open? {
      assert s.entries[k].Open? ==> k in AwaitingKeys(s.entries) && k in DroppedKeys(s.entries);
    }
  }

  lemma NoWaitIsDue(s: State)
    requires IdleInv(s) && s.active + s.detached == 0
    ensures !OpenQueued(s) && !OnlyCancelling(s) && AllGivenUp(s.entries) && Total(s) == 0
  {
    NothingToWaitFor(s, 0);
    CanceledIsBounded(s);
    TotalIsCounted(s);
    forall k | k in s.entries ensures !s.entries[k].Open? {
      assert s.entries[k].Open? ==> k in AwaitingKeys(s.entries);
    }
  }

  /** What asking for the right count comes to. */
  lemma WaitOutcome(s: State, moves: seq<Cqe>, count: int)
    requires IdleInv(s) && Possible(s, moves, count)
    requires s.active + s.detached > 0 ==> RightCount(s, count)
    ensures OpenQueued(s) || OnlyCancelling(s) ==> CallsWaker(s, moves)
    ensures NothingElse(s) ==>
              var t := ReapN(Awake(s, moves), |Awake(s, moves).cq|).value;
              && AwaitingKeys(t.entries) == {} && t.detached == 0
              && (Quiet(Awake(s, moves), |Awake(s, moves).cq|) ==> t.active == 0)
  {
    if s.active + s.detached == 0 {
      NoWaitIsDue(s);
      WaitDrains(s, moves);
    } else {
      RightCountWakes(s, count);
      if NothingElse(s) {
        RightCountDrains(s, count);
        WaitDrains(s, moves);
      }
    }
  }
}
