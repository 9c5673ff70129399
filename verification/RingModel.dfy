/**
  The ring above the set of completions, together with the kernel's two queues: submission entries
  waiting to be flushed, submissions in flight, completion entries waiting to be reaped, and the
  three counters. The kernel is a nondeterministic stepper.
*/
module RingModel {
  import opened Common
  import opened CompletionModel

  const IGNORE_KEY: nat := 0xFFFF_FFFF_FFFF_FFFE
  const KEY_LIMIT: nat := 0x1_0000_0000

  /** `cancel` says for which cancellation an AsyncCancel was pushed; the kernel does not see it. */
  datatype Sqe =
    | OpSqe(userData: nat)
    | AsyncCancel(userData: nat, target: Key, cancel: Cancellation)

  datatype Cqe = Cqe(userData: nat, result: RingResult)

  datatype State = State(
    entries: Entries,
    active: int,
    detached: int,
    canceled: int,
    sq: seq<Sqe>,
    inflight: multiset<nat>,
    cq: seq<Cqe>,
    effects: seq<Effect>)

  const INITIAL := State(map[], 0, 0, 0, [], multiset{}, [], [])

  // ---- what the ring does ----

  function Submit(s: State, waker: Waker, key: Key): State {
    s.(entries := s.entries[key := Open(waker, [])], sq := s.sq + [OpSqe(key)], active := s.active + 1)
  }

  function SubmitDetached(s: State): State {
    s.(sq := s.sq + [OpSqe(IGNORE_KEY)], detached := s.detached + 1)
  }

  /** Giving up a key; only an entry that still waits makes the ring push the cancel entry. */
  function Cancel(s: State, key: Key, withEntry: bool, cancel: Cancellation): State
    requires key in s.entries && !s.entries[key].Dropped?
  {
    var entry := s.entries[key];
    var given := s.(entries := Settle(s.entries, key, CancelFate(entry, cancel)),
                    effects := s.effects + CancelEffects(entry, cancel));
    if entry.Open? && withEntry then
      given.(sq := s.sq + [AsyncCancel(IGNORE_KEY, key, cancel)],
             detached := s.detached + 1,
             canceled := s.canceled + 1)
    else given
  }

  function CheckResult(s: State, key: Key): State
    requires key in s.entries
  {
    s.(entries := Settle(s.entries, key, TakeFate(s.entries[key])))
  }

  function Want(s: State): int {
    var want := if s.active == s.canceled then 2 * s.canceled else 1 + 2 * s.canceled;
    if want == 0 && s.detached > 0 then s.detached else want
  }

  /** Handling the oldest completion entry; None is a panic. */
  function Reap(s: State): Option<State>
    requires s.cq != []
  {
    var cqe := s.cq[0];
    var rest := s.(cq := s.cq[1..]);
    if cqe.userData == IGNORE_KEY then Some(rest.(detached := s.detached - 1))
    else
      var key := cqe.userData % KEY_LIMIT;
      if key !in s.entries || s.entries[key].Closed? then None
      else
        Some(rest.(active := if cqe.result.HasMore() then s.active else s.active - 1,
                   entries := Settle(s.entries, key, NotifyFate(s.entries[key], cqe.result)),
                   effects := s.effects + NotifyEffects(s.entries[key], cqe.result)))
  }

  // ---- what the kernel does ----

  /** The user data of a run of submission entries, with multiplicity. */
  function Submitted(sq: seq<Sqe>): multiset<nat> {
    if sq == [] then multiset{}
    else Submitted(sq[..|sq| - 1]) + multiset{sq[|sq| - 1].userData}
  }

  function Flush(s: State): State {
    s.(sq := [], inflight := s.inflight + Submitted(s.sq))
  }

  /** The kernel completes what is in flight; a detached submission completes once. */
  predicate CanPost(s: State, cqe: Cqe) {
    cqe.userData in s.inflight && (cqe.userData == IGNORE_KEY ==> !cqe.result.HasMore())
  }

  function Post(s: State, cqe: Cqe): State {
    s.(inflight := if cqe.result.HasMore() then s.inflight else s.inflight - multiset{cqe.userData},
       cq := s.cq + [cqe])
  }

  // ---- counting what is outstanding ----

  /** The user data of the final completion entries in a run. */
  function Finals(cq: seq<Cqe>): multiset<nat> {
    if cq == [] then multiset{} else Finals(cq[..|cq| - 1]) + FinalOf(cq[|cq| - 1])
  }

  /** How many submissions with this user data have a final completion that is not reaped yet. */
  function Outstanding(s: State, userData: nat): nat {
    Submitted(s.sq)[userData] + s.inflight[userData] + Finals(s.cq)[userData]
  }

  function AwaitingKeys(m: Entries): set<Key> {
    set k | k in m && !m[k].Closed?
  }

  function DroppedKeys(m: Entries): set<Key> {
    set k | k in m && m[k].Dropped?
  }

  function CancelCount(sq: seq<Sqe>): nat {
    if sq == [] then 0
    else CancelCount(sq[..|sq| - 1]) + if sq[|sq| - 1].AsyncCancel? then 1 else 0
  }

  // ---- the invariant ----

  /** Only the last result of an operation says that no more will follow. */
  ghost predicate AllMore(results: seq<RingResult>) {
    forall i :: 0 <= i < |results| ==> results[i].HasMore()
  }

  ghost predicate EndsFinal(results: seq<RingResult>) {
    results != [] && AllMore(results[..|results| - 1]) && !results[|results| - 1].HasMore()
  }

  ghost predicate EntryShape(entry: Entry) {
    (entry.Open? ==> AllMore(entry.results)) && (entry.Closed? ==> EndsFinal(entry.results))
  }

  ghost predicate EntriesOk(m: Entries) {
    forall k :: k in m ==> k < KEY_LIMIT && EntryShape(m[k])
  }

  /** How many submissions with this user data are outstanding, as the ring's own books say. */
  function Expected(keys: set<Key>, detached: int, userData: nat): int {
    if userData == IGNORE_KEY then detached else if userData in keys then 1 else 0
  }

  ghost predicate CountsOk(s: State) {
    && s.active == |AwaitingKeys(s.entries)|
    && s.detached >= 0
    && forall u: nat :: Outstanding(s, u) == Expected(AwaitingKeys(s.entries), s.detached, u)
  }

  predicate CqeBelongs(keys: set<Key>, cqe: Cqe) {
    if cqe.userData == IGNORE_KEY then !cqe.result.HasMore() else cqe.userData in keys
  }

  /** An entry that another one for the same key follows announces it. */
  predicate AnnouncesNext(cq: seq<Cqe>, i: int, j: int)
    requires 0 <= i < j < |cq|
  {
    cq[i].userData == cq[j].userData != IGNORE_KEY ==> cq[i].result.HasMore()
  }

  /** Completion entries are for keys that await them, and the final one of a key comes last. */
  ghost predicate CqOk(keys: set<Key>, cq: seq<Cqe>) {
    && (forall i :: 0 <= i < |cq| ==> CqeBelongs(keys, cq[i]))
    && (forall i, j {:trigger AnnouncesNext(cq, i, j)} :: 0 <= i < j < |cq| ==> AnnouncesNext(cq, i, j))
  }

  predicate CancelBelongs(m: Entries, sqe: Sqe) {
    sqe.AsyncCancel? ==>
      && sqe.userData == IGNORE_KEY
      && sqe.target in m
      && m[sqe.target] == Dropped(sqe.cancel)
  }

  predicate OtherTarget(sq: seq<Sqe>, i: int, j: int)
    requires 0 <= i < j < |sq|
  {
    sq[i].AsyncCancel? && sq[j].AsyncCancel? ==> sq[i].target != sq[j].target
  }

  /** Each queued cancel entry names another key. */
  ghost predicate TargetsDiffer(sq: seq<Sqe>) {
    forall i, j {:trigger OtherTarget(sq, i, j)} :: 0 <= i < j < |sq| ==> OtherTarget(sq, i, j)
  }

  /** A queued cancel entry names a key that still belongs to what it cancels, once each. */
  ghost predicate SqOk(m: Entries, sq: seq<Sqe>) {
    && (forall i :: 0 <= i < |sq| ==> CancelBelongs(m, sq[i]))
    && TargetsDiffer(sq)
  }

  ghost predicate Inv(s: State) {
    && EntriesOk(s.entries)
    && CountsOk(s)
    && CqOk(AwaitingKeys(s.entries), s.cq)
    && SqOk(s.entries, s.sq)
  }

  /** Between waits the third counter counts the cancel entries that still sit in the queue. */
  ghost predicate IdleInv(s: State) {
    Inv(s) && s.canceled == CancelCount(s.sq)
  }

  // ---- lemmas on the counting functions ----

  function FinalOf(cqe: Cqe): multiset<nat> {
    if cqe.result.HasMore() then multiset{} else multiset{cqe.userData}
  }

  /** Taking the first entry off and the last one may be done in either order. */
  lemma FirstAndLast(cq: seq<Cqe>)
    requires |cq| > 1
    ensures var last := |cq| - 1;
            && cq[1..][..last - 1] == cq[..last][1..] && cq[1..][last - 1] == cq[last]
            && |cq[1..]| == last && cq[..last][0] == cq[0]
  {
  }

  lemma {:induction false} FinalsFirst(cq: seq<Cqe>)
    requires cq != []
    ensures Finals(cq) == FinalOf(cq[0]) + Finals(cq[1..])
  {
    var last := |cq| - 1;
    if last == 0 {
      assert cq[..last] == [] && cq[1..] == [];
    } else {
      FinalsFirst(cq[..last]);
      FirstAndLast(cq);
      calc {
        Finals(cq);
        Finals(cq[..last]) + FinalOf(cq[last]);
        FinalOf(cq[0]) + Finals(cq[..last][1..]) + FinalOf(cq[last]);
        FinalOf(cq[0]) + (Finals(cq[..last][1..]) + FinalOf(cq[last]));
        FinalOf(cq[0]) + Finals(cq[1..]);
      }
    }
  }

  lemma {:induction false} FinalsMember(cq: seq<Cqe>, i: nat)
    requires i < |cq| && !cq[i].result.HasMore()
    ensures cq[i].userData in Finals(cq)
  {
    if i < |cq| - 1 {
      FinalsMember(cq[..|cq| - 1], i);
    }
  }

  lemma FinalsMembers(cq: seq<Cqe>)
    ensures forall i :: 0 <= i < |cq| && !cq[i].result.HasMore() ==> cq[i].userData in Finals(cq)
  {
    forall i | 0 <= i < |cq| && !cq[i].result.HasMore() ensures cq[i].userData in Finals(cq) {
      FinalsMember(cq, i);
    }
  }

  lemma {:induction false} FinalsBounded(cq: seq<Cqe>)
    ensures |Finals(cq)| <= |cq|
  {
    if cq != [] {
      FinalsBounded(cq[..|cq| - 1]);
    }
  }

  lemma {:induction false} CancelsAreIgnored(m: Entries, sq: seq<Sqe>)
    requires forall i :: 0 <= i < |sq| ==> CancelBelongs(m, sq[i])
    ensures CancelCount(sq) <= Submitted(sq)[IGNORE_KEY]
  {
    if sq != [] {
      CancelsAreIgnored(m, sq[..|sq| - 1]);
      assert CancelBelongs(m, sq[|sq| - 1]);
    }
  }

  function Targets(sq: seq<Sqe>): set<Key> {
    set i | 0 <= i < |sq| && sq[i].AsyncCancel? :: sq[i].target
  }

  lemma {:induction false} TargetCount(sq: seq<Sqe>)
    requires TargetsDiffer(sq)
    ensures |Targets(sq)| == CancelCount(sq)
  {
    if sq == [] {
      assert Targets(sq) == {};
    } else {
      var last := |sq| - 1;
      forall i, j | 0 <= i < j < last ensures OtherTarget(sq[..last], i, j) {
        assert OtherTarget(sq, i, j);
      }
      TargetCount(sq[..last]);
      if sq[last].AsyncCancel? {
        assert Targets(sq) == Targets(sq[..last]) + {sq[last].target};
        forall i | 0 <= i < last && sq[i].AsyncCancel? ensures sq[i].target != sq[last].target {
          assert OtherTarget(sq, i, last);
        }
        assert sq[last].target !in Targets(sq[..last]);
      } else {
        assert Targets(sq) == Targets(sq[..last]);
      }
    }
  }

  // ---- the invariant is kept ----

  lemma PushCounts(s: State, t: State, sqe: Sqe)
    requires t.sq == s.sq + [sqe] && t.inflight == s.inflight && t.cq == s.cq
    ensures forall u: nat :: Outstanding(t, u) == Outstanding(s, u) + if u == sqe.userData then 1 else 0
    ensures CancelCount(t.sq) == CancelCount(s.sq) + if sqe.AsyncCancel? then 1 else 0
  {
    assert t.sq[..|s.sq|] == s.sq;
  }

  /** The four parts of the invariant, and the third counter, make it up. */
  lemma InvFromParts(s: State, keys: set<Key>)
    requires EntriesOk(s.entries) && CountsOk(s) && keys == AwaitingKeys(s.entries)
    requires CqOk(keys, s.cq) && SqOk(s.entries, s.sq) && s.canceled == CancelCount(s.sq)
    ensures IdleInv(s)
  {
  }

  lemma PushedTargets(sq: seq<Sqe>, sqe: Sqe)
    requires TargetsDiffer(sq)
    requires forall i :: 0 <= i < |sq| && sq[i].AsyncCancel? && sqe.AsyncCancel? ==> sq[i].target != sqe.target
    ensures TargetsDiffer(sq + [sqe])
  {
    var all := sq + [sqe];
    forall i, j | 0 <= i < j < |all| ensures OtherTarget(all, i, j) {
      if j < |sq| {
        assert OtherTarget(sq, i, j);
      }
    }
  }

  lemma NewKeyKeepsQueues(m: Entries, key: Key, waker: Waker, sq: seq<Sqe>, cq: seq<Cqe>)
    requires EntriesOk(m) && SqOk(m, sq) && CqOk(AwaitingKeys(m), cq) && key !in m && key < KEY_LIMIT
    ensures var t := m[key := Open(waker, [])];
            && EntriesOk(t) && AwaitingKeys(t) == AwaitingKeys(m) + {key}
            && SqOk(t, sq + [OpSqe(key)]) && CqOk(AwaitingKeys(m) + {key}, cq)
  {
    var t := m[key := Open(waker, [])];
    var sq1 := sq + [OpSqe(key)];
    PushedTargets(sq, OpSqe(key));
    forall i | 0 <= i < |sq1| ensures CancelBelongs(t, sq1[i]) {
      if i < |sq| { assert CancelBelongs(m, sq[i]); }
    }
    forall i | 0 <= i < |cq| ensures CqeBelongs(AwaitingKeys(m) + {key}, cq[i]) {
      assert CqeBelongs(AwaitingKeys(m), cq[i]);
    }
  }

  lemma NewKeyKeepsCounts(s: State, waker: Waker, key: Key)
    requires CountsOk(s) && key !in s.entries && key < KEY_LIMIT
    requires AwaitingKeys(s.entries[key := Open(waker, [])]) == AwaitingKeys(s.entries) + {key}
    ensures CountsOk(Submit(s, waker, key))
    ensures CancelCount(Submit(s, waker, key).sq) == CancelCount(s.sq)
  {
    PushCounts(s, Submit(s, waker, key), OpSqe(key));
  }

  lemma SubmitKeeps(s: State, waker: Waker, key: Key)
    requires IdleInv(s) && key !in s.entries && key < KEY_LIMIT
    ensures IdleInv(Submit(s, waker, key))
  {
    NewKeyKeepsQueues(s.entries, key, waker, s.sq, s.cq);
    NewKeyKeepsCounts(s, waker, key);
    InvFromParts(Submit(s, waker, key), AwaitingKeys(s.entries) + {key});
  }

  lemma TakeKeepsShape(entry: Entry)
    requires EntryShape(entry)
    ensures TakeFate(entry).Keep? ==> EntryShape(TakeFate(entry).entry)
  {
    if entry.Closed? && |entry.results| > 1 {
      var front := entry.results[..|entry.results| - 1];
      var rest := entry.results[1..];
      assert rest[..|rest| - 1] == front[1..];
      assert forall i :: 0 <= i < |front[1..]| ==> front[1..][i] == front[i + 1];
    }
  }

  lemma CancelKeepsEntries(m: Entries, key: Key, cancel: Cancellation)
    requires EntriesOk(m) && key in m && !m[key].Dropped?
    ensures var t := Settle(m, key, CancelFate(m[key], cancel));
            EntriesOk(t) && AwaitingKeys(t) == AwaitingKeys(m)
  {
    var t := Settle(m, key, CancelFate(m[key], cancel));
    forall k ensures k in AwaitingKeys(t) <==> k in AwaitingKeys(m) {
    }
  }

  lemma CancelKeepsQueue(m: Entries, sq: seq<Sqe>, key: Key, cancel: Cancellation)
    requires SqOk(m, sq) && key in m && !m[key].Dropped?
    ensures var t := Settle(m, key, CancelFate(m[key], cancel));
            SqOk(t, sq) && (m[key].Open? ==> SqOk(t, sq + [AsyncCancel(IGNORE_KEY, key, cancel)]))
  {
    var t := Settle(m, key, CancelFate(m[key], cancel));
    forall i | 0 <= i < |sq|
      ensures CancelBelongs(t, sq[i])
      ensures sq[i].AsyncCancel? ==> sq[i].target != key
    {
      assert CancelBelongs(m, sq[i]);
    }
    if m[key].Open? {
      PushedTargets(sq, AsyncCancel(IGNORE_KEY, key, cancel));
      assert CancelBelongs(t, AsyncCancel(IGNORE_KEY, key, cancel));
    }
  }

  /** The counts hold again when the queue gains an ignored submission and detached counts it. */
  lemma PushKeepsCounts(s: State, t: State, sqe: Sqe)
    requires CountsOk(s) && sqe.userData == IGNORE_KEY
    requires AwaitingKeys(t.entries) == AwaitingKeys(s.entries) && t.active == s.active
    requires t.sq == s.sq + [sqe] && t.inflight == s.inflight && t.cq == s.cq && t.detached == s.detached + 1
    ensures CountsOk(t)
    ensures CancelCount(t.sq) == CancelCount(s.sq) + if sqe.AsyncCancel? then 1 else 0
  {
    PushCounts(s, t, sqe);
  }

  lemma SameCounts(s: State, t: State)
    requires CountsOk(s)
    requires AwaitingKeys(t.entries) == AwaitingKeys(s.entries) && t.active == s.active
    requires t.sq == s.sq && t.inflight == s.inflight && t.cq == s.cq && t.detached == s.detached
    ensures CountsOk(t)
  {
    assert forall u: nat :: Outstanding(t, u) == Outstanding(s, u);
  }

  lemma CancelKeepsCounts(s: State, key: Key, withEntry: bool, cancel: Cancellation)
    requires CountsOk(s) && s.canceled == CancelCount(s.sq) && key in s.entries && !s.entries[key].Dropped?
    requires AwaitingKeys(Settle(s.entries, key, CancelFate(s.entries[key], cancel))) == AwaitingKeys(s.entries)
    ensures var t := Cancel(s, key, withEntry, cancel);
            CountsOk(t) && t.canceled == CancelCount(t.sq)
  {
    var t := Cancel(s, key, withEntry, cancel);
    if s.entries[key].Open? && withEntry {
      PushKeepsCounts(s, t, AsyncCancel(IGNORE_KEY, key, cancel));
    } else {
      SameCounts(s, t);
    }
  }

  lemma CancelKeeps(s: State, key: Key, withEntry: bool, cancel: Cancellation)
    requires IdleInv(s) && key in s.entries && !s.entries[key].Dropped?
    ensures IdleInv(Cancel(s, key, withEntry, cancel))
  {
    CancelKeepsEntries(s.entries, key, cancel);
    CancelKeepsQueue(s.entries, s.sq, key, cancel);
    CancelKeepsCounts(s, key, withEntry, cancel);
    InvFromParts(Cancel(s, key, withEntry, cancel), AwaitingKeys(s.entries));
  }

  lemma TakeKeepsEntries(m: Entries, key: Key)
    requires EntriesOk(m) && key in m
    ensures var t := Settle(m, key, TakeFate(m[key]));
            EntriesOk(t) && AwaitingKeys(t) == AwaitingKeys(m)
  {
    TakeKeepsShape(m[key]);
    var t := Settle(m, key, TakeFate(m[key]));
    forall k ensures k in AwaitingKeys(t) <==> k in AwaitingKeys(m) {
    }
  }

  lemma CheckResultKeeps(s: State, key: Key)
    requires IdleInv(s) && key in s.entries
    ensures IdleInv(CheckResult(s, key))
  {
    var t := CheckResult(s, key);
    TakeKeepsEntries(s.entries, key);
    SameCounts(s, t);
    forall i | 0 <= i < |t.sq| ensures CancelBelongs(t.entries, t.sq[i]) {
      assert CancelBelongs(s.entries, s.sq[i]);
    }
  }

  lemma SubmitDetachedKeeps(s: State)
    requires IdleInv(s)
    ensures IdleInv(SubmitDetached(s))
  {
    var t := SubmitDetached(s);
    PushKeepsCounts(s, t, OpSqe(IGNORE_KEY));
    PushedTargets(s.sq, OpSqe(IGNORE_KEY));
    forall i | 0 <= i < |t.sq| ensures CancelBelongs(t.entries, t.sq[i]) {
      if i < |s.sq| { assert CancelBelongs(s.entries, s.sq[i]); }
    }
  }

  lemma FlushKeeps(s: State)
    requires Inv(s)
    ensures Inv(Flush(s))
    ensures forall u: nat :: Outstanding(Flush(s), u) == Outstanding(s, u)
  {
    assert forall u: nat :: Outstanding(Flush(s), u) == Outstanding(s, u);
  }

  lemma PostCounts(s: State, cqe: Cqe)
    requires CanPost(s, cqe)
    ensures forall u: nat :: Outstanding(Post(s, cqe), u) == Outstanding(s, u)
  {
    assert Post(s, cqe).cq[..|s.cq|] == s.cq;
  }

  lemma PostKeepsQueue(keys: set<Key>, cq: seq<Cqe>, cqe: Cqe)
    requires CqOk(keys, cq) && CqeBelongs(keys, cqe)
    requires cqe.userData != IGNORE_KEY ==> cqe.userData !in Finals(cq)
    ensures CqOk(keys, cq + [cqe])
  {
    var all := cq + [cqe];
    FinalsMembers(cq);
    forall i | 0 <= i < |all| ensures CqeBelongs(keys, all[i]) {
      if i < |cq| { assert CqeBelongs(keys, cq[i]); }
    }
    forall i, j | 0 <= i < j < |all| ensures AnnouncesNext(all, i, j) {
      if j < |cq| { assert AnnouncesNext(cq, i, j); }
    }
  }

  lemma PostKeeps(s: State, cqe: Cqe)
    requires Inv(s) && CanPost(s, cqe)
    ensures Inv(Post(s, cqe))
    ensures forall u: nat :: Outstanding(Post(s, cqe), u) == Outstanding(s, u)
  {
    var keys := AwaitingKeys(s.entries);
    PostCounts(s, cqe);
    assert Outstanding(s, cqe.userData) == Expected(keys, s.detached, cqe.userData);
    assert Outstanding(s, cqe.userData) >= 1;
    PostKeepsQueue(keys, s.cq, cqe);
  }

  /** A cancelled key receives a completion that announces another one. */
  predicate Hazard(s: State) {
    && s.cq != []
    && s.cq[0].userData != IGNORE_KEY
    && s.cq[0].result.HasMore()
    && s.cq[0].userData % KEY_LIMIT in s.entries
    && s.entries[s.cq[0].userData % KEY_LIMIT].Dropped?
  }

  /** Reaping never panics and no counter underflows: "unexpected key" cannot happen. */
  lemma ReapIsSafe(s: State)
    requires Inv(s) && s.cq != []
    ensures Reap(s).Some?
    ensures Reap(s).value.active >= 0 && Reap(s).value.detached >= 0
    ensures s.cq[0].userData != IGNORE_KEY ==>
              s.cq[0].userData < KEY_LIMIT && s.cq[0].userData in AwaitingKeys(s.entries)
  {
    var user := s.cq[0].userData;
    var keys := AwaitingKeys(s.entries);
    assert CqeBelongs(keys, s.cq[0]);
    if user == IGNORE_KEY {
      FinalsMember(s.cq, 0);
      assert Outstanding(s, user) >= 1;
    } else {
      SubsetSize({user}, keys);
    }
  }

  lemma NotifyKeepsShape(entry: Entry, result: RingResult)
    requires EntryShape(entry) && !entry.Closed?
    ensures NotifyFate(entry, result).Keep? ==> EntryShape(NotifyFate(entry, result).entry)
  {
    if entry.Open? {
      assert (entry.results + [result])[..|entry.results|] == entry.results;
    }
  }

  /** The keys that await a completion, after this one has been handled. */
  function KeysAfter(keys: set<Key>, cqe: Cqe): set<Key> {
    if cqe.userData == IGNORE_KEY || cqe.result.HasMore() then keys else keys - {cqe.userData}
  }

  lemma ReapQueue(keys: set<Key>, cq: seq<Cqe>)
    requires cq != [] && CqOk(keys, cq)
    ensures CqOk(KeysAfter(keys, cq[0]), cq[1..])
  {
    var rest := cq[1..];
    forall i | 0 <= i < |rest| ensures CqeBelongs(KeysAfter(keys, cq[0]), rest[i]) {
      assert rest[i] == cq[i + 1] && CqeBelongs(keys, cq[i + 1]) && AnnouncesNext(cq, 0, i + 1);
    }
    forall i, j | 0 <= i < j < |rest| ensures AnnouncesNext(rest, i, j) {
      assert AnnouncesNext(cq, i + 1, j + 1);
    }
  }

  lemma ReapCount(keys: set<Key>, cq: seq<Cqe>, s: State, t: State, user: nat)
    requires cq != [] && CqeBelongs(keys, cq[0]) && s.cq == cq && t.cq == cq[1..]
    requires t.sq == s.sq && t.inflight == s.inflight
    requires Outstanding(s, user) == Expected(keys, s.detached, user)
    requires t.detached == if cq[0].userData == IGNORE_KEY then s.detached - 1 else s.detached
    ensures Outstanding(t, user) == Expected(KeysAfter(keys, cq[0]), t.detached, user)
  {
    FinalsOfRest(cq, user);
  }

  lemma FinalsOfRest(cq: seq<Cqe>, user: nat)
    requires cq != []
    ensures Finals(cq)[user] ==
            Finals(cq[1..])[user] + if user == cq[0].userData && !cq[0].result.HasMore() then 1 else 0
  {
    FinalsFirst(cq);
  }

  lemma ReapCounts(s: State, t: State)
    requires CountsOk(s) && s.cq != [] && CqeBelongs(AwaitingKeys(s.entries), s.cq[0])
    requires t.sq == s.sq && t.inflight == s.inflight && t.cq == s.cq[1..]
    requires AwaitingKeys(t.entries) == KeysAfter(AwaitingKeys(s.entries), s.cq[0])
    requires t.detached == if s.cq[0].userData == IGNORE_KEY then s.detached - 1 else s.detached
    requires t.active == s.active - if s.cq[0].userData == IGNORE_KEY || s.cq[0].result.HasMore() then 0 else 1
    ensures CountsOk(t)
  {
    var keys := AwaitingKeys(s.entries);
    forall u: nat ensures Outstanding(t, u) == Expected(KeysAfter(keys, s.cq[0]), t.detached, u) {
      ReapCount(keys, s.cq, s, t, u);
    }
    assert Outstanding(t, IGNORE_KEY) == t.detached;
  }

  lemma ReapKeeps(s: State)
    requires Inv(s) && s.sq == [] && s.cq != [] && !Hazard(s)
    ensures Reap(s).Some? && Inv(Reap(s).value)
  {
    ReapIsSafe(s);
    var t := Reap(s).value;
    var cqe := s.cq[0];
    var user := cqe.userData;
    if user != IGNORE_KEY {
      NotifyKeepsShape(s.entries[user], cqe.result);
    }
    assert AwaitingKeys(t.entries) == KeysAfter(AwaitingKeys(s.entries), cqe);
    assert CqeBelongs(AwaitingKeys(s.entries), cqe);
    ReapCounts(s, t);
    ReapQueue(AwaitingKeys(s.entries), s.cq);
  }

  /**
    The exact condition: reaping an entry keeps the invariant if and only if the entry is not an
    early completion of a cancelled key.
  */
  lemma ReapKeepsExactly(s: State)
    requires Inv(s) && s.sq == [] && s.cq != []
    ensures Reap(s).Some?
    ensures Inv(Reap(s).value) <==> !Hazard(s)
  {
    ReapIsSafe(s);
    if Hazard(s) {
      var user := s.cq[0].userData;
      var t := Reap(s).value;
      assert AwaitingKeys(t.entries) == AwaitingKeys(s.entries) - {user};
      assert t.active == |AwaitingKeys(t.entries)| + 1;
    } else {
      ReapKeeps(s);
    }
  }
}
