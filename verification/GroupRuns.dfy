/**
  A buffer group used by any number of reads on a ring: the completions on their way to a read are
  those the runtime holds for its submission.
*/
module GroupRuns {
  import opened Common
  import opened CompletionModel
  import opened RingModel
  import opened SubmissionModel
  import opened Runtime
  import opened Runs
  import G = GroupModel

  /** Whether the group is in use, being removed by the kernel, or gone with its buffers. */
  datatype Stage = InUse | Removing(asked: nat) | Gone

  /**
    The submissions with an entry in `group.held` are the group's reads; `handles` counts the user's
    references to the group; `freed` are the buffers that went with it.
  */
  datatype World = World(sys: System, group: G.Group, handles: nat, stage: Stage, freed: set<G.Buffer>)

  datatype Move =
    | Make(buffer: G.Buffer)
    | Provide(buffer: G.Buffer, slot: nat)
    | Recycle(slot: nat)
    | KernelProvides
    | KernelSelects(reader: Id, id: nat)
    | KernelReturns(reader: Id)
    | StartRead(reader: Id)
    | Share
    | Unshare
    | Runtime(step: Step)
    | Teardown
    | KernelRemoves

  const BEGIN := World(START, G.EMPTY, 1, InUse, {})

  /** The submission a step of the runtime gives a result to, or takes results from. */
  function Touched(s: System, step: Step): Option<Id> {
    match step
    case Await(id) => Some(id)
    case Next(id) => Some(id)
    case Forget(id, _) => Some(id)
    case Complete(cqe) => if cqe.userData in s.owner then Some(s.owner[cqe.userData]) else None
    case Handle =>
      if s.ring.cq != [] && s.ring.cq[0].userData in s.owner then Some(s.owner[s.ring.cq[0].userData]) else None
    case _ => None
  }

  predicate ReadTouched(w: World, step: Step) {
    Touched(w.sys, step).Some? && Touched(w.sys, step).value in w.group.held
  }

  /** The kernel works on the operation of this submission. */
  predicate InFlight(s: System, id: Id) {
    Live(s, id) && s.subs[id].stage.key in s.ring.inflight
  }

  // ---- who refers to the group ----

  /** The operation of a read refers to the group until it is used up. */
  function HeldByOp(w: World): set<Id> {
    set u | u in w.group.held && u in w.sys.subs && w.sys.subs[u].taken == 0
  }

  /** What a read given up on the ring has turned into refers to it until it is dropped. */
  function HeldByCancel(w: World): set<Id> {
    set u | u in w.group.held && u in w.sys.subs && w.sys.subs[u].gone && w.sys.subs[u].stage.Submitted? &&
            DropsOf(w.sys.ring.effects, u) == 0
  }

  function References(w: World): nat {
    w.handles + |HeldByOp(w)| + |HeldByCancel(w)|
  }

  /** The kernel completes a read of the group with a buffer it selected for it, or with none. */
  predicate Possible(w: World, move: Move) {
    match move
    case Make(buffer) => buffer !in G.All(w.group) && buffer !in w.freed
    case Provide(buffer, slot) =>
      && w.handles > 0 && w.sys.phase == Idle
      && buffer in w.group.user && slot !in w.group.store.buffers && slot < G.ID_LIMIT
    case Recycle(slot) =>
      && w.handles > 0 && w.sys.phase == Idle
      && w.group.store.cancelled != [] && slot !in w.group.store.buffers && slot < G.ID_LIMIT
    case KernelProvides => w.group.providing != []
    case KernelSelects(reader, id) => G.CanSelect(w.group, reader, id) && InFlight(w.sys, reader)
    case KernelReturns(reader) => reader in w.group.selected
    case StartRead(reader) => w.handles > 0 && Enabled(w.sys, New(reader))
    case Share => w.handles > 0
    case Unshare => w.handles > 0
    case Runtime(step) =>
      && Enabled(w.sys, step)
      && (step.Complete? && ReadTouched(w, step) ==>
            G.CanComplete(w.group, Touched(w.sys, step).value, step.cqe.result))
    case Teardown => w.stage == InUse && References(w) == 0
    case KernelRemoves => w.stage.Removing? && w.group.providing == []
  }

  function GotBy(s: System, id: Id): seq<RingResult> {
    if id in s.subs then s.subs[id].got else []
  }

  function Give(g: G.Group, reader: Id, given: bool): Option<G.Group>
    requires reader in g.held
  {
    if !given then Some(g) else if g.held[reader] == [] then None else G.Deliver(g, reader)
  }

  function TakeBack(g: G.Group, reader: Id, count: int): Option<G.Group>
    requires reader in g.held
  {
    if 0 <= count <= |g.held[reader]| then G.ConsumeMany(g, reader, count) else None
  }

  /** What the buffers do while the runtime goes from s to t. */
  function Follow(g: G.Group, s: System, t: System, step: Step, reader: Id): Option<G.Group>
    requires reader in g.held
  {
    match step
    case Complete(cqe) => Some(G.Complete(g, reader, cqe.result))
    case Await(_) => Give(g, reader, GotBy(t, reader) != GotBy(s, reader))
    case Next(_) => Give(g, reader, GotBy(t, reader) != GotBy(s, reader))
    case _ => TakeBack(g, reader, |ConsumedBy(t.ring.effects, reader)| - |ConsumedBy(s.ring.effects, reader)|)
  }

  /** The group is dropped, once the kernel has removed exactly the buffers present; otherwise it panics. */
  function RemoveGroup(w: World): Option<World>
    requires w.stage.Removing?
  {
    var present := |w.group.store.buffers|;
    if present > 0 && G.Removed(w.group, w.stage.asked) != present then None
    else
      Some(w.(group := w.group.(store := G.EMPTY.store, pool := {}), stage := Gone,
              freed := w.freed + w.group.store.buffers.Values + G.CancelledSet(w.group.store)))
  }

  /** None is a panic, of the runtime, of the slab, or of the removal. */
  function AfterMove(w: World, move: Move): Option<World>
    requires Possible(w, move)
  {
    match move
    case Make(buffer) => Some(w.(group := w.group.(user := w.group.user + {buffer})))
    case Provide(buffer, slot) =>
      Some(w.(sys := After(w.sys, Detach).value, group := G.Provide(w.group, buffer, slot)))
    case Recycle(slot) => Some(w.(sys := After(w.sys, Detach).value, group := G.Recycle(w.group, slot)))
    case KernelProvides => Some(w.(group := G.KernelProvides(w.group)))
    case KernelSelects(reader, id) => Some(w.(group := G.Select(w.group, reader, id)))
    case KernelReturns(reader) => Some(w.(group := G.Unselect(w.group, reader)))
    case StartRead(reader) =>
      Some(w.(sys := After(w.sys, New(reader)).value, group := w.group.(held := w.group.held[reader := []])))
    case Share => Some(w.(handles := w.handles + 1))
    case Unshare => Some(w.(handles := w.handles - 1))
    case Runtime(step) =>
      (match After(w.sys, step)
       case None => None
       case Some(t) =>
         if !ReadTouched(w, step) then Some(w.(sys := t))
         else
           (match Follow(w.group, w.sys, t, step, Touched(w.sys, step).value)
            case None => None
            case Some(g) => Some(w.(sys := t, group := g))))
    case Teardown => Some(w.(stage := Removing(G.Asked(w.group.store))))
    case KernelRemoves => RemoveGroup(w)
  }

  // ---- the invariant ----

  ghost predicate Linked(s: System, g: G.Group) {
    forall u :: u in g.held ==> u in s.subs && g.held[u] == Held(s, u)
  }

  ghost predicate SelectedInFlight(s: System, g: G.Group) {
    forall u :: u in g.selected ==> InFlight(s, u)
  }

  /** The submission will get no more results, and nothing of it is left on the ring. */
  ghost predicate Settled(s: System, id: Id) {
    id in s.subs && (s.subs[id].gone || s.subs[id].stage.Completed?) && !Live(s, id)
  }

  /** Once nothing refers to the group, all its reads have settled. */
  ghost predicate StageOk(w: World) {
    && (w.stage != InUse ==> w.handles == 0 && forall u :: u in w.group.held ==> Settled(w.sys, u))
    && (w.stage.Removing? ==> w.stage.asked == G.Asked(w.group.store))
    && (w.stage == Gone ==> w.group.store == G.EMPTY.store)
  }

  /** The group is in order, and in step with the runtime. */
  ghost predicate GroupOk(w: World) {
    && G.GroupInv(w.group)
    && Linked(w.sys, w.group) && SelectedInFlight(w.sys, w.group)
    && StageOk(w)
    && w.freed !! G.All(w.group)
  }

  ghost predicate WorldInv(w: World) {
    SysInv(w.sys) && GroupOk(w)
  }

  // ---- what a step does to the results held for a submission ----

  lemma Cancels(a: seq<RingResult>, x: seq<RingResult>, y: seq<RingResult>)
    requires a + x == a + y
    ensures x == y
  {
    assert (a + x)[|a|..] == x;
    assert (a + y)[|a|..] == y;
  }

  /**
    It follows from what is posted, given and consumed, because delivery loses and reorders nothing.
  */
  lemma Balance(got: seq<RingResult>, gone: seq<RingResult>, held: seq<RingResult>, rest: seq<RingResult>,
                posted: seq<RingResult>, given: seq<RingResult>, consumed: seq<RingResult>)
    requires got + gone + held + posted == (got + given) + (gone + consumed) + rest
    requires given == [] || gone + consumed == []
    ensures held + posted == given + consumed + rest
  {
    var before := got + gone;
    assert before + held + posted == before + (held + posted);
    if given == [] {
      assert (got + given) + (gone + consumed) + rest == before + (given + consumed + rest);
    } else {
      assert (got + given) + (gone + consumed) + rest == before + (given + consumed + rest);
    }
    Cancels(before, held + posted, given + consumed + rest);
  }

  /** Both states account for the same submission. */
  ghost predicate Accounted(s: System, t: System, id: Id) {
    && id in s.subs && id in s.posted && id in t.subs && id in t.posted
    && s.posted[id] == s.subs[id].got + ConsumedBy(s.ring.effects, id) + Held(s, id)
    && t.posted[id] == t.subs[id].got + ConsumedBy(t.ring.effects, id) + Held(t, id)
  }

  lemma BothAccounted(s: System, t: System, id: Id)
    requires ClientInv(s) && ClientInv(t) && id in s.subs && id in t.subs
    ensures Accounted(s, t, id)
    ensures Alive(t, id) ==> ConsumedBy(t.ring.effects, id) == []
  {
    assert IdOk(s, id) && IdOk(t, id);
  }

  lemma HeldDelta(s: System, t: System, id: Id, posted: seq<RingResult>, given: seq<RingResult>,
                  consumed: seq<RingResult>)
    requires Accounted(s, t, id)
    requires t.posted[id] == s.posted[id] + posted
    requires t.subs[id].got == s.subs[id].got + given
    requires ConsumedBy(t.ring.effects, id) == ConsumedBy(s.ring.effects, id) + consumed
    requires given == [] || ConsumedBy(t.ring.effects, id) == []
    ensures Held(s, id) + posted == given + consumed + Held(t, id)
  {
    Balance(s.subs[id].got, ConsumedBy(s.ring.effects, id), Held(s, id), Held(t, id), posted, given, consumed);
  }

  lemma NothingChanges(s: System, t: System, id: Id)
    requires Accounted(s, t, id)
    requires t.posted[id] == s.posted[id] && t.subs[id].got == s.subs[id].got
    requires ConsumedBy(t.ring.effects, id) == ConsumedBy(s.ring.effects, id)
    ensures Held(t, id) == Held(s, id)
  {
    Cancels(s.subs[id].got + ConsumedBy(s.ring.effects, id), Held(s, id), Held(t, id));
  }

  /** The effects of giving up and of reaping concern the touched submission only. */
  lemma ForgetEffects(s: System, step: Step, id: Id)
    requires Enabled(s, step) && step.Forget? && After(s, step).Some?
    ensures var t := After(s, step).value;
            ConsumedBy(s.ring.effects, id) <= ConsumedBy(t.ring.effects, id) &&
            (step.id != id ==> ConsumedBy(t.ring.effects, id) == ConsumedBy(s.ring.effects, id))
  {
    if s.subs[step.id].stage.Submitted? {
      CancelledEffects(s.ring.effects, s.ring.entries[s.subs[step.id].stage.key], step.id, id);
    }
  }

  lemma HandleEffects(s: System, id: Id)
    requires s.owner.Keys == s.ring.entries.Keys && EntriesOk(s.ring.entries)
    requires Enabled(s, Handle) && After(s, Handle).Some?
    requires s.ring.cq[0].userData == IGNORE_KEY || s.ring.cq[0].userData in s.ring.entries
    requires s.ring.cq[0].userData != IGNORE_KEY ==> KeyOk(s, s.ring.cq[0].userData)
    ensures var t := After(s, Handle).value;
            ConsumedBy(s.ring.effects, id) <= ConsumedBy(t.ring.effects, id) &&
            (Touched(s, Handle) != Some(id) ==> ConsumedBy(t.ring.effects, id) == ConsumedBy(s.ring.effects, id))
  {
    var key := s.ring.cq[0].userData;
    if key != IGNORE_KEY {
      assert key < KEY_LIMIT;
      NotifiedEffects(s.ring.effects, s.ring.entries[key], s.ring.cq[0].result, id);
    }
  }

  lemma OtherStepEffects(s: System, step: Step)
    requires Enabled(s, step) && After(s, step).Some? && !step.Forget? && !step.Handle?
    ensures After(s, step).value.ring.effects == s.ring.effects
  {
  }

  lemma HandleStepEffects(s: System, id: Id)
    requires SysInv(s) && Enabled(s, Handle) && After(s, Handle).Some?
    ensures var t := After(s, Handle).value;
            ConsumedBy(s.ring.effects, id) <= ConsumedBy(t.ring.effects, id) &&
            (Touched(s, Handle) != Some(id) ==> ConsumedBy(t.ring.effects, id) == ConsumedBy(s.ring.effects, id))
  {
    ReapIsSafe(s.ring);
    assert s.ring.cq[0].userData != IGNORE_KEY ==> KeyOk(s, s.ring.cq[0].userData);
    HandleEffects(s, id);
  }

  lemma StepEffects(s: System, step: Step, id: Id)
    requires SysInv(s) && Enabled(s, step) && After(s, step).Some?
    ensures var t := After(s, step).value;
            ConsumedBy(s.ring.effects, id) <= ConsumedBy(t.ring.effects, id)
    ensures var t := After(s, step).value;
            Touched(s, step) != Some(id) || step.Await? || step.Next? || step.Complete? ==>
              ConsumedBy(t.ring.effects, id) == ConsumedBy(s.ring.effects, id)
  {
    match step {
      case Forget(_, _) => ForgetEffects(s, step, id);
      case Handle => HandleStepEffects(s, id);
      case _ => OtherStepEffects(s, step);
    }
  }

  lemma UntouchedSame(s: System, step: Step, t: System, id: Id)
    requires Enabled(s, step) && After(s, step) == Some(t)
    requires id in s.subs && id in s.posted && Touched(s, step) != Some(id)
    ensures id in t.subs && t.subs[id].got == s.subs[id].got
    ensures id in t.posted && t.posted[id] == s.posted[id]
  {
  }

  /** The results of a submission the step does not touch stay where they are. */
  lemma UntouchedHeld(s: System, step: Step, t: System, id: Id)
    requires SysInv(s) && Enabled(s, step) && After(s, step) == Some(t) && ClientInv(t)
    requires id in s.subs && Touched(s, step) != Some(id)
    ensures id in t.subs && Held(t, id) == Held(s, id)
  {
    StepEffects(s, step, id);
    UntouchedSame(s, step, t, id);
    BothAccounted(s, t, id);
    NothingChanges(s, t, id);
  }

  lemma CompleteTouches(s: System, cqe: Cqe, t: System, u: Id)
    requires Enabled(s, Complete(cqe)) && Touched(s, Complete(cqe)) == Some(u)
    requires After(s, Complete(cqe)) == Some(t) && Accounted(s, t, u)
    ensures Held(t, u) == Held(s, u) + [cqe.result]
  {
    assert t.subs[u].got + [] == t.subs[u].got;
    assert ConsumedBy(t.ring.effects, u) + [] == ConsumedBy(t.ring.effects, u);
    HeldDelta(s, t, u, [cqe.result], [], []);
    assert [] + [] + Held(t, u) == Held(t, u);
  }

  /** A poll gives at most one result and touches nothing else the account is made of. */
  lemma PollGives(s: System, step: Step, t: System) returns (given: seq<RingResult>)
    requires Enabled(s, step) && (step.Await? || step.Next?) && After(s, step) == Some(t)
    ensures step.id in t.subs && t.subs[step.id].got == s.subs[step.id].got + given && |given| <= 1
    ensures t.subs[step.id].gone == s.subs[step.id].gone
    ensures t.posted == s.posted && t.ring.effects == s.ring.effects
  {
    given := t.subs[step.id].got[|s.subs[step.id].got|..];
  }

  /** A poll gives the oldest held result, or none. */
  lemma PollBalance(s: System, t: System, u: Id, given: seq<RingResult>)
    requires Accounted(s, t, u) && |given| <= 1 && t.subs[u].got == s.subs[u].got + given
    requires t.posted == s.posted && t.ring.effects == s.ring.effects && ConsumedBy(t.ring.effects, u) == []
    ensures if GotBy(t, u) == GotBy(s, u) then Held(t, u) == Held(s, u)
            else Held(s, u) != [] && Held(t, u) == Held(s, u)[1..] && GotBy(t, u) == GotBy(s, u) + [Held(s, u)[0]]
  {
    assert s.posted[u] + [] == s.posted[u];
    HeldDelta(s, t, u, [], given, []);
    var before, after := Held(s, u), Held(t, u);
    assert before == given + after by {
      assert before + [] == before && given + [] == given;
    }
    if given == [] {
      assert GotBy(t, u) == GotBy(s, u);
    } else {
      assert |GotBy(t, u)| == |GotBy(s, u)| + 1;
      assert before[1..] == after && given == [before[0]];
    }
  }

  lemma ConsumingGivesNothing(s: System, step: Step, t: System, u: Id)
    requires Enabled(s, step) && (step.Forget? || step.Handle?) && After(s, step) == Some(t) && u in s.subs
    ensures u in t.subs && t.subs[u].got == s.subs[u].got && t.posted == s.posted
  {
  }

  /** Giving up, and reaping for a submission given up, hand the oldest held results over. */
  lemma ConsumingBalance(s: System, t: System, u: Id)
    requires Accounted(s, t, u) && t.subs[u].got == s.subs[u].got && t.posted == s.posted
    requires ConsumedBy(s.ring.effects, u) <= ConsumedBy(t.ring.effects, u)
    ensures var count := |ConsumedBy(t.ring.effects, u)| - |ConsumedBy(s.ring.effects, u)|;
            && 0 <= count <= |Held(s, u)| && Held(t, u) == Held(s, u)[count..]
            && ConsumedBy(t.ring.effects, u) == ConsumedBy(s.ring.effects, u) + Held(s, u)[..count]
  {
    var consumed := ConsumedBy(t.ring.effects, u)[|ConsumedBy(s.ring.effects, u)|..];
    assert ConsumedBy(t.ring.effects, u) == ConsumedBy(s.ring.effects, u) + consumed;
    assert t.posted[u] + [] == t.posted[u] && t.subs[u].got + [] == t.subs[u].got;
    HeldDelta(s, t, u, [], [], consumed);
    assert Held(s, u) + [] == Held(s, u) && [] + consumed == consumed;
  }

  // ---- what the group does meanwhile ----

  /** The group's part of a step: one read's completions and selection change, and no buffer is lost. */
  ghost predicate Followed(g: G.Group, h: Option<G.Group>, u: Id, rest: seq<RingResult>, selected: map<G.Reader, nat>) {
    && h.Some? && G.GroupInv(h.value) && G.All(h.value) == G.All(g)
    && h.value.held == g.held[u := rest] && h.value.selected == selected
  }

  lemma GiveKeeps(g: G.Group, u: Id, given: bool, rest: seq<RingResult>)
    requires G.GroupInv(g) && u in g.held
    requires if given then g.held[u] != [] && rest == g.held[u][1..] else rest == g.held[u]
    ensures Followed(g, Give(g, u, given), u, rest, g.selected)
  {
    if given {
      G.DeliverKeeps(g, u);
    } else {
      assert g.held[u := rest] == g.held;
    }
  }

  lemma TakeBackKeeps(g: G.Group, u: Id, count: int, rest: seq<RingResult>)
    requires G.GroupInv(g) && u in g.held && 0 <= count <= |g.held[u]| && rest == g.held[u][count..]
    ensures Followed(g, TakeBack(g, u, count), u, rest, g.selected)
  {
    G.ConsumeManyKeeps(g, u, count);
    G.ConsumeManyShape(g, u, count);
  }

  lemma ReceiveKeeps(g: G.Group, u: Id, result: RingResult)
    requires G.GroupInv(g) && G.CanComplete(g, u, result)
    ensures Followed(g, Some(G.Complete(g, u, result)), u, g.held[u] + [result], g.selected - {u})
  {
    G.CompleteKeeps(g, u, result);
  }

  function SelectedAfter(g: G.Group, step: Step, u: Id): map<G.Reader, nat> {
    if step.Complete? then g.selected - {u} else g.selected
  }

  lemma CompleteFollows(g: G.Group, s: System, t: System, cqe: Cqe, u: Id)
    requires G.GroupInv(g) && u in g.held && g.held[u] == Held(s, u) && Accounted(s, t, u)
    requires Enabled(s, Complete(cqe)) && After(s, Complete(cqe)) == Some(t) && Touched(s, Complete(cqe)) == Some(u)
    requires G.CanComplete(g, u, cqe.result)
    ensures Followed(g, Follow(g, s, t, Complete(cqe), u), u, Held(t, u), g.selected - {u})
  {
    CompleteTouches(s, cqe, t, u);
    ReceiveKeeps(g, u, cqe.result);
  }

  lemma PollFollows(g: G.Group, s: System, t: System, step: Step)
    requires G.GroupInv(g) && Enabled(s, step) && (step.Await? || step.Next?) && After(s, step) == Some(t)
    requires step.id in g.held && g.held[step.id] == Held(s, step.id) && Accounted(s, t, step.id)
    requires ConsumedBy(t.ring.effects, step.id) == []
    ensures Followed(g, Follow(g, s, t, step, step.id), step.id, Held(t, step.id), g.selected)
  {
    var given := PollGives(s, step, t);
    PollBalance(s, t, step.id, given);
    GiveKeeps(g, step.id, GotBy(t, step.id) != GotBy(s, step.id), Held(t, step.id));
  }

  lemma ConsumeFollows(g: G.Group, s: System, t: System, u: Id, count: int)
    requires G.GroupInv(g) && u in g.held && g.held[u] == Held(s, u)
    requires Accounted(s, t, u) && t.subs[u].got == s.subs[u].got && t.posted == s.posted
    requires ConsumedBy(s.ring.effects, u) <= ConsumedBy(t.ring.effects, u)
    requires count == |ConsumedBy(t.ring.effects, u)| - |ConsumedBy(s.ring.effects, u)|
    ensures Followed(g, TakeBack(g, u, count), u, Held(t, u), g.selected)
  {
    ConsumingBalance(s, t, u);
    TakeBackKeeps(g, u, count, Held(t, u));
  }

  lemma FollowKeeps(g: G.Group, s: System, t: System, step: Step, u: Id)
    requires G.GroupInv(g) && u in g.held && g.held[u] == Held(s, u) && Accounted(s, t, u)
    requires Enabled(s, step) && After(s, step) == Some(t) && Touched(s, step) == Some(u)
    requires step.Complete? ==> G.CanComplete(g, u, step.cqe.result)
    requires ConsumedBy(s.ring.effects, u) <= ConsumedBy(t.ring.effects, u)
    requires step.Await? || step.Next? ==> ConsumedBy(t.ring.effects, u) == []
    ensures Followed(g, Follow(g, s, t, step, u), u, Held(t, u), SelectedAfter(g, step, u))
  {
    match step {
      case Complete(cqe) => CompleteFollows(g, s, t, cqe, u);
      case Await(_) => PollFollows(g, s, t, step);
      case Next(_) => PollFollows(g, s, t, step);
      case _ =>
        ConsumingGivesNothing(s, step, t, u);
        ConsumeStepFollows(g, s, t, step, u);
    }
  }

  lemma ConsumeStepTakes(g: G.Group, s: System, t: System, step: Step, u: Id)
    requires u in g.held && (step.Forget? || step.Handle?)
    ensures Follow(g, s, t, step, u) ==
            TakeBack(g, u, |ConsumedBy(t.ring.effects, u)| - |ConsumedBy(s.ring.effects, u)|)
  {
  }

  lemma ConsumeStepFollows(g: G.Group, s: System, t: System, step: Step, u: Id)
    requires G.GroupInv(g) && u in g.held && g.held[u] == Held(s, u) && Accounted(s, t, u)
    requires step.Forget? || step.Handle?
    requires t.subs[u].got == s.subs[u].got && t.posted == s.posted
    requires ConsumedBy(s.ring.effects, u) <= ConsumedBy(t.ring.effects, u)
    ensures Followed(g, Follow(g, s, t, step, u), u, Held(t, u), g.selected)
  {
    ConsumeStepTakes(g, s, t, step, u);
    ConsumeFollows(g, s, t, u, |ConsumedBy(t.ring.effects, u)| - |ConsumedBy(s.ring.effects, u)|);
  }

  lemma PolledIsAlive(s: System, step: Step, t: System)
    requires Enabled(s, step) && After(s, step) == Some(t)
    ensures step.Await? || step.Next? ==> Alive(t, step.id)
    ensures s.subs.Keys <= t.subs.Keys
  {
  }

  // ---- what a step of the runtime means for the group ----

  /** The results of a submission the step does not touch stay where they are. */
  ghost predicate OthersHeld(s: System, step: Step, t: System) {
    forall id :: id in s.subs && Touched(s, step) != Some(id) ==> id in t.subs && Held(t, id) == Held(s, id)
  }

  /** What the touched submission was given and what was consumed for it is accounted for. */
  ghost predicate TouchedAccounted(s: System, step: Step, t: System) {
    var u := Touched(s, step);
    u.Some? && u.value in s.subs ==>
      && Accounted(s, t, u.value)
      && ConsumedBy(s.ring.effects, u.value) <= ConsumedBy(t.ring.effects, u.value)
      && (step.Await? || step.Next? ==> ConsumedBy(t.ring.effects, u.value) == [])
  }

  /** An operation in flight stays so unless the kernel completes it. */
  ghost predicate FlightsKept(s: System, step: Step, t: System) {
    forall id: Id :: InFlight(s, id) && !(step.Complete? && Touched(s, step) == Some(id)) ==> InFlight(t, id)
  }

  /** A settled submission stays settled, and what the runtime still does with it concerns no buffer. */
  ghost predicate SettledKept(s: System, step: Step, t: System) {
    forall id: Id :: Settled(s, id) ==>
      && Settled(t, id)
      && (Touched(s, step) == Some(id) ==>
            && (step.Next? || step.Forget?)
            && GotBy(t, id) == GotBy(s, id) && t.ring.effects == s.ring.effects)
  }

  ghost predicate StepOk(s: System, step: Step, t: System) {
    && OthersHeld(s, step, t) && TouchedAccounted(s, step, t)
    && FlightsKept(s, step, t) && SettledKept(s, step, t)
  }

  lemma TouchedIsAccounted(s: System, step: Step, t: System)
    requires SysInv(s) && Enabled(s, step) && After(s, step) == Some(t) && ClientInv(t)
    ensures TouchedAccounted(s, step, t)
  {
    var u := Touched(s, step);
    if u.Some? && u.value in s.subs {
      StepEffects(s, step, u.value);
      PolledIsAlive(s, step, t);
      BothAccounted(s, t, u.value);
    }
  }

  lemma OthersAreHeld(s: System, step: Step, t: System)
    requires SysInv(s) && Enabled(s, step) && After(s, step) == Some(t) && ClientInv(t)
    ensures OthersHeld(s, step, t)
  {
    forall id | id in s.subs && Touched(s, step) != Some(id) ensures id in t.subs && Held(t, id) == Held(s, id) {
      UntouchedHeld(s, step, t, id);
    }
  }

  /** The key of an operation in flight stays with it, and in flight, unless the kernel completes it. */
  lemma KeyStays(s: System, step: Step, t: System, id: Id)
    requires Enabled(s, step) && After(s, step) == Some(t)
    requires InFlight(s, id) && !(step.Complete? && Touched(s, step) == Some(id))
    ensures s.subs[id].stage.key in t.ring.inflight
    ensures s.subs[id].stage.key in t.owner ==> t.owner[s.subs[id].stage.key] == id
  {
  }

  lemma FlightsAreKept(s: System, step: Step, t: System)
    requires EntriesOk(s.ring.entries) && Enabled(s, step) && After(s, step) == Some(t) && SysInv(t)
    ensures FlightsKept(s, step, t)
  {
    forall id: Id | InFlight(s, id) && !(step.Complete? && Touched(s, step) == Some(id)) ensures InFlight(t, id) {
      var key := s.subs[id].stage.key;
      KeyStays(s, step, t, id);
      assert key < KEY_LIMIT;
      OutstandingIsAwaited(t, key);
      assert Outstanding(t.ring, key) >= 1;
    }
  }

  lemma SettledStays(s: System, step: Step, t: System, id: Id)
    requires Enabled(s, step) && After(s, step) == Some(t) && Settled(s, id)
    ensures Settled(t, id)
  {
  }

  /** A completion reaches only submissions that are still on the ring. */
  lemma TouchedIsLive(s: System, step: Step, id: Id)
    requires ClientInv(s) && Enabled(s, step) && Touched(s, step) == Some(id)
    ensures step.Complete? || step.Handle? ==> Live(s, id)
  {
    if step.Complete? {
      assert KeyOk(s, step.cqe.userData);
    } else if step.Handle? {
      assert KeyOk(s, s.ring.cq[0].userData);
    }
  }

  lemma SettledPoll(s: System, step: Step, t: System, id: Id)
    requires Settled(s, id) && Touched(s, step) == Some(id) && (step.Next? || step.Forget?)
    requires Enabled(s, step) && After(s, step) == Some(t)
    ensures GotBy(t, id) == GotBy(s, id) && t.ring.effects == s.ring.effects
  {
  }

  lemma SettledAreKept(s: System, step: Step, t: System)
    requires ClientInv(s) && Enabled(s, step) && After(s, step) == Some(t)
    ensures SettledKept(s, step, t)
  {
    forall id: Id | Settled(s, id)
      ensures Settled(t, id)
      ensures Touched(s, step) == Some(id) ==>
                && (step.Next? || step.Forget?)
                && GotBy(t, id) == GotBy(s, id) && t.ring.effects == s.ring.effects
    {
      SettledStays(s, step, t, id);
      if Touched(s, step) == Some(id) {
        TouchedIsLive(s, step, id);
        SettledPoll(s, step, t, id);
      }
    }
  }

  lemma StepIsOk(s: System, step: Step, t: System)
    requires SysInv(s) && Enabled(s, step) && After(s, step) == Some(t) && SysInv(t)
    ensures StepOk(s, step, t)
  {
    TouchedIsAccounted(s, step, t);
    OthersAreHeld(s, step, t);
    FlightsAreKept(s, step, t);
    SettledAreKept(s, step, t);
  }

  // ---- what a step keeps of the links to the group ----

  lemma LinkedAfter(s: System, step: Step, t: System, g: G.Group, h: G.Group, u: Option<Id>)
    requires OthersHeld(s, step, t) && Linked(s, g) && u == Touched(s, step)
    requires if u.Some? && u.value in g.held then u.value in t.subs && h.held == g.held[u.value := Held(t, u.value)]
             else h.held == g.held
    ensures Linked(t, h)
  {
  }

  lemma SelectedStays(s: System, step: Step, t: System, g: G.Group, h: G.Group)
    requires FlightsKept(s, step, t) && SelectedInFlight(s, g) && h.selected.Keys <= g.selected.Keys
    requires forall u :: u in h.selected ==> !(step.Complete? && Touched(s, step) == Some(u))
    ensures SelectedInFlight(t, h)
  {
  }

  /** What the runtime still does with a settled read leaves the group as it is. */
  lemma SettledFollows(s: System, g: G.Group, step: Step, t: System, id: Id)
    requires SettledKept(s, step, t) && Settled(s, id) && id in g.held && Touched(s, step) == Some(id)
    ensures Follow(g, s, t, step, id) == Some(g)
  {
  }

  lemma StageStays(w: World, step: Step, t: System, h: G.Group)
    requires StageOk(w) && SettledKept(w.sys, step, t)
    requires if ReadTouched(w, step) then Follow(w.group, w.sys, t, step, Touched(w.sys, step).value) == Some(h)
             else h == w.group
    requires h.held.Keys == w.group.held.Keys
    ensures StageOk(w.(sys := t, group := h))
  {
    if w.stage != InUse && ReadTouched(w, step) {
      SettledFollows(w.sys, w.group, step, t, Touched(w.sys, step).value);
    }
  }

  // ---- one move ----

  /** All the buffers there are, or were: with the group, with the user, or gone with the group. */
  function Known(w: World): set<G.Buffer> {
    G.All(w.group) + w.freed
  }

  ghost predicate KeepsAll(w: World, v: World) {
    GroupOk(v) && Known(v) == Known(w)
  }

  lemma Assembled(w: World, t: System, h: G.Group)
    requires G.GroupInv(h) && Linked(t, h) && SelectedInFlight(t, h)
    requires StageOk(w.(sys := t, group := h)) && w.freed !! G.All(w.group) && G.All(h) == G.All(w.group)
    ensures KeepsAll(w, w.(sys := t, group := h))
  {
  }

  lemma ReadStepKeeps(w: World, step: Step, t: System, u: Id, h: G.Group)
    requires GroupOk(w) && StepOk(w.sys, step, t) && u in t.subs
    requires ReadTouched(w, step) && Touched(w.sys, step) == Some(u)
    requires Follow(w.group, w.sys, t, step, u) == Some(h)
    requires Followed(w.group, Some(h), u, Held(t, u), SelectedAfter(w.group, step, u))
    ensures KeepsAll(w, w.(sys := t, group := h))
  {
    LinkedAfter(w.sys, step, t, w.group, h, Some(u));
    SelectedStays(w.sys, step, t, w.group, h);
    StageStays(w, step, t, h);
    Assembled(w, t, h);
  }

  lemma OtherStepKeeps(w: World, step: Step, t: System)
    requires GroupOk(w) && StepOk(w.sys, step, t) && !ReadTouched(w, step)
    ensures KeepsAll(w, w.(sys := t))
  {
    LinkedAfter(w.sys, step, t, w.group, w.group, Touched(w.sys, step));
    SelectedStays(w.sys, step, t, w.group, w.group);
    StageStays(w, step, t, w.group);
    Assembled(w, t, w.group);
  }

  lemma RuntimeFollows(w: World, step: Step, t: System)
    requires GroupOk(w) && Possible(w, Runtime(step)) && After(w.sys, step) == Some(t) && StepOk(w.sys, step, t)
    ensures AfterMove(w, Runtime(step)).Some? && AfterMove(w, Runtime(step)).value.sys == t
    ensures KeepsAll(w, AfterMove(w, Runtime(step)).value)
  {
    if ReadTouched(w, step) {
      var u := Touched(w.sys, step).value;
      FollowKeeps(w.group, w.sys, t, step, u);
      PolledIsAlive(w.sys, step, t);
      ReadStepKeeps(w, step, t, u, Follow(w.group, w.sys, t, step, u).value);
    } else {
      OtherStepKeeps(w, step, t);
    }
  }

  lemma RuntimeKeeps(w: World, step: Step) returns (v: World)
    requires Possible(w, Runtime(step)) && !Hazardous(w.sys, step) && SysInv(w.sys) && GroupOk(w)
    ensures AfterMove(w, Runtime(step)) == Some(v) && KeepsAll(w, v) && SysInv(v.sys)
  {
    StepKeeps(w.sys, step);
    var t := After(w.sys, step).value;
    StepIsOk(w.sys, step, t);
    RuntimeFollows(w, step, t);
    v := AfterMove(w, Runtime(step)).value;
  }

  /** A detached submission that comes with a change of the group's buffers. */
  lemma DetachKeeps(w: World, h: G.Group)
    requires GroupOk(w) && w.handles > 0 && Enabled(w.sys, Detach) && StepOk(w.sys, Detach, After(w.sys, Detach).value)
    requires G.GroupInv(h) && G.All(h) == G.All(w.group) && h.held == w.group.held && h.selected == w.group.selected
    ensures KeepsAll(w, w.(sys := After(w.sys, Detach).value, group := h))
  {
    var t := After(w.sys, Detach).value;
    LinkedAfter(w.sys, Detach, t, w.group, h, None);
    SelectedStays(w.sys, Detach, t, w.group, h);
    Assembled(w, t, h);
  }

  lemma MakeKeeps(w: World, buffer: G.Buffer)
    requires GroupOk(w) && Possible(w, Make(buffer))
    ensures GroupOk(w.(group := w.group.(user := w.group.user + {buffer})))
  {
    var h := w.group.(user := w.group.user + {buffer});
    assert G.All(h) == G.All(w.group) + {buffer};
    assert G.IdsOk(h) by {
      forall p, k ensures G.IsAt(h, p, k) <==> G.IsAt(w.group, p, k) {
      }
      G.SamePlaces(w.group, h);
    }
    MadeIsNew(w.group, h, buffer);
  }

  lemma MadeIsNew(g: G.Group, h: G.Group, buffer: G.Buffer)
    requires G.BuffersOk(g) && buffer !in G.All(g) && h == g.(user := g.user + {buffer})
    ensures G.BuffersOk(h)
  {
    assert forall k :: k in g.store.buffers ==> g.store.buffers[k] in g.store.buffers.Values;
  }

  lemma StartReadKeeps(w: World, reader: Id)
    requires GroupOk(w) && w.handles > 0 && Enabled(w.sys, New(reader))
    requires StepOk(w.sys, New(reader), After(w.sys, New(reader)).value)
    ensures KeepsAll(w, w.(sys := After(w.sys, New(reader)).value,
                           group := w.group.(held := w.group.held[reader := []])))
  {
    var t := After(w.sys, New(reader)).value;
    var h := w.group.(held := w.group.held[reader := []]);
    assert reader !in w.group.held;
    G.StartKeeps(w.group, reader);
    LinkedAfter(w.sys, New(reader), t, w.group, w.group, None);
    SelectedStays(w.sys, New(reader), t, w.group, h);
    Assembled(w, t, h);
  }

  /** The step of the runtime that comes with a move. */
  lemma StepOfMove(s: System, step: Step)
    requires SysInv(s) && Enabled(s, step) && (step.New? || step.Detach?)
    ensures After(s, step).Some? && SysInv(After(s, step).value) && StepOk(s, step, After(s, step).value)
  {
    StepKeeps(s, step);
    StepIsOk(s, step, After(s, step).value);
  }

  /** A move of the group alone, that leaves its slab and its reads as they are. */
  lemma GroupMoveKeeps(w: World, h: G.Group)
    requires GroupOk(w) && G.GroupInv(h) && G.All(h) == G.All(w.group)
    requires h.store == w.group.store && h.held == w.group.held
    requires forall u :: u in h.selected ==> InFlight(w.sys, u)
    ensures KeepsAll(w, w.(group := h))
  {
  }

  /** Nothing refers to the group: every read was used up, and everything it turned into was dropped. */
  lemma UnreferencedIsSettled(w: World, u: Id)
    requires WorldInv(w) && References(w) == 0 && u in w.group.held
    ensures Settled(w.sys, u)
  {
    assert u !in HeldByOp(w) && u !in HeldByCancel(w);
    assert IdOk(w.sys, u);
  }

  lemma SettledIsUnreferenced(w: World, u: Id)
    requires WorldInv(w) && u in w.group.held && Settled(w.sys, u)
    ensures u !in HeldByOp(w) && u !in HeldByCancel(w)
  {
    assert IdOk(w.sys, u);
  }

  /** So the last reference goes exactly when the user's are gone and every read has settled. */
  lemma ReferencesAreExact(w: World)
    requires WorldInv(w)
    ensures References(w) == 0 <==> w.handles == 0 && forall u :: u in w.group.held ==> Settled(w.sys, u)
  {
    forall u | u in w.group.held && References(w) == 0 ensures Settled(w.sys, u) {
      UnreferencedIsSettled(w, u);
    }
    forall u | u in w.group.held && Settled(w.sys, u) ensures u !in HeldByOp(w) && u !in HeldByCancel(w) {
      SettledIsUnreferenced(w, u);
    }
    if forall u :: u in w.group.held ==> Settled(w.sys, u) {
      assert HeldByOp(w) == {} && HeldByCancel(w) == {};
    }
  }

  lemma TeardownKeeps(w: World)
    requires WorldInv(w) && Possible(w, Teardown)
    ensures KeepsAll(w, AfterMove(w, Teardown).value)
  {
    forall u | u in w.group.held ensures Settled(w.sys, u) {
      UnreferencedIsSettled(w, u);
    }
  }

  /** While the group is being removed, nothing is selected for a read or on its way to one. */
  lemma NothingOnItsWay(w: World)
    requires GroupOk(w) && w.stage != InUse
    ensures w.group.selected == map[]
    ensures forall u :: u in w.group.held ==> w.group.held[u] == []
  {
    forall u | u in w.group.held ensures w.group.held[u] == [] && u !in w.group.selected {
      assert Settled(w.sys, u);
    }
    assert w.group.selected.Keys == {};
  }

  /** The removal panics if and only if there are more buffers than it can ask for. */
  lemma RemovalPanicsExactly(w: World)
    requires GroupOk(w) && Possible(w, KernelRemoves)
    ensures w.group.pool == w.group.store.buffers.Keys
    ensures AfterMove(w, KernelRemoves).None? <==> |w.group.store.buffers| >= G.ID_LIMIT
  {
    NothingOnItsWay(w);
    G.TeardownIsExact(w.group);
  }

  lemma EmptiedIsInOrder(g: G.Group)
    requires G.GroupInv(g) && g.providing == [] && g.selected == map[]
    requires forall u :: u in g.held ==> g.held[u] == []
    ensures G.GroupInv(g.(store := G.EMPTY.store, pool := {}))
    ensures G.All(g.(store := G.EMPTY.store, pool := {})) == g.user
    ensures g.user !! g.store.buffers.Values && g.user !! G.CancelledSet(g.store)
  {
    var h := g.(store := G.EMPTY.store, pool := {});
    assert forall p, k :: !G.IsAt(h, p, k);
    assert G.All(h) == g.user;
  }

  lemma FreedParts(values: set<G.Buffer>, cancelled: set<G.Buffer>, user: set<G.Buffer>, freed: set<G.Buffer>)
    requires freed !! values + cancelled + user && user !! values && user !! cancelled
    ensures freed + values + cancelled !! user
    ensures user + (freed + values + cancelled) == values + cancelled + user + freed
  {
  }

  lemma RemovedLinks(w: World, v: World)
    requires Linked(w.sys, w.group) && w.group.selected == map[] && StageOk(w)
    requires w.stage.Removing? && RemoveGroup(w) == Some(v)
    ensures Linked(v.sys, v.group) && SelectedInFlight(v.sys, v.group) && StageOk(v)
  {
  }

  lemma RemovedBuffers(w: World, v: World)
    requires w.freed !! G.All(w.group) && w.stage.Removing? && RemoveGroup(w) == Some(v)
    requires w.group.user !! w.group.store.buffers.Values && w.group.user !! G.CancelledSet(w.group.store)
    requires G.All(v.group) == w.group.user
    ensures v.freed !! G.All(v.group) && Known(v) == Known(w)
  {
    FreedParts(w.group.store.buffers.Values, G.CancelledSet(w.group.store), w.group.user, w.freed);
  }

  /** Then the group goes, and every buffer it had is freed. */
  lemma RemovedKeeps(w: World, v: World)
    requires GroupOk(w) && w.group.providing == [] && w.group.selected == map[]
    requires forall u :: u in w.group.held ==> w.group.held[u] == []
    requires w.stage.Removing? && RemoveGroup(w) == Some(v)
    ensures KeepsAll(w, v)
  {
    EmptiedIsInOrder(w.group);
    RemovedBuffers(w, v);
    RemovedLinks(w, v);
  }

  lemma RemovalKeeps(w: World) returns (v: World)
    requires Possible(w, KernelRemoves) && |w.group.store.buffers| < G.ID_LIMIT && GroupOk(w)
    ensures RemoveGroup(w) == Some(v) && KeepsAll(w, v) && v.sys == w.sys
  {
    RemovalPanicsExactly(w);
    NothingOnItsWay(w);
    v := RemoveGroup(w).value;
    RemovedKeeps(w, v);
  }

  /** The runtime's two hazards, and the removal of a group with more buffers than it can ask for. */
  predicate Risky(w: World, move: Move)
    requires Possible(w, move)
  {
    || (move.Runtime? && Hazardous(w.sys, move.step))
    || (move.KernelRemoves? && |w.group.store.buffers| >= G.ID_LIMIT)
  }

  /**
    No move panics, every buffer stays at exactly one place, and only the user making one changes
    which buffers there are.
  */
  lemma MoveKeeps(w: World, move: Move)
    requires WorldInv(w) && Possible(w, move) && !Risky(w, move)
    ensures AfterMove(w, move).Some?
    ensures WorldInv(AfterMove(w, move).value)
    ensures Known(AfterMove(w, move).value) == if move.Make? then Known(w) + {move.buffer} else Known(w)
  {
    match move {
      case Make(buffer) =>
        MakeKeeps(w, buffer);
      case Provide(buffer, slot) =>
        G.ProvideKeeps(w.group, buffer, slot);
        StepOfMove(w.sys, Detach);
        DetachKeeps(w, G.Provide(w.group, buffer, slot));
      case Recycle(slot) =>
        G.RecycleKeeps(w.group, slot);
        StepOfMove(w.sys, Detach);
        DetachKeeps(w, G.Recycle(w.group, slot));
      case StartRead(reader) =>
        StepOfMove(w.sys, New(reader));
        StartReadKeeps(w, reader);
      case Runtime(step) =>
        var v := RuntimeKeeps(w, step);
      case Teardown =>
        TeardownKeeps(w);
      case KernelRemoves =>
        var v := RemovalKeeps(w);
      case _ =>
        KernelMoveKeeps(w, move);
    }
  }

  lemma KernelMoveKeeps(w: World, move: Move)
    requires GroupOk(w) && Possible(w, move)
    requires move.KernelProvides? || move.KernelSelects? || move.KernelReturns? || move.Share? || move.Unshare?
    ensures KeepsAll(w, AfterMove(w, move).value)
  {
    match move {
      case KernelProvides =>
        G.KernelProvidesKeeps(w.group);
        GroupMoveKeeps(w, G.KernelProvides(w.group));
      case KernelSelects(reader, id) =>
        G.SelectKeeps(w.group, reader, id);
        GroupMoveKeeps(w, G.Select(w.group, reader, id));
      case KernelReturns(reader) =>
        G.UnselectKeeps(w.group, reader);
        GroupMoveKeeps(w, G.Unselect(w.group, reader));
      case _ =>
    }
  }

  // ---- whole runs ----

  datatype Result = At(w: World) | Panic | NotPossible

  function OneMove(w: World, move: Move): Result {
    if !Possible(w, move) then NotPossible
    else
      match AfterMove(w, move)
      case None => Panic
      case Some(v) => At(v)
  }

  function RunMoves(moves: seq<Move>): Result {
    if moves == [] then At(BEGIN)
    else
      match RunMoves(moves[..|moves| - 1])
      case At(w) => OneMove(w, moves[|moves| - 1])
      case other => other
  }

  /** No move of the run is risky. */
  predicate CalmMoves(moves: seq<Move>) {
    moves == [] ||
    (CalmMoves(moves[..|moves| - 1]) &&
     match RunMoves(moves[..|moves| - 1])
     case At(w) => Possible(w, moves[|moves| - 1]) ==> !Risky(w, moves[|moves| - 1])
     case _ => true)
  }

  /** Every buffer the user made in the run. */
  function Made(moves: seq<Move>): set<G.Buffer> {
    set i | 0 <= i < |moves| && moves[i].Make? :: moves[i].buffer
  }

  lemma MadeNext(moves: seq<Move>)
    requires moves != []
    ensures var last := |moves| - 1;
            Made(moves) == Made(moves[..last]) + if moves[last].Make? then {moves[last].buffer} else {}
  {
    var last := |moves| - 1;
    var front := moves[..last];
    forall b | b in Made(moves) ensures b in Made(front) || (moves[last].Make? && b == moves[last].buffer) {
      var i :| 0 <= i < |moves| && moves[i].Make? && moves[i].buffer == b;
      assert i < last ==> front[i] == moves[i];
    }
    forall b | b in Made(front) ensures b in Made(moves) {
      var i :| 0 <= i < |front| && front[i].Make? && front[i].buffer == b;
      assert front[i] == moves[i];
    }
  }

  lemma BeginIsSound()
    ensures WorldInv(BEGIN) && Known(BEGIN) == {}
  {
    StartIsSound();
    assert forall p, k :: !G.IsAt(G.EMPTY, p, k);
  }

  /**
    Conservation: after any calm run the buffers made so far are all there, each under one id, among
    the cancelled ones, with the user, or gone with the group; and the ids in use are each not yet
    provided, in the kernel's pool, selected for one read, or in one completion on its way to one read.
  */
  lemma {:induction false} BuffersAreConserved(moves: seq<Move>)
    requires CalmMoves(moves)
    ensures !RunMoves(moves).Panic?
    ensures RunMoves(moves).At? ==> WorldInv(RunMoves(moves).w) && Known(RunMoves(moves).w) == Made(moves)
  {
    if moves == [] {
      BeginIsSound();
    } else {
      BuffersAreConserved(moves[..|moves| - 1]);
      if RunMoves(moves[..|moves| - 1]).At? {
        OneMoveKeeps(RunMoves(moves[..|moves| - 1]).w, moves[|moves| - 1]);
        MadeNext(moves);
      }
    }
  }

  lemma OneMoveKeeps(w: World, move: Move)
    requires WorldInv(w) && (Possible(w, move) ==> !Risky(w, move))
    ensures !OneMove(w, move).Panic?
    ensures OneMove(w, move).At? ==>
              && WorldInv(OneMove(w, move).w)
              && Known(OneMove(w, move).w) == Known(w) + if move.Make? then {move.buffer} else {}
  {
    if Possible(w, move) {
      MoveKeeps(w, move);
      OneMoveIs(w, move, AfterMove(w, move).value);
    }
  }

  lemma OneMoveIs(w: World, move: Move, v: World)
    requires Possible(w, move) && AfterMove(w, move) == Some(v)
    ensures OneMove(w, move) == At(v)
  {
  }

  lemma RemovalFreesAll(w: World)
    requires WorldInv(w) && Possible(w, KernelRemoves)
    ensures w.group.pool == w.group.store.buffers.Keys && w.handles == 0
    ensures AfterMove(w, KernelRemoves).None? <==> |w.group.store.buffers| >= G.ID_LIMIT
    ensures var v := AfterMove(w, KernelRemoves);
            v.Some? ==> Known(w) == v.value.freed + w.group.user && v.value.freed !! w.group.user
  {
    RemovalPanicsExactly(w);
    NothingOnItsWay(w);
    EmptiedIsInOrder(w.group);
    if |w.group.store.buffers| < G.ID_LIMIT {
      var v := RemovalKeeps(w);
    }
  }

  /**
    Teardown: in any calm run, once the last reference to the group is gone and its provide entries have
    been executed, the kernel's pool has exactly the buffers present. So the removal panics if and only
    if they are too many for sixteen bits; otherwise every buffer of the group is freed, once.
  */
  lemma TeardownRemovesAll(moves: seq<Move>)
    requires CalmMoves(moves) && RunMoves(moves).At? && Possible(RunMoves(moves).w, KernelRemoves)
    ensures var w := RunMoves(moves).w;
            w.group.pool == w.group.store.buffers.Keys && w.handles == 0
    ensures var w := RunMoves(moves).w;
            AfterMove(w, KernelRemoves).None? <==> |w.group.store.buffers| >= G.ID_LIMIT
    ensures var w := RunMoves(moves).w;
            var v := AfterMove(w, KernelRemoves);
            v.Some? ==> Made(moves) == v.value.freed + w.group.user && v.value.freed !! w.group.user
  {
    BuffersAreConserved(moves);
    RemovalFreesAll(RunMoves(moves).w);
  }
}
