/** Tasks, their reference counts, and the queue they are polled from, over whole runs. */
module ExecutorModel {
  import opened Common

  /** `wakers` counts live wakers of the task, `loop` the reference the executor's loop holds. */
  datatype Info = Info(scheduled: bool, strong: int, wakers: nat, loop: nat)

  /** `senders` counts the ends of the queue's channel: the queue's own and one in each live task. */
  datatype State<T(==)> = State(queue: seq<T>, tasks: map<T, Info>, senders: int, current: Option<T>)

  function Idle<T>(): State<T> {
    State([], map[], 1, None)
  }

  /** Giving back one reference; the last one drops the task and its end of the channel. */
  function Release<T>(s: State<T>, t: T, info: Info): State<T>
    requires t in s.tasks
  {
    s.(tasks := s.tasks[t := info.(strong := info.strong - 1)],
       senders := if info.strong == 1 then s.senders - 1 else s.senders)
  }

  function Schedule<T>(s: State<T>, t: T): State<T>
    requires t in s.tasks
  {
    if s.tasks[t].scheduled then s
    else
      s.(queue := s.queue + [t],
         tasks := s.tasks[t := s.tasks[t].(scheduled := true, strong := s.tasks[t].strong + 1)])
  }

  function With<T>(s: State<T>, t: T, info: Info): State<T> {
    s.(tasks := s.tasks[t := info])
  }

  lemma ReleaseOverwrites<T>(s: State<T>, t: T, info: Info)
    requires t in s.tasks
    ensures Release(With(s, t, info), t, info) == Release(s, t, info)
  {
    assert s.tasks[t := info][t := info.(strong := info.strong - 1)] == s.tasks[t := info.(strong := info.strong - 1)];
  }

  /** A new task is scheduled, and the reference it was made with is given back. */
  function Spawn<T>(s: State<T>, t: T): State<T>
    requires t !in s.tasks
  {
    Enqueued(Made(s, t), t)
  }

  function Made<T>(s: State<T>, t: T): State<T> {
    s.(tasks := s.tasks[t := Info(false, 1, 0, 0)], senders := s.senders + 1)
  }

  function Enqueued<T>(s: State<T>, t: T): State<T>
    requires t in s.tasks
  {
    var queued := Schedule(s, t);
    Release(queued, t, queued.tasks[t])
  }

  function CloneWaker<T>(s: State<T>, t: T): State<T>
    requires t in s.tasks
  {
    s.(tasks := s.tasks[t := s.tasks[t].(strong := s.tasks[t].strong + 1, wakers := s.tasks[t].wakers + 1)])
  }

  function DropWaker<T>(s: State<T>, t: T): State<T>
    requires t in s.tasks && s.tasks[t].wakers > 0
  {
    Release(s, t, s.tasks[t].(wakers := s.tasks[t].wakers - 1))
  }

  function Wake<T>(s: State<T>, t: T): State<T>
    requires t in s.tasks && s.tasks[t].wakers > 0
  {
    var queued := Schedule(s, t);
    Release(queued, t, queued.tasks[t].(wakers := queued.tasks[t].wakers - 1))
  }

  /** The loop takes the oldest task, makes a waker for it, and starts polling it. */
  function BeginPoll<T>(s: State<T>): State<T>
    requires s.queue != [] && s.queue[0] in s.tasks
  {
    var t := s.queue[0];
    var info := s.tasks[t];
    s.(queue := s.queue[1..],
       tasks := s.tasks[t := Info(false, info.strong + 1, info.wakers + 1, info.loop + 1)],
       current := Some(t))
  }

  /** The poll is over: the loop gives back its waker and its reference. */
  function EndPoll<T>(s: State<T>): State<T>
    requires s.current.Some? && s.current.value in s.tasks
    requires s.tasks[s.current.value].wakers > 0 && s.tasks[s.current.value].loop > 0
  {
    var t := s.current.value;
    var woken := DropWaker(s, t);
    Release(woken, t, woken.tasks[t].(loop := woken.tasks[t].loop - 1)).(current := None)
  }

  datatype Step<T> =
    | Spawned(t: T)
    | Cloned(t: T)
    | Woken(t: T)
    | WokenByRef(t: T)
    | Dropped(t: T)
    | Begun
    | Ended

  /** A waker can only be used while there is one; the loop's own is not given away. */
  predicate Spare<T>(s: State<T>, t: T) {
    t in s.tasks && s.tasks[t].wakers > (if s.current == Some(t) then 1 else 0)
  }

  predicate Enabled<T>(s: State<T>, step: Step<T>) {
    match step
    case Spawned(t) => t !in s.tasks
    case Cloned(t) => t in s.tasks && s.tasks[t].wakers > 0
    case Woken(t) => Spare(s, t)
    case WokenByRef(t) => t in s.tasks && s.tasks[t].wakers > 0
    case Dropped(t) => Spare(s, t)
    case Begun => s.current == None && s.queue != [] && s.queue[0] in s.tasks
    case Ended => s.current.Some? && s.current.value in s.tasks &&
                  s.tasks[s.current.value].wakers > 0 && s.tasks[s.current.value].loop > 0
  }

  function After<T>(s: State<T>, step: Step<T>): State<T>
    requires Enabled(s, step)
  {
    match step
    case Spawned(t) => Spawn(s, t)
    case Cloned(t) => CloneWaker(s, t)
    case Woken(t) => Wake(s, t)
    case WokenByRef(t) => Schedule(s, t)
    case Dropped(t) => DropWaker(s, t)
    case Begun => BeginPoll(s)
    case Ended => EndPoll(s)
  }

  function LiveTasks<T>(tasks: map<T, Info>): set<T> {
    set t | t in tasks && tasks[t].strong > 0
  }

  /** A task is queued exactly when it is marked scheduled; every reference to it is accounted for. */
  ghost predicate TaskOk<T>(s: State<T>, t: T)
    requires t in s.tasks
  {
    var info := s.tasks[t];
    && (info.scheduled <==> t in s.queue)
    && info.strong == info.wakers + info.loop + (if t in s.queue then 1 else 0)
    && info.loop == (if s.current == Some(t) then 1 else 0)
    && (s.current == Some(t) ==> info.wakers > 0)
  }

  ghost predicate Inv<T>(s: State<T>) {
    && NoDuplicates(s.queue)
    && (forall i :: 0 <= i < |s.queue| ==> s.queue[i] in s.tasks)
    && (forall t :: t in s.tasks ==> TaskOk(s, t))
    && (s.current.Some? ==> s.current.value in s.tasks)
    && s.senders == 1 + |LiveTasks(s.tasks)|
  }

  lemma LiveCount<T>(before: map<T, Info>, t: T, info: Info)
    ensures |LiveTasks(before[t := info])| ==
            |LiveTasks(before)|
            + (if info.strong > 0 then 1 else 0)
            - (if t in before && before[t].strong > 0 then 1 else 0)
  {
    var live, now := LiveTasks(before), LiveTasks(before[t := info]);
    if info.strong > 0 {
      assert now == live + {t};
    } else {
      assert now == live - {t};
    }
  }

  lemma OtherTasks<T>(s: State<T>, u: State<T>, t: T)
    requires Inv(s) && t in u.tasks && u.tasks == s.tasks[t := u.tasks[t]]
    requires forall x :: x != t ==> (x in u.queue <==> x in s.queue)
    requires forall x :: x != t && x in s.tasks ==> (u.current == Some(x) <==> s.current == Some(x))
    ensures forall x :: x in u.tasks && x != t ==> TaskOk(u, x)
  {
    forall x | x in u.tasks && x != t ensures TaskOk(u, x) {
      assert TaskOk(s, x);
    }
  }

  lemma ScheduleKeeps<T>(s: State<T>, t: T)
    requires Inv(s) && t in s.tasks && s.tasks[t].strong > 0
    ensures Inv(Schedule(s, t)) && t in Schedule(s, t).queue
  {
    var u := Schedule(s, t);
    assert TaskOk(s, t);
    if !s.tasks[t].scheduled {
      LiveCount(s.tasks, t, u.tasks[t]);
      assert forall x :: x in u.queue <==> x in s.queue || x == t;
      OtherTasks(s, u, t);
      assert TaskOk(u, t);
    }
  }

  lemma SpawnKeeps<T>(s: State<T>, t: T)
    requires Inv(s) && t !in s.tasks
    ensures Inv(Spawn(s, t)) && t in Spawn(s, t).queue
  {
    var u := Spawn(s, t);
    assert t !in s.queue;
    assert u.tasks == s.tasks[t := Info(true, 1, 0, 0)];
    LiveCount(s.tasks, t, u.tasks[t]);
    assert forall x :: x in u.queue <==> x in s.queue || x == t;
    OtherTasks(s, u, t);
    assert TaskOk(u, t);
  }

  lemma CloneKeeps<T>(s: State<T>, t: T)
    requires Inv(s) && t in s.tasks && s.tasks[t].wakers > 0
    ensures Inv(CloneWaker(s, t))
  {
    var u := CloneWaker(s, t);
    assert TaskOk(s, t);
    LiveCount(s.tasks, t, u.tasks[t]);
    OtherTasks(s, u, t);
    assert TaskOk(u, t);
  }

  lemma DropKeeps<T>(s: State<T>, t: T)
    requires Inv(s) && Spare(s, t)
    ensures Inv(DropWaker(s, t))
  {
    var u := DropWaker(s, t);
    assert TaskOk(s, t);
    LiveCount(s.tasks, t, u.tasks[t]);
    OtherTasks(s, u, t);
    assert TaskOk(u, t);
  }

  lemma WakeKeeps<T>(s: State<T>, t: T)
    requires Inv(s) && Spare(s, t)
    ensures Inv(Wake(s, t)) && t in Wake(s, t).queue
  {
    assert TaskOk(s, t);
    ScheduleKeeps(s, t);
    var queued := Schedule(s, t);
    assert Spare(queued, t);
    DropKeeps(queued, t);
    assert Wake(s, t) == DropWaker(queued, t);
  }

  lemma BeginKeeps<T>(s: State<T>)
    requires Inv(s) && Enabled(s, Begun)
    ensures Inv(BeginPoll(s))
  {
    var u := BeginPoll(s);
    var t := s.queue[0];
    assert TaskOk(s, t);
    LiveCount(s.tasks, t, u.tasks[t]);
    assert forall x :: x in s.queue <==> x == t || x in u.queue;
    assert t !in u.queue;
    OtherTasks(s, u, t);
    assert TaskOk(u, t);
  }

  lemma EndKeeps<T>(s: State<T>)
    requires Inv(s) && Enabled(s, Ended)
    ensures Inv(EndPoll(s))
  {
    var u := EndPoll(s);
    var t := s.current.value;
    assert TaskOk(s, t);
    assert u.tasks == s.tasks[t := u.tasks[t]];
    LiveCount(s.tasks, t, u.tasks[t]);
    OtherTasks(s, u, t);
    assert TaskOk(u, t);
  }

  /** The task being polled is held by the loop and by the loop's waker. */
  lemma PolledTask<T>(s: State<T>)
    requires Inv(s) && s.current.Some?
    ensures Enabled(s, Ended) && s.tasks[s.current.value].strong >= 2
  {
    assert TaskOk(s, s.current.value);
  }

  lemma StepKeeps<T>(s: State<T>, step: Step<T>)
    requires Inv(s) && Enabled(s, step)
    ensures Inv(After(s, step))
  {
    match step {
      case Spawned(t) => SpawnKeeps(s, t);
      case Cloned(t) => CloneKeeps(s, t);
      case Woken(t) => WakeKeeps(s, t);
      case WokenByRef(t) =>
        assert TaskOk(s, t);
        ScheduleKeeps(s, t);
      case Dropped(t) => DropKeeps(s, t);
      case Begun => BeginKeeps(s);
      case Ended => EndKeeps(s);
    }
  }

  // ---- whole runs ----

  predicate Legal<T>(s: State<T>, steps: seq<Step<T>>)
    decreases steps, 0
  {
    steps == [] ||
    (Legal(s, steps[..|steps| - 1]) && Enabled(AfterAll(s, steps[..|steps| - 1]), steps[|steps| - 1]))
  }

  function AfterAll<T>(s: State<T>, steps: seq<Step<T>>): State<T>
    requires Legal(s, steps)
    decreases steps, 1
  {
    if steps == [] then s else After(AfterAll(s, steps[..|steps| - 1]), steps[|steps| - 1])
  }

  lemma {:induction false} RunKeeps<T>(s: State<T>, steps: seq<Step<T>>)
    requires Inv(s) && Legal(s, steps)
    ensures Inv(AfterAll(s, steps))
  {
    if steps != [] {
      RunKeeps(s, steps[..|steps| - 1]);
      StepKeeps(AfterAll(s, steps[..|steps| - 1]), steps[|steps| - 1]);
    }
  }

  lemma IdleInv<T>()
    ensures Inv(Idle<T>())
  {
    assert LiveTasks(Idle<T>().tasks) == {};
  }

  /** No task is alive. */
  ghost predicate Over<T>(s: State<T>) {
    forall t :: t in s.tasks ==> s.tasks[t].strong == 0
  }

  /** The channel has one end left exactly when no task is alive. */
  lemma DoneMeansNoTask<T>(s: State<T>)
    requires Inv(s)
    ensures s.senders == 1 <==> Over(s)
    ensures s.senders == 1 ==> s.queue == [] && forall t :: t in s.tasks ==> s.tasks[t].wakers == 0
  {
    forall t | t in s.tasks ensures TaskOk(s, t) && s.tasks[t].strong >= 0 {
      assert TaskOk(s, t);
    }
    assert s.queue != [] ==> s.queue[0] in s.queue && s.tasks[s.queue[0]].strong > 0;
    assert (forall t :: t in s.tasks ==> s.tasks[t].strong == 0) ==> LiveTasks(s.tasks) == {};
    if s.senders == 1 {
      forall t | t in s.tasks ensures s.tasks[t].strong == 0 {
        assert t !in LiveTasks(s.tasks);
      }
    }
  }

  /**
    The loop's exit test is exact: in every run only one end of the channel is left if and only if no
    task is alive; then nothing is queued and no waker is left, and any live task keeps it running.
  */
  lemma ExitIsExact<T>(steps: seq<Step<T>>)
    requires Legal(Idle(), steps)
    ensures var s := AfterAll(Idle(), steps);
            && (s.senders == 1 <==> Over(s))
            && (s.senders == 1 ==> s.queue == [] && s.current == None &&
                                   forall t :: t in s.tasks ==> s.tasks[t].wakers == 0)
  {
    IdleInv<T>();
    RunKeeps(Idle(), steps);
    var s := AfterAll(Idle(), steps);
    DoneMeansNoTask(s);
    if s.current.Some? {
      PolledTask(s);
    }
  }

  /** In every run a task is queued at most once, and exactly when it is marked scheduled. */
  lemma QueuedOnce<T>(steps: seq<Step<T>>)
    requires Legal(Idle(), steps)
    ensures var s := AfterAll(Idle(), steps);
            NoDuplicates(s.queue) && forall t :: t in s.tasks ==> (s.tasks[t].scheduled <==> t in s.queue)
    ensures var s := AfterAll(Idle(), steps);
            forall t :: t in s.tasks ==>
              s.tasks[t].strong ==
              s.tasks[t].wakers + s.tasks[t].loop + (if t in s.queue then 1 else 0)
  {
    IdleInv<T>();
    RunKeeps(Idle(), steps);
    var s := AfterAll(Idle(), steps);
    forall t | t in s.tasks ensures TaskOk(s, t) {
    }
  }

  function WakersOf<T>(s: State<T>, t: T): nat {
    if t in s.tasks then s.tasks[t].wakers else 0
  }

  lemma StepWakers<T>(s: State<T>, step: Step<T>, t: T)
    requires Inv(s) && Enabled(s, step)
    ensures var u := After(s, step);
            && WakersOf(u, t) - (if u.current == Some(t) then 1 else 0) ==
               WakersOf(s, t) - (if s.current == Some(t) then 1 else 0)
               + (if step == Cloned(t) then 1 else 0)
               - (if step == Woken(t) || step == Dropped(t) then 1 else 0)
            && (t in s.tasks || step == Spawned(t) <==> t in u.tasks)
  {
  }

  lemma LastStepCounts<T>(steps: seq<Step<T>>, step: Step<T>)
    requires steps != []
    ensures multiset(steps)[step] ==
            multiset(steps[..|steps| - 1])[step] + if steps[|steps| - 1] == step then 1 else 0
  {
    FrontAndLast(steps);
    assert multiset(steps) == multiset(steps[..|steps| - 1] + [steps[|steps| - 1]]);
  }

  /**
    Every waker is accounted for by what was done with it: in every run a task has as many as were
    cloned from another one, less those used up by a wake or dropped, and the loop's own while it is
    being polled. So the loop's waker is gone once the poll has ended.
  */
  lemma {:induction false} WakersAreCounted<T>(steps: seq<Step<T>>, t: T)
    requires Legal(Idle(), steps)
    ensures var s := AfterAll(Idle(), steps);
            WakersOf(s, t) + multiset(steps)[Woken(t)] + multiset(steps)[Dropped(t)] ==
            multiset(steps)[Cloned(t)] + if s.current == Some(t) then 1 else 0
  {
    if steps != [] {
      var front := steps[..|steps| - 1];
      WakersAreCounted(front, t);
      IdleInv<T>();
      RunKeeps(Idle(), front);
      StepWakers(AfterAll(Idle(), front), steps[|steps| - 1], t);
      LastStepCounts(steps, Woken(t));
      LastStepCounts(steps, Dropped(t));
      LastStepCounts(steps, Cloned(t));
    }
  }

  /**
    A task goes exactly when nothing can poll it again: it is neither queued nor being polled, and each
    waker that was cloned has been used up or dropped.
  */
  lemma GoneExactly<T>(steps: seq<Step<T>>, t: T)
    requires Legal(Idle(), steps) && t in AfterAll(Idle(), steps).tasks
    ensures var s := AfterAll(Idle(), steps);
            s.tasks[t].strong == 0 <==>
            && t !in s.queue && s.current != Some(t)
            && multiset(steps)[Cloned(t)] == multiset(steps)[Woken(t)] + multiset(steps)[Dropped(t)]
  {
    IdleInv<T>();
    RunKeeps(Idle(), steps);
    WakersAreCounted(steps, t);
    assert TaskOk(AfterAll(Idle(), steps), t);
  }

  /** No wakeup is lost: waking a task leaves it queued, even while it is being polled. */
  lemma WakeQueues<T>(steps: seq<Step<T>>, step: Step<T>)
    requires Legal(Idle(), steps) && Enabled(AfterAll(Idle(), steps), step)
    requires step.Woken? || step.WokenByRef?
    ensures step.t in After(AfterAll(Idle(), steps), step).queue
  {
    IdleInv<T>();
    RunKeeps(Idle(), steps);
    var s := AfterAll(Idle(), steps);
    assert TaskOk(s, step.t);
    if step.Woken? {
      WakeKeeps(s, step.t);
    } else {
      ScheduleKeeps(s, step.t);
    }
  }

  function Polls<T>(steps: seq<Step<T>>): nat {
    if steps == [] then 0
    else Polls(steps[..|steps| - 1]) + if steps[|steps| - 1].Begun? then 1 else 0
  }

  /**
    FIFO fairness: whatever else happens, a task with n tasks ahead of it still has n - k ahead after
    k polls; so it is polled after exactly n others.
  */
  lemma {:induction false} FirstComeFirstPolled<T>(s: State<T>, n: nat, steps: seq<Step<T>>)
    requires n < |s.queue| && Legal(s, steps) && Polls(steps) <= n
    ensures var u := AfterAll(s, steps);
            n - Polls(steps) < |u.queue| && u.queue[n - Polls(steps)] == s.queue[n]
    ensures var u := AfterAll(s, steps);
            Polls(steps) == n && Enabled(u, Begun) ==> BeginPoll(u).current == Some(s.queue[n])
  {
    if steps != [] {
      FirstComeFirstPolled(s, n, steps[..|steps| - 1]);
    }
  }
}

/** Tasks and their queue as objects: reference counts and the schedule flag live in each task. */
module Executors {
  import opened Common
  import M = ExecutorModel

  /** `wakers` counts the live wakers of the task; the futures that own them know it, the task does not. */
  class Task {
    var scheduled: bool
    var strong: nat
    var wakers: nat
    ghost var loop: nat

    ghost function Info(): M.Info
      reads this
    {
      M.Info(scheduled, strong, wakers, loop)
    }

    constructor ()
      ensures Info() == M.Info(false, 1, 0, 0)
    {
      scheduled, strong, wakers, loop := false, 1, 0, 0;
    }
  }

  class TaskQueue {
    var items: seq<Task>
    var senders: int
    ghost var tasks: set<Task>
    ghost var current: Option<Task>

    ghost function View(): M.State<Task>
      reads this, tasks
    {
      M.State(items, map t | t in tasks :: t.Info(), senders, current)
    }

    ghost predicate Valid()
      reads this, tasks
    {
      M.Inv(View())
    }

    constructor ()
      ensures Valid() && View() == M.Idle() && tasks == {}
    {
      items, senders, tasks, current := [], 1, {}, None;
      new;
      M.IdleInv<Task>();
      assert View() == M.Idle<Task>();
    }

    /** Exactly when no task is alive; nothing is queued then. */
    predicate IsDone(): (done: bool)
      requires Valid()
      reads this, tasks
      ensures done <==> M.Over(View())
      ensures done ==> items == []
    {
      M.DoneMeansNoTask(View());
      senders == 1
    }

    /** Task::schedule: queued unless it already is. */
    method Schedule(task: Task)
      requires task in tasks
      modifies this`items, task`scheduled, task`strong
      ensures View() == M.Schedule(old(View()), task)
    {
      var was := task.scheduled;
      task.scheduled := true;
      if !was {
        task.strong := task.strong + 1;
        items := items + [task];
      }
    }

    /** Dropping one reference; the last one drops the task's end of the channel. */
    method Release(task: Task)
      requires task in tasks && task.strong > 0
      modifies this`senders, task`strong
      ensures View() == M.Release(old(View()), task, old(task.Info()))
      ensures task.strong == old(task.strong) - 1
    {
      task.strong := task.strong - 1;
      if task.strong == 0 {
        senders := senders - 1;
      }
    }

    /** TaskQueue::schedule: a new task is queued and its first reference dropped. */
    method Spawn() returns (task: Task)
      requires Valid()
      modifies this
      ensures Valid() && fresh(task) && tasks == old(tasks) + {task}
      ensures View() == M.Spawn(old(View()), task)
      ensures items == old(items) + [task] && task.wakers == 0
    {
      task := new Task();
      ghost var before := View();
      M.SpawnKeeps(before, task);
      Register(task);
      Enqueue(task);
    }

    /** A task that was just made belongs to the queue, with its end of the channel. */
    method Register(task: Task)
      requires task !in tasks && task.Info() == M.Info(false, 1, 0, 0)
      modifies this`tasks, this`senders
      ensures tasks == old(tasks) + {task} && View() == M.Made(old(View()), task)
    {
      tasks := tasks + {task};
      senders := senders + 1;
    }

    /** A new task is queued, and the reference it was made with is dropped. */
    method Enqueue(task: Task)
      requires task in tasks && task.strong > 0
      modifies this`items, this`senders, task`scheduled, task`strong
      ensures View() == M.Enqueued(old(View()), task)
    {
      Schedule(task);
      Release(task);
    }

    method CloneWaker(task: Task)
      requires Valid() && task in tasks && task.wakers > 0
      modifies task
      ensures Valid()
      ensures View() == M.CloneWaker(old(View()), task)
      ensures task.wakers == old(task.wakers) + 1
    {
      ghost var before := View();
      M.CloneKeeps(before, task);
      task.strong := task.strong + 1;
      task.wakers := task.wakers + 1;
      assert View() == M.CloneWaker(before, task);
    }

    method WakeByRef(task: Task)
      requires Valid() && task in tasks && task.wakers > 0
      modifies this, task
      ensures Valid() && tasks == old(tasks)
      ensures View() == M.Schedule(old(View()), task)
      ensures task in items && old(items) <= items && task.wakers == old(task.wakers)
    {
      assert M.TaskOk(View(), task);
      M.ScheduleKeeps(View(), task);
      Schedule(task);
    }

    method Wake(task: Task)
      requires Valid() && M.Spare(View(), task)
      modifies this, task
      ensures Valid() && tasks == old(tasks)
      ensures View() == M.Wake(old(View()), task)
      ensures task in items && old(items) <= items && task.wakers == old(task.wakers) - 1
    {
      assert M.TaskOk(View(), task);
      M.WakeKeeps(View(), task);
      ScheduleAndForget(task);
    }

    /** What a wake does before the waker is gone. */
    method ScheduleAndForget(task: Task)
      requires task in tasks && task.strong > 0 && task.wakers > 0
      modifies this`items, this`senders, task
      ensures View() == M.Wake(old(View()), task)
      ensures old(items) <= items && task.wakers == old(task.wakers) - 1
    {
      Schedule(task);
      ForgetWaker(task);
    }

    method DropWaker(task: Task)
      requires Valid() && M.Spare(View(), task)
      modifies this, task
      ensures Valid() && tasks == old(tasks)
      ensures View() == M.DropWaker(old(View()), task)
      ensures items == old(items) && task.wakers == old(task.wakers) - 1
    {
      ghost var before := View();
      assert M.TaskOk(before, task);
      M.DropKeeps(before, task);
      ForgetWaker(task);
    }

    /** The reference inside a waker is given back. */
    method ForgetWaker(task: Task)
      requires task in tasks && task.strong > 0 && task.wakers > 0
      modifies this`senders, task
      ensures View() == M.Release(old(View()), task, old(task.Info()).(wakers := old(task.wakers) - 1))
      ensures task.strong == old(task.strong) - 1 && task.loop == old(task.loop)
      ensures task.wakers == old(task.wakers) - 1
    {
      ghost var before := View();
      task.wakers := task.wakers - 1;
      assert View() == M.With(before, task, task.Info());
      M.ReleaseOverwrites(before, task, task.Info());
      Release(task);
    }

    /** The loop's own reference is given back. */
    method ForgetTask(task: Task)
      requires task in tasks && task.strong > 0 && task.loop > 0
      modifies this`senders, task
      ensures View() == M.Release(old(View()), task, old(task.Info()).(loop := old(task.loop) - 1))
    {
      ghost var before := View();
      task.loop := task.loop - 1;
      assert View() == M.With(before, task, task.Info());
      M.ReleaseOverwrites(before, task, task.Info());
      Release(task);
    }

    /** One round of the drain loop, up to the call into the task's future. */
    method BeginPoll() returns (task: Task)
      requires Valid() && current == None && items != []
      modifies this, items[0]
      ensures Valid() && tasks == old(tasks)
      ensures task == old(items)[0] && View() == M.BeginPoll(old(View()))
    {
      ghost var before := View();
      M.BeginKeeps(before);
      task := items[0];
      items := items[1..];
      task.loop := task.loop + 1;
      task.strong := task.strong + 1;
      task.wakers := task.wakers + 1;
      task.scheduled := false;
      current := Some(task);
      assert View() == M.BeginPoll(before);
    }

    /** The rest of the round: the loop drops its waker and its reference. */
    method EndPoll(task: Task)
      requires Valid() && current == Some(task)
      modifies this, task
      ensures Valid() && tasks == old(tasks)
      ensures View() == M.EndPoll(old(View()))
    {
      M.PolledTask(View());
      M.EndKeeps(View());
      FinishRound(task);
    }

    method FinishRound(task: Task)
      requires task in tasks && current == Some(task)
      requires task.strong >= 2 && task.wakers > 0 && task.loop > 0
      modifies this`senders, this`current, task
      ensures View() == M.EndPoll(old(View()))
    {
      ForgetWaker(task);
      ForgetTask(task);
      current := None;
    }
  }
}
