/** The executor's loop: drain the queue, poll each task, block in the reactor, until no task is left. */
module ExecutorLoop {
  import opened Common
  import opened Executors
  import M = ExecutorModel

  /** What a future, or the reactor, can do with wakers and new tasks; a task is named by its number. */
  datatype Act =
    | Spawn
    | CloneWaker(number: nat)
    | Wake(number: nat)
    | WakeByRef(number: nat)
    | DropWaker(number: nat)

  /** What one poll, or one wait of the reactor, does. */
  type Turn = seq<Act>

  /** `OutOfTurns` stops the model, not the loop; `NotPossible` is a turn with an act that is refused. */
  datatype Outcome = Finished | OutOfTurns | NotPossible

  // ---- what turns come to as steps of the model ----

  /** One line of what happens: an act is taken, or the loop begins or ends a poll. */
  datatype Line = Took(act: Act) | Begins | Ends

  function Acts(turn: Turn): seq<Line> {
    seq(|turn|, i requires 0 <= i < |turn| => Took(turn[i]))
  }

  /** What the loop does with a turn: a poll of the oldest task, not ended if an act was refused, or a wait. */
  datatype Event = Polled(turn: Turn, ended: bool) | Waited(turn: Turn)

  function Lines(event: Event): seq<Line> {
    match event
    case Polled(turn, ended) => [Begins] + Acts(turn) + if ended then [Ends] else []
    case Waited(turn) => Acts(turn)
  }

  /** The whole run: one event after the other. */
  function Story(events: seq<Event>): seq<Line> {
    if events == [] then [] else Story(events[..|events| - 1]) + Lines(events[|events| - 1])
  }

  function Waits(events: seq<Event>): nat {
    if events == [] then 0 else Waits(events[..|events| - 1]) + if events[|events| - 1].Waited? then 1 else 0
  }

  /** The events are the turns, one for one. */
  predicate Plays(events: seq<Event>, turns: seq<Turn>) {
    |events| <= |turns| &&
    forall i :: 0 <= i < |events| ==> events[i] == Waited(turns[i]) || events[i] == Polled(turns[i], true)
  }

  /** The last turn was played up to one of its acts, and is not finished. */
  predicate BreaksOff(events: seq<Event>, turns: seq<Turn>) {
    && 0 < |events| <= |turns| && Plays(events[..|events| - 1], turns)
    && var last, turn := events[|events| - 1], turns[|events| - 1];
       last.turn < turn && (last.Polled? ==> !last.ended)
  }

  /** The line as a step of the model, when these are the tasks by their numbers. */
  predicate Named<T(==)>(line: Line, step: M.Step<T>, tasks: seq<T>) {
    match line
    case Begins => step == M.Begun
    case Ends => step == M.Ended
    case Took(Spawn) => step.Spawned?
    case Took(CloneWaker(n)) => n < |tasks| && step == M.Cloned(tasks[n])
    case Took(Wake(n)) => n < |tasks| && step == M.Woken(tasks[n])
    case Took(WakeByRef(n)) => n < |tasks| && step == M.WokenByRef(tasks[n])
    case Took(DropWaker(n)) => n < |tasks| && step == M.Dropped(tasks[n])
  }

  predicate Names<T(==)>(script: seq<Line>, log: seq<M.Step<T>>, tasks: seq<T>) {
    |script| == |log| && forall i :: 0 <= i < |log| ==> Named(script[i], log[i], tasks)
  }

  /** The tasks spawned in these steps, in order: their numbers follow those given out before. */
  function SpawnedIn<T>(log: seq<M.Step<T>>): seq<T> {
    if log == [] then []
    else SpawnedIn(log[..|log| - 1]) + if log[|log| - 1].Spawned? then [log[|log| - 1].t] else []
  }

  /** What has happened so far: from where, with which tasks at first, by which script, in which steps. */
  datatype Record<T(==)> = Record(start: M.State<T>, given: seq<T>, script: seq<Line>, log: seq<M.Step<T>>)

  /** The steps lead to this state, and they are those of the script. */
  ghost predicate LeadsTo<T>(r: Record<T>, s: M.State<T>, tasks: seq<T>) {
    && M.Legal(r.start, r.log) && s == M.AfterAll(r.start, r.log)
    && tasks == r.given + SpawnedIn(r.log) && Names(r.script, r.log, tasks)
  }

  function Next<T>(r: Record<T>, line: Line, step: M.Step<T>): Record<T> {
    r.(script := r.script + [line], log := r.log + [step])
  }

  lemma NamesNext<T>(script: seq<Line>, log: seq<M.Step<T>>, tasks: seq<T>, line: Line, step: M.Step<T>, more: seq<T>)
    requires Names(script, log, tasks) && tasks <= more && Named(line, step, more)
    ensures Names(script + [line], log + [step], more)
  {
    forall i | 0 <= i < |log| ensures Named(script[i], log[i], more) {
      assert Named(script[i], log[i], tasks);
    }
  }

  lemma LogNext<T>(s: M.State<T>, log: seq<M.Step<T>>, step: M.Step<T>)
    requires M.Legal(s, log) && M.Enabled(M.AfterAll(s, log), step)
    ensures M.Legal(s, log + [step]) && M.AfterAll(s, log + [step]) == M.After(M.AfterAll(s, log), step)
    ensures SpawnedIn(log + [step]) == SpawnedIn(log) + if step.Spawned? then [step.t] else []
  {
    assert (log + [step])[..|log|] == log;
  }

  lemma GoesOn<T>(r: Record<T>, s: M.State<T>, tasks: seq<T>, line: Line, step: M.Step<T>, more: seq<T>)
    requires LeadsTo(r, s, tasks) && M.Enabled(s, step) && Named(line, step, more)
    requires more == tasks + if step.Spawned? then [step.t] else []
    ensures LeadsTo(Next(r, line, step), M.After(s, step), more)
  {
    LogNext(r.start, r.log, step);
    NamesNext(r.script, r.log, tasks, line, step, more);
    Regrouped(r.given, SpawnedIn(r.log), if step.Spawned? then [step.t] else []);
  }

  lemma ActsNext(script: seq<Line>, turn: Turn, i: nat)
    requires i < |turn|
    ensures script + Acts(turn[..i + 1]) == script + Acts(turn[..i]) + [Took(turn[i])]
  {
  }

  lemma PolledLines(script: seq<Line>, turn: Turn, ended: bool)
    ensures script + [Begins] + Acts(turn) + (if ended then [Ends] else []) == script + Lines(Polled(turn, ended))
  {
  }

  lemma StoryNext(events: seq<Event>, event: Event)
    ensures Story(events + [event]) == Story(events) + Lines(event)
    ensures Waits(events + [event]) == Waits(events) + if event.Waited? then 1 else 0
  {
    assert (events + [event])[..|events|] == events;
  }

  /** How many polls begin. */
  function Opened(script: seq<Line>): nat {
    if script == [] then 0 else Opened(script[..|script| - 1]) + if script[|script| - 1].Begins? then 1 else 0
  }

  lemma {:induction false} OpenedConcat(a: seq<Line>, b: seq<Line>)
    ensures Opened(a + b) == Opened(a) + Opened(b)
  {
    if b == [] {
      assert a + b == a;
    } else {
      OpenedConcat(a, b[..|b| - 1]);
      ButLast(a, b);
    }
  }

  lemma {:induction false} ActsOpenNothing(script: seq<Line>)
    requires forall i :: 0 <= i < |script| ==> !script[i].Begins?
    ensures Opened(script) == 0
  {
    if script != [] {
      ActsOpenNothing(script[..|script| - 1]);
    }
  }

  lemma OpenedByEvent(event: Event)
    ensures Opened(Lines(event)) == if event.Polled? then 1 else 0
  {
    ActsOpenNothing(Acts(event.turn));
    if event.Polled? {
      var tail := if event.ended then [Ends] else [];
      ActsOpenNothing(tail);
      assert [Begins][..0] == [];
      OpenedConcat([Begins], Acts(event.turn));
      OpenedConcat([Begins] + Acts(event.turn), tail);
    }
  }

  /** Each event is one poll or one wait. */
  lemma {:induction false} PollsAndWaits(events: seq<Event>)
    ensures Opened(Story(events)) + Waits(events) == |events|
  {
    if events != [] {
      PollsAndWaits(events[..|events| - 1]);
      OpenedByEvent(events[|events| - 1]);
      OpenedConcat(Story(events[..|events| - 1]), Lines(events[|events| - 1]));
    }
  }

  lemma {:induction false} SamePolls<T>(script: seq<Line>, log: seq<M.Step<T>>, tasks: seq<T>)
    requires Names(script, log, tasks)
    ensures Opened(script) == M.Polls(log)
  {
    if log != [] {
      assert Named(script[|log| - 1], log[|log| - 1], tasks);
      SamePolls(script[..|log| - 1], log[..|log| - 1], tasks);
    }
  }

  lemma NextEvent(events: seq<Event>, event: Event, turns: seq<Turn>)
    requires Plays(events, turns) && |events| < |turns|
    requires event.turn <= turns[|events|] && (event.Polled? ==> (event.ended <==> event.turn == turns[|events|]))
    ensures event.turn == turns[|events|] ==> Plays(events + [event], turns)
    ensures event.turn != turns[|events|] ==> BreaksOff(events + [event], turns)
  {
    assert (events + [event])[..|events|] == events;
  }

  /** No task was queued or polled in any of these states. */
  ghost predicate NothingQueued<T>(waits: seq<M.State<T>>) {
    forall i :: 0 <= i < |waits| ==> waits[i].queue == [] && waits[i].current == None
  }

  lemma MoreWaits<T>(waits: seq<M.State<T>>, wait: seq<M.State<T>>)
    requires NothingQueued(waits) && NothingQueued(wait)
    ensures NothingQueued(waits + wait)
  {
  }

  class Executor {
    const queue: TaskQueue
    var spawned: seq<Task>

    ghost predicate Valid()
      reads this, queue, queue.tasks
    {
      queue.Valid() && forall t :: t in spawned ==> t in queue.tasks
    }

    constructor ()
      ensures Valid() && fresh(queue) && queue.View() == M.Idle() && spawned == []
    {
      queue := new TaskQueue();
      spawned := [];
    }

    /** An act needs a waker of the task it names; the one the loop owns is not given away. */
    predicate Refused(act: Act, current: Option<Task>)
      reads this, spawned
    {
      match act
      case Spawn => false
      case CloneWaker(n) => n >= |spawned| || spawned[n].wakers == 0
      case WakeByRef(n) => n >= |spawned| || spawned[n].wakers == 0
      case Wake(n) => n >= |spawned| || spawned[n].wakers <= if current == Some(spawned[n]) then 1 else 0
      case DropWaker(n) => n >= |spawned| || spawned[n].wakers <= if current == Some(spawned[n]) then 1 else 0
    }

    /** How many more wakers of its task there are after an act. */
    function WakersGained(act: Act): int
      requires !act.Spawn?
    {
      if act.CloneWaker? then 1 else if act.WakeByRef? then 0 else -1
    }

    /** The next act of the last turn is refused in the present state. */
    ghost predicate StoppedAt(events: seq<Event>, turns: seq<Turn>)
      reads this, spawned, queue
    {
      BreaksOff(events, turns) &&
      Refused(turns[|events| - 1][|events[|events| - 1].turn|], queue.current)
    }

    /** The record ends in the present state. */
    ghost predicate Follows(r: Record<Task>)
      reads this, queue, queue.tasks
    {
      Valid() && LeadsTo(r, queue.View(), spawned)
    }

    /** It began as the other one did, and ends in the present state with this script. */
    ghost predicate Continues(r: Record<Task>, u: Record<Task>, script: seq<Line>)
      reads this, queue, queue.tasks
    {
      Follows(u) && u.start == r.start && u.given == r.given && u.script == script
    }

    /** One act is one step of the model: the one it stands for. */
    method Perform(act: Act) returns (ghost step: M.Step<Task>)
      requires Valid() && !Refused(act, queue.current)
      modifies this`spawned, queue, queue.tasks
      ensures Valid() && fresh(queue.tasks - old(queue.tasks))
      ensures !step.Begun? && !step.Ended? && queue.current == old(queue.current)
      ensures M.Enabled(old(queue.View()), step) && queue.View() == M.After(old(queue.View()), step)
      ensures Named(Took(act), step, spawned)
      ensures spawned == old(spawned) + if step.Spawned? then [step.t] else []
      ensures act.Spawn? ==>
                fresh(step.t) && step.t.wakers == 0 && queue.items == old(queue.items) + [step.t]
      ensures act.Wake? || act.WakeByRef? ==> old(queue.items) <= queue.items && spawned[act.number] in queue.items
      ensures act.CloneWaker? || act.DropWaker? ==> queue.items == old(queue.items)
      ensures !act.Spawn? ==> spawned[act.number].wakers == old(spawned[act.number].wakers) + WakersGained(act)
    {
      if act.Spawn? {
        step := SpawnOne();
      } else {
        step := UseWaker(act);
      }
    }

    /** A new task is queued. */
    method SpawnOne() returns (ghost step: M.Step<Task>)
      requires Valid()
      modifies this`spawned, queue
      ensures Valid() && queue.current == old(queue.current)
      ensures step.Spawned? && spawned == old(spawned) + [step.t]
      ensures fresh(step.t) && step.t.wakers == 0 && queue.tasks == old(queue.tasks) + {step.t}
      ensures queue.items == old(queue.items) + [step.t]
      ensures M.Enabled(old(queue.View()), step) && queue.View() == M.After(old(queue.View()), step)
    {
      var task := queue.Spawn();
      spawned := spawned + [task];
      step := M.Spawned(task);
    }

    /** A waker of a task is cloned, used to wake it, or dropped. */
    method UseWaker(act: Act) returns (ghost step: M.Step<Task>)
      requires Valid() && !act.Spawn? && !Refused(act, queue.current)
      modifies queue, spawned[act.number]
      ensures Valid() && queue.current == old(queue.current) && queue.tasks == old(queue.tasks)
      ensures Named(Took(act), step, spawned) && !step.Spawned? && !step.Begun? && !step.Ended?
      ensures M.Enabled(old(queue.View()), step) && queue.View() == M.After(old(queue.View()), step)
      ensures act.Wake? || act.WakeByRef? ==> old(queue.items) <= queue.items && spawned[act.number] in queue.items
      ensures act.CloneWaker? || act.DropWaker? ==> queue.items == old(queue.items)
      ensures spawned[act.number].wakers == old(spawned[act.number].wakers) + WakersGained(act)
    {
      var task := spawned[act.number];
      match act {
        case CloneWaker(_) =>
          queue.CloneWaker(task);
          step := M.Cloned(task);
        case Wake(_) =>
          queue.Wake(task);
          step := M.Woken(task);
        case WakeByRef(_) =>
          queue.WakeByRef(task);
          step := M.WokenByRef(task);
        case DropWaker(_) =>
          queue.DropWaker(task);
          step := M.Dropped(task);
      }
    }

    /** One act more than the record has. */
    method PlayNext(act: Act, ghost r: Record<Task>) returns (ghost u: Record<Task>)
      requires Follows(r) && !Refused(act, queue.current)
      modifies this`spawned, queue, queue.tasks
      ensures Continues(r, u, r.script + [Took(act)])
      ensures fresh(queue.tasks - old(queue.tasks)) && queue.current == old(queue.current)
    {
      ghost var before, tasks := queue.View(), spawned;
      ghost var step := Perform(act);
      GoesOn(r, before, tasks, Took(act), step, spawned);
      u := Next(r, Took(act), step);
    }

    /** Takes one turn, act by act, up to one that is refused. */
    method Play(turn: Turn, current: Option<Task>, ghost r: Record<Task>)
      returns (done: nat, ghost u: Record<Task>)
      requires Follows(r) && queue.current == current
      modifies this`spawned, queue, queue.tasks
      ensures fresh(queue.tasks - old(queue.tasks)) && queue.current == current
      ensures done <= |turn| && (done < |turn| ==> Refused(turn[done], current))
      ensures Continues(r, u, r.script + Acts(turn[..done]))
    {
      u := r;
      done := 0;
      while done < |turn|
        invariant fresh(queue.tasks - old(queue.tasks)) && queue.current == current
        invariant done <= |turn|
        invariant Continues(r, u, r.script + Acts(turn[..done]))
      {
        if Refused(turn[done], current) {
          return;
        }
        ActsNext(r.script, turn, done);
        u := PlayNext(turn[done], u);
        done := done + 1;
      }
    }

    method Enter(ghost r: Record<Task>) returns (task: Task, ghost u: Record<Task>)
      requires Follows(r) && queue.current == None && queue.items != []
      modifies queue, queue.tasks
      ensures Continues(r, u, r.script + [Begins]) && queue.tasks == old(queue.tasks)
      ensures queue.current == Some(task) && task == old(queue.items)[0]
    {
      assert queue.items[0] in queue.View().tasks;
      GoesOn(r, queue.View(), spawned, Begins, M.Begun, spawned);
      task := queue.BeginPoll();
      u := Next(r, Begins, M.Begun);
    }

    method Leave(task: Task, ghost r: Record<Task>) returns (ghost u: Record<Task>)
      requires Follows(r) && queue.current == Some(task)
      modifies queue, queue.tasks
      ensures Continues(r, u, r.script + [Ends]) && queue.tasks == old(queue.tasks)
      ensures queue.current == None
    {
      M.PolledTask(queue.View());
      GoesOn(r, queue.View(), spawned, Ends, M.Ended, spawned);
      queue.EndPoll(task);
      u := Next(r, Ends, M.Ended);
    }

    /** The poll of a task: its turn, and the end unless an act is refused. */
    method FinishPoll(task: Task, turn: Turn, ghost r: Record<Task>) returns (done: nat, ghost u: Record<Task>)
      requires Follows(r) && queue.current == Some(task)
      modifies this`spawned, queue, queue.tasks
      ensures fresh(queue.tasks - old(queue.tasks))
      ensures done <= |turn| && (if done < |turn| then Refused(turn[done], queue.current) else queue.current == None)
      ensures Continues(r, u, r.script + Acts(turn[..done]) + if done == |turn| then [Ends] else [])
    {
      done, u := Play(turn, Some(task), r);
      if done == |turn| {
        u := Leave(task, u);
      }
    }

    /** One round of the inner loop: the oldest task is polled once. */
    method PollOne(turn: Turn, ghost r: Record<Task>) returns (done: nat, ghost u: Record<Task>)
      requires Follows(r) && queue.current == None && queue.items != []
      modifies this`spawned, queue, queue.tasks
      ensures fresh(queue.tasks - old(queue.tasks))
      ensures done <= |turn| && (if done < |turn| then Refused(turn[done], queue.current) else queue.current == None)
      ensures Continues(r, u, r.script + Lines(Polled(turn[..done], done == |turn|)))
    {
      var task;
      task, u := Enter(r);
      done, u := FinishPoll(task, turn, u);
      PolledLines(r.script, turn[..done], done == |turn|);
    }

    /** One round of the inner loop, with the next turn. */
    method TakeTurn(turns: seq<Turn>, from: nat, ghost told: seq<Event>, ghost r: Record<Task>)
      returns (ok: bool, ghost event: Event, ghost u: Record<Task>)
      requires Continues(r, r, Story(told)) && Plays(told, turns) && from == |told| < |turns|
      requires queue.current == None && queue.items != []
      modifies this`spawned, queue, queue.tasks
      ensures Continues(r, u, Story(told + [event])) && fresh(queue.tasks - old(queue.tasks))
      ensures event.Polled? && Waits(told + [event]) == Waits(told)
      ensures if ok then Plays(told + [event], turns) && queue.current == None
              else StoppedAt(told + [event], turns)
    {
      var done;
      done, u := PollOne(turns[from], r);
      event := Polled(turns[from][..done], done == |turns[from]|);
      ok := done == |turns[from]|;
      NextEvent(told, event, turns);
      StoryNext(told, event);
    }

    /** The inner loop: polls the oldest task until none is queued. */
    method Drain(turns: seq<Turn>, from: nat, ghost told: seq<Event>, ghost r: Record<Task>)
      returns (outcome: Outcome, used: nat, ghost events: seq<Event>, ghost u: Record<Task>)
      requires Continues(r, r, Story(told)) && Plays(told, turns) && from == |told|
      requires queue.current == None
      modifies this`spawned, queue, queue.tasks
      ensures Continues(r, u, Story(events)) && fresh(queue.tasks - old(queue.tasks))
      ensures told <= events && used == |events| && Waits(events) == Waits(told)
      ensures outcome != NotPossible ==> Plays(events, turns) && queue.current == None
      ensures outcome == Finished ==> queue.items == []
      ensures outcome == OutOfTurns ==> used == |turns|
      ensures outcome == NotPossible ==> StoppedAt(events, turns)
    {
      used, events, u := from, told, r;
      while queue.items != []
        invariant Continues(r, u, Story(events)) && fresh(queue.tasks - old(queue.tasks))
        invariant told <= events && used == |events| && Waits(events) == Waits(told)
        invariant Plays(events, turns) && queue.current == None
        decreases |turns| - used
      {
        if used == |turns| {
          return OutOfTurns, used, events, u;
        }
        var ok;
        ghost var event;
        ok, event, u := TakeTurn(turns, used, events, u);
        events := events + [event];
        used := used + 1;
        if !ok {
          return NotPossible, used, events, u;
        }
      }
      outcome := Finished;
    }

    /** The reactor waits, with the next turn. */
    method Block(turns: seq<Turn>, from: nat, ghost told: seq<Event>, ghost r: Record<Task>)
      returns (ok: bool, ghost event: Event, ghost u: Record<Task>)
      requires Continues(r, r, Story(told)) && Plays(told, turns) && from == |told| < |turns|
      requires queue.current == None
      modifies this`spawned, queue, queue.tasks
      ensures Continues(r, u, Story(told + [event])) && fresh(queue.tasks - old(queue.tasks))
      ensures event.Waited? && Waits(told + [event]) == Waits(told) + 1 && queue.current == None
      ensures if ok then Plays(told + [event], turns) else StoppedAt(told + [event], turns)
    {
      var done;
      done, u := Play(turns[from], None, r);
      event := Waited(turns[from][..done]);
      ok := done == |turns[from]|;
      NextEvent(told, event, turns);
      StoryNext(told, event);
    }

    /** One round of the outer loop: drain the queue, then block in the reactor. */
    method Round(turns: seq<Turn>, from: nat, ghost told: seq<Event>, ghost r: Record<Task>)
      returns (outcome: Outcome, used: nat, ghost events: seq<Event>, ghost u: Record<Task>,
               ghost wait: seq<M.State<Task>>)
      requires Continues(r, r, Story(told)) && Plays(told, turns) && from == |told|
      requires queue.current == None
      modifies this`spawned, queue, queue.tasks
      ensures Continues(r, u, Story(events)) && fresh(queue.tasks - old(queue.tasks))
      ensures told <= events && used == |events|
      ensures NothingQueued(wait) && |wait| == Waits(events) - Waits(told)
      ensures outcome != NotPossible ==> Plays(events, turns) && queue.current == None
      ensures outcome == Finished ==> |wait| == 1 && used > from && events[used - 1].Waited?
      ensures outcome == OutOfTurns ==> used == |turns|
      ensures outcome == NotPossible ==> StoppedAt(events, turns)
    {
      wait := [];
      outcome, used, events, u := Drain(turns, from, told, r);
      if outcome != Finished {
        return;
      }
      if used == |turns| {
        outcome := OutOfTurns;
        return;
      }
      wait := [queue.View()];
      var ok;
      ghost var event;
      ok, event, u := Block(turns, used, events, u);
      events := events + [event];
      used := used + 1;
      if !ok {
        outcome := NotPossible;
      }
    }

    /**
      The loop, with what each poll and each wait does as its input. It is a run of the model, whose
      steps are those turns in order, one for each act, with a begin and an end around each poll and
      nothing else; it blocks in the reactor only when no task is queued; it uses one turn for each
      poll and each wait; and it ends exactly when no task is alive, with no queue entry and no waker
      left.
    */
    method Run(turns: seq<Turn>)
      returns (outcome: Outcome, used: nat, ghost events: seq<Event>, ghost log: seq<M.Step<Task>>,
               ghost waits: seq<M.State<Task>>)
      requires Valid() && queue.current == None
      modifies this`spawned, queue, queue.tasks
      ensures Valid() && fresh(queue.tasks - old(queue.tasks)) && spawned == old(spawned) + SpawnedIn(log)
      ensures M.Legal(old(queue.View()), log) && queue.View() == M.AfterAll(old(queue.View()), log)
      ensures Names(Story(events), log, spawned)
      ensures used == |events| <= |turns| && used == M.Polls(log) + |waits|
      ensures NothingQueued(waits)
      ensures outcome != NotPossible ==> Plays(events, turns)
      ensures outcome == NotPossible ==> StoppedAt(events, turns)
      ensures outcome == OutOfTurns ==> used == |turns|
      ensures outcome == Finished ==>
                && (events != [] ==> events[used - 1].Waited?)
                && M.Over(queue.View()) && queue.items == [] && forall t :: t in queue.tasks ==> t.wakers == 0
      ensures M.Over(old(queue.View())) <==> outcome == Finished && waits == []
    {
      ghost var r := Record(queue.View(), spawned, [], []);
      outcome, used, events, r, waits := Rounds(turns, r);
      log := r.log;
      PollsAndWaits(events);
      SamePolls(r.script, log, spawned);
      if outcome == Finished {
        NothingLeft();
      }
    }

    /** The outer loop. */
    method Rounds(turns: seq<Turn>, ghost r: Record<Task>)
      returns (outcome: Outcome, used: nat, ghost events: seq<Event>, ghost u: Record<Task>,
               ghost waits: seq<M.State<Task>>)
      requires Continues(r, r, []) && r.start == queue.View() && queue.current == None
      modifies this`spawned, queue, queue.tasks
      ensures Continues(r, u, Story(events)) && fresh(queue.tasks - old(queue.tasks))
      ensures used == |events| <= |turns| && NothingQueued(waits) && |waits| == Waits(events)
      ensures outcome != NotPossible ==> Plays(events, turns)
      ensures outcome == NotPossible ==> StoppedAt(events, turns)
      ensures outcome == OutOfTurns ==> used == |turns|
      ensures outcome == Finished ==> M.Over(queue.View()) && (events != [] ==> events[used - 1].Waited?)
      ensures M.Over(r.start) <==> outcome == Finished && waits == []
    {
      outcome, used, events, u, waits := Finished, 0, [], r, [];
      while !queue.IsDone()
        invariant Continues(r, u, Story(events)) && fresh(queue.tasks - old(queue.tasks))
        invariant Plays(events, turns) && queue.current == None
        invariant used == |events| && NothingQueued(waits) && |waits| == Waits(events)
        invariant if waits == [] then queue.View() == r.start && events == [] else !M.Over(r.start)
        invariant events != [] ==> events[used - 1].Waited?
        invariant outcome == Finished
        decreases |turns| - used
      {
        ghost var wait;
        outcome, used, events, u, wait := Round(turns, used, events, u);
        MoreWaits(waits, wait);
        waits := waits + wait;
        if outcome != Finished {
          return;
        }
      }
    }

    lemma NothingLeft()
      requires Valid() && M.Over(queue.View())
      ensures queue.items == [] && forall t :: t in queue.tasks ==> t.wakers == 0
    {
      M.DoneMeansNoTask(queue.View());
      assert forall t :: t in queue.tasks ==> queue.View().tasks[t] == t.Info();
    }
  }
}
