/** The state machine that drives one operation to completion on the ring. */
module SubmissionModel {
  import opened Common
  import opened CompletionModel
  import RingModel

  datatype Stage = Initial | Submitted(key: Key) | Completed

  /**
    `taken` counts how often the operation was moved out or dropped, `got` lists the results it was
    given, `gone` says that the submission itself was dropped.
  */
  datatype Sub = Sub(stage: Stage, taken: nat, got: seq<RingResult>, gone: bool)

  const NEW := Sub(Initial, 0, [], false)

  /** A submission and the ring it runs on. */
  datatype Pair = Pair(sub: Sub, ring: RingModel.State)

  function Start(p: Pair, waker: Waker, key: Key): Pair {
    Pair(p.sub.(stage := Submitted(key)), RingModel.Submit(p.ring, waker, key))
  }

  /** Awaiting a submitted operation as a future: every result takes the operation. */
  function AfterPoll(sub: Sub, result: Option<RingResult>): Sub {
    match result
    case None => sub
    case Some(r) =>
      sub.(taken := sub.taken + 1, got := sub.got + [r], stage := if r.HasMore() then sub.stage else Completed)
  }

  /** Polling a submitted operation as a stream: only the last result drops the operation. */
  function AfterPollNext(sub: Sub, result: Option<RingResult>): Sub {
    match result
    case None => sub
    case Some(r) =>
      if r.HasMore() then sub.(got := sub.got + [r])
      else sub.(taken := sub.taken + 1, got := sub.got + [r], stage := Completed)
  }

  predicate Knows(p: Pair) {
    p.sub.stage.Submitted? ==> p.sub.stage.key in p.ring.entries
  }

  function Poll(p: Pair): Pair
    requires p.sub.stage.Submitted? && Knows(p)
  {
    var key := p.sub.stage.key;
    Pair(AfterPoll(p.sub, NextResult(p.ring.entries[key])), RingModel.CheckResult(p.ring, key))
  }

  function PollNext(p: Pair): Pair
    requires Knows(p)
  {
    match p.sub.stage
    case Submitted(key) =>
      Pair(AfterPollNext(p.sub, NextResult(p.ring.entries[key])), RingModel.CheckResult(p.ring, key))
    case _ => p
  }

  /** Dropping the submission; `cancel` is what the operation turns into. */
  function Drop(p: Pair, withEntry: bool, cancel: Cancellation): Pair
    requires p.sub.stage.Submitted? ==> Knows(p) && !p.ring.entries[p.sub.stage.key].Dropped?
  {
    match p.sub.stage
    case Initial => p.(sub := p.sub.(taken := p.sub.taken + 1, gone := true))
    case Submitted(key) =>
      Pair(p.sub.(taken := p.sub.taken + 1, gone := true), RingModel.Cancel(p.ring, key, withEntry, cancel))
    case Completed => p.(sub := p.sub.(gone := true))
  }
}

module Submissions {
  import opened Common
  import opened CompletionModel
  import opened SubmissionModel
  import RingModel
  import Rings

  datatype Answer<+T> = Pending | Ready(value: T)

  class Submission {
    var stage: Stage
    const ring: Rings.Ring
    const withEntry: bool
    const cancel: Cancellation
    ghost var taken: nat
    ghost var got: seq<RingResult>
    ghost var gone: bool

    ghost function View(): Pair
      requires ring.completions.Valid()
      reads this, ring, ring.completions, ring.completions.pool
    {
      Pair(Sub(stage, taken, got, gone), ring.State())
    }

    constructor (ring: Rings.Ring, withEntry: bool, cancel: Cancellation)
      requires ring.Valid()
      ensures this.ring == ring && this.withEntry == withEntry && this.cancel == cancel
      ensures ring.State() == old(ring.State())
      ensures View() == Pair(NEW, ring.State())
    {
      stage := Initial;
      this.ring := ring;
      this.withEntry := withEntry;
      this.cancel := cancel;
      taken, got, gone := 0, [], false;
    }

    /** Future::poll; polling after completion panics. */
    method Poll(waker: Waker, index: nat) returns (answer: Answer<RingResult>)
      requires ring.Valid() && Knows(View()) && stage != Completed
      requires stage == Initial ==> index !in ring.State().entries && index < RingModel.KEY_LIMIT
      modifies this, ring, ring.completions, ring.completions.pool
      ensures ring.Valid()
      ensures old(stage) == Initial ==> answer == Pending && View() == Start(old(View()), waker, index)
      ensures old(stage) != Initial ==> View() == SubmissionModel.Poll(old(View()))
      ensures answer == if got == old(got) then Pending else Ready(got[|got| - 1])
    {
      var current := stage;
      stage := Initial;
      match current {
        case Initial =>
          var key := ring.Submit(waker, index);
          answer, stage := Pending, Submitted(key);
        case Submitted(key) =>
          var result := ring.CheckResult(key);
          match result {
            case None =>
              answer, stage := Pending, Submitted(key);
            case Some(r) =>
              taken, got := taken + 1, got + [r];
              answer, stage := Ready(r), if r.HasMore() then Submitted(key) else Completed;
          }
      }
    }

    /** Stream::poll_next; a completed stream keeps answering None. */
    method PollNext(waker: Waker, index: nat) returns (answer: Answer<Option<RingResult>>)
      requires ring.Valid() && Knows(View())
      requires stage == Initial ==> index !in ring.State().entries && index < RingModel.KEY_LIMIT
      modifies this, ring, ring.completions, ring.completions.pool
      ensures ring.Valid()
      ensures old(stage) == Initial ==> answer == Pending && View() == Start(old(View()), waker, index)
      ensures old(stage) != Initial ==> View() == SubmissionModel.PollNext(old(View()))
      ensures answer == if got != old(got) then Ready(Some(got[|got| - 1]))
                        else if old(stage) == Completed then Ready(None) else Pending
    {
      var current := stage;
      stage := Initial;
      match current {
        case Initial =>
          var key := ring.Submit(waker, index);
          answer, stage := Pending, Submitted(key);
        case Submitted(key) =>
          var result := ring.CheckResult(key);
          match result {
            case None =>
              answer, stage := Pending, Submitted(key);
            case Some(r) =>
              got := got + [r];
              if r.HasMore() {
                stage := Submitted(key);
              } else {
                taken := taken + 1;
                stage := Completed;
              }
              answer := Ready(Some(r));
          }
        case Completed =>
          answer, stage := Ready(None), Completed;
      }
    }

    /** Drop for a submission: the operation goes, or becomes a cancellation held by the ring. */
    method Drop()
      requires ring.Valid()
      requires stage.Submitted? ==> Knows(View()) && !ring.State().entries[stage.key].Dropped?
      modifies this, ring, ring.completions, ring.completions.pool
      ensures ring.Valid()
      ensures View() == SubmissionModel.Drop(old(View()), withEntry, cancel)
    {
      gone := true;
      match stage {
        case Initial =>
          taken := taken + 1;
        case Submitted(key) =>
          taken := taken + 1;
          ring.Cancel(key, withEntry, cancel);
        case Completed =>
      }
    }
  }
}
