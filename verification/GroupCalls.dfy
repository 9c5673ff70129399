/** A call that recycles buffers is a stretch of a run of the group: one move for each cancelled buffer. */
module GroupCalls {
  import opened Common
  import opened Runtime
  import opened GroupRuns
  import G = GroupModel
  import Groups

  function Recycles(slots: seq<nat>): seq<Move> {
    seq(|slots|, i requires 0 <= i < |slots| => Move.Recycle(slots[i]))
  }

  /** What the set's method promises of group and ring, said of a world. */
  function AfterRecycling(w: World, slots: seq<nat>): World
    requires |slots| <= |w.group.store.cancelled|
  {
    w.(group := G.Recycled(w.group, slots),
       sys := w.sys.(ring := Groups.WithProvides(w.sys.ring, |slots|)))
  }

  lemma NothingRecycled(w: World)
    ensures AfterRecycling(w, []) == w
  {
    assert w.group.providing + [] == w.group.providing;
    assert w.sys.ring.sq + Groups.ProvideEntries(0) == w.sys.ring.sq;
  }

  lemma OneMoreRecycled(w: World, slots: seq<nat>)
    requires 0 < |slots| <= |w.group.store.cancelled| && NoDuplicates(slots)
    requires w.handles > 0 && w.sys.phase == Idle
    requires forall i :: 0 <= i < |slots| ==> slots[i] !in w.group.store.buffers && slots[i] < G.ID_LIMIT
    ensures var v, slot := AfterRecycling(w, slots[..|slots| - 1]), slots[|slots| - 1];
            Possible(v, Move.Recycle(slot)) && AfterMove(v, Move.Recycle(slot)) == Some(AfterRecycling(w, slots))
  {
    var front := slots[..|slots| - 1];
    G.RecycledStep(w.group, slots);
    Groups.OneMoreProvide(w.sys.ring, |front|);
    assert slots[|slots| - 1] !in front;
  }

  lemma GoesOn(moves: seq<Move>, w: World, move: Move, v: World)
    requires CalmMoves(moves) && RunMoves(moves) == At(w)
    requires Possible(w, move) && !Risky(w, move) && AfterMove(w, move) == Some(v)
    ensures CalmMoves(moves + [move]) && RunMoves(moves + [move]) == At(v)
  {
    assert (moves + [move])[..|moves|] == moves;
  }

  lemma RecyclesNext(moves: seq<Move>, slots: seq<nat>)
    requires slots != []
    ensures moves + Recycles(slots[..|slots| - 1]) + [Move.Recycle(slots[|slots| - 1])] == moves + Recycles(slots)
  {
  }

  /** The run goes on calmly with these moves, and leads to the world after recycling. */
  ghost predicate LeadsToRecycled(moves: seq<Move>, w: World, slots: seq<nat>)
    requires |slots| <= |w.group.store.cancelled|
  {
    CalmMoves(moves + Recycles(slots)) && RunMoves(moves + Recycles(slots)) == At(AfterRecycling(w, slots))
  }

  lemma RecyclesOneMore(moves: seq<Move>, w: World, slots: seq<nat>)
    requires 0 < |slots| <= |w.group.store.cancelled| && NoDuplicates(slots)
    requires w.handles > 0 && w.sys.phase == Idle
    requires forall i :: 0 <= i < |slots| ==> slots[i] !in w.group.store.buffers && slots[i] < G.ID_LIMIT
    requires LeadsToRecycled(moves, w, slots[..|slots| - 1])
    ensures LeadsToRecycled(moves, w, slots)
  {
    var front, slot := slots[..|slots| - 1], slots[|slots| - 1];
    OneMoreRecycled(w, slots);
    GoesOn(moves + Recycles(front), AfterRecycling(w, front), Move.Recycle(slot), AfterRecycling(w, slots));
    RecyclesNext(moves, slots);
  }

  /**
    Wherever a calm run of the group has led, with the ring idle, recycling is possible, comes to one
    move for each buffer, and leaves group and ring as the set's method promises.
  */
  lemma {:induction false} RecyclingIsARun(moves: seq<Move>, w: World, slots: seq<nat>)
    requires CalmMoves(moves) && RunMoves(moves) == At(w) && w.handles > 0 && w.sys.phase == Idle
    requires |slots| <= |w.group.store.cancelled| && NoDuplicates(slots)
    requires forall i :: 0 <= i < |slots| ==> slots[i] !in w.group.store.buffers && slots[i] < G.ID_LIMIT
    ensures LeadsToRecycled(moves, w, slots)
  {
    if slots == [] {
      assert moves + Recycles(slots) == moves;
      NothingRecycled(w);
    } else {
      RecyclingIsARun(moves, w, slots[..|slots| - 1]);
      RecyclesOneMore(moves, w, slots);
    }
  }
}
