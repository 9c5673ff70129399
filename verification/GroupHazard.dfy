/** A run from the start in which the removal of a buffer group panics: one with every id in use. */
module GroupHazard {
  import opened Common
  import opened Runtime
  import opened GroupRuns
  import G = GroupModel

  /** Some calm run leads to this world. */
  ghost predicate Reaches(w: World) {
    exists moves :: CalmMoves(moves) && RunMoves(moves) == At(w)
  }

  lemma BeginIsReached()
    ensures Reaches(BEGIN)
  {
    assert CalmMoves([]) && RunMoves([]) == At(BEGIN);
  }

  lemma GoesOn(w: World, move: Move) returns (v: World)
    requires Reaches(w) && Possible(w, move) && !Risky(w, move) && AfterMove(w, move).Some?
    ensures Reaches(v) && AfterMove(w, move) == Some(v)
  {
    var moves :| CalmMoves(moves) && RunMoves(moves) == At(w);
    v := AfterMove(w, move).value;
    var longer := moves + [move];
    assert longer[..|moves|] == moves && longer[|moves|] == move;
    assert CalmMoves(longer) && RunMoves(longer) == At(v);
  }

  /** Nothing happens but that the user makes buffers and provides them; `given` are those in the slab. */
  ghost predicate Quiet(w: World, user: set<G.Buffer>, providing: seq<nat>, given: nat) {
    && w.sys.phase == Idle && w.handles == 1 && w.stage == InUse && w.freed == {}
    && w.group.user == user && w.group.providing == providing
    && w.group.held == map[] && w.group.selected == map[]
    && w.group.store.cancelled == []
    && w.group.store.buffers.Keys == Range(given)
    && OwnNumbers(w.group.store.buffers)
  }

  /** Each buffer is its own id. */
  ghost predicate OwnNumbers(m: map<nat, G.Buffer>) {
    forall id :: id in m ==> m[id] == id
  }

  lemma Makes(w: World, n: nat) returns (v: World)
    requires Reaches(w) && Quiet(w, {}, [], n)
    ensures Reaches(v) && Quiet(v, {n}, [], n)
  {
    IsNew(w.group, n);
    v := GoesOn(w, Make(n));
    assert v.group.user == {n};
  }

  lemma IsNew(g: G.Group, n: nat)
    requires g.user == {} && g.store.cancelled == []
    requires g.store.buffers.Keys == Range(n) && OwnNumbers(g.store.buffers)
    ensures n !in G.All(g)
  {
    forall b | b in g.store.buffers.Values ensures b < n {
      var id :| id in g.store.buffers && g.store.buffers[id] == b;
      assert id in g.store.buffers.Keys;
    }
  }

  lemma RangeNext(n: nat)
    ensures n !in Range(n) && Range(n + 1) == Range(n) + {n}
  {
  }

  lemma ProvidedStore(m: map<nat, G.Buffer>, n: nat)
    requires m.Keys == Range(n) && OwnNumbers(m)
    ensures m[n := n].Keys == Range(n + 1) && OwnNumbers(m[n := n])
  {
    RangeNext(n);
    assert m[n := n].Keys == m.Keys + {n};
  }

  lemma Provides(w: World, n: nat) returns (v: World)
    requires Reaches(w) && Quiet(w, {n}, [], n) && n < G.ID_LIMIT
    ensures Reaches(v) && Quiet(v, {}, [n], n + 1)
  {
    ProvidedStore(w.group.store.buffers, n);
    assert n !in w.group.store.buffers.Keys;
    v := GoesOn(w, Provide(n, n));
    ProvidedWorld(w, n, v);
  }

  lemma ProvidedWorld(w: World, n: nat, v: World)
    requires Quiet(w, {n}, [], n) && Possible(w, Provide(n, n)) && AfterMove(w, Provide(n, n)) == Some(v)
    requires w.group.store.buffers[n := n].Keys == Range(n + 1)
    requires OwnNumbers(w.group.store.buffers[n := n])
    ensures Quiet(v, {}, [n], n + 1)
  {
    assert v.group == G.Provide(w.group, n, n);
    assert {n} - {n} == {} && [] + [n] == [n];
  }

  lemma Executes(w: World, n: nat) returns (v: World)
    requires Reaches(w) && Quiet(w, {}, [n], n + 1)
    ensures Reaches(v) && Quiet(v, {}, [], n + 1)
  {
    v := GoesOn(w, KernelProvides);
  }

  lemma HoldsOneMore(w: World, n: nat) returns (v: World)
    requires Reaches(w) && Quiet(w, {}, [], n) && n < G.ID_LIMIT
    ensures Reaches(v) && Quiet(v, {}, [], n + 1)
  {
    v := Makes(w, n);
    v := Provides(v, n);
    v := Executes(v, n);
  }

  lemma BeginIsQuiet()
    ensures Quiet(BEGIN, {}, [], 0)
  {
    assert BEGIN.group.store.buffers.Keys == {} == Range(0);
  }

  /** A group can come to hold any number of buffers that ids can name. */
  lemma {:induction false} HoldsMany(n: nat) returns (w: World)
    requires n <= G.ID_LIMIT
    ensures Reaches(w) && Quiet(w, {}, [], n)
  {
    if n == 0 {
      BeginIsReached();
      BeginIsQuiet();
      w := BEGIN;
    } else {
      w := HoldsMany(n - 1);
      w := HoldsOneMore(w, n - 1);
    }
  }

  /** The user lets go of the group, and its removal is asked for. */
  lemma Abandoned(w: World, n: nat) returns (v: World)
    requires Reaches(w) && Quiet(w, {}, [], n)
    ensures Reaches(v) && v.stage == Removing(n % G.ID_LIMIT)
    ensures v.group == w.group
  {
    var u := GoesOn(w, Unshare);
    assert HeldByOp(u) == {} && HeldByCancel(u) == {};
    v := GoesOn(u, Teardown);
    assert |v.group.store.buffers.Keys| == |v.group.store.buffers|;
  }

  /**
    A group with as many buffers as there are ids asks for none of them to be removed, and panics; with
    fewer, it asks for all.
  */
  lemma FullGroupPanics(n: nat)
    requires n <= G.ID_LIMIT
    ensures exists moves, w ::
              && CalmMoves(moves) && RunMoves(moves) == At(w) && |w.group.store.buffers| == n
              && Possible(w, KernelRemoves) && (RunMoves(moves + [KernelRemoves]).Panic? <==> n == G.ID_LIMIT)
  {
    var w := HoldsMany(n);
    assert |w.group.store.buffers.Keys| == |w.group.store.buffers|;
    w := Abandoned(w, n);
    var moves :| CalmMoves(moves) && RunMoves(moves) == At(w);
    RemovedLast(moves, w);
  }

  lemma RemovedLast(moves: seq<Move>, w: World)
    requires CalmMoves(moves) && RunMoves(moves) == At(w) && Possible(w, KernelRemoves)
    ensures RunMoves(moves + [KernelRemoves]).Panic? <==> |w.group.store.buffers| >= G.ID_LIMIT
  {
    BuffersAreConserved(moves);
    RemovalPanicsExactly(w);
    OneLast(moves, w, KernelRemoves);
  }

  lemma OneLast(moves: seq<Move>, w: World, move: Move)
    requires RunMoves(moves) == At(w)
    ensures RunMoves(moves + [move]) == OneMove(w, move)
  {
    assert (moves + [move])[..|moves|] == moves;
  }
}
