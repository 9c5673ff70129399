/**
  How a call of the buffered writer goes, as far as sizes decide it: whether a write is in flight, how
  full the buffer is, and which buffers the pool holds.
*/
module WriterModel {
  import opened Common
  import opened Views

  /** What polling the write in flight answers. */
  datatype Answer = NotReady | Wrote(count: nat) | Failed

  datatype Pool = Pool(sizes: seq<nat>, capacity: nat)

  /** A writer with a buffer of its own has no pool; a pooled one may have no buffer. */
  datatype Shape = Shape(writing: bool, inner: Option<nat>, end: nat, pool: Option<Pool>)

  function SizeOf(w: Shape): nat {
    match w.inner case None => 0 case Some(size) => size
  }

  function PreWrite(w: Shape): Shape {
    if w.inner.Some? || w.pool == None then w
    else
      var sizes := w.pool.value.sizes;
      if sizes == [] then w.(inner := Some(w.pool.value.capacity))
      else
        w.(inner := Some(sizes[|sizes| - 1]), pool := Some(w.pool.value.(sizes := sizes[..|sizes| - 1])))
  }

  /** A write has succeeded: the buffer is empty, and goes back to the pool if there is one. */
  function Emptied(w: Shape): Shape {
    if w.inner.Some? && w.pool.Some? then
      w.(writing := false, inner := None, end := 0,
         pool := Some(w.pool.value.(sizes := w.pool.value.sizes + [w.inner.value])))
    else w.(writing := false, end := 0)
  }

  function Flush(w: Shape, answer: Answer): (Shape, Poll<()>) {
    if !w.writing && w.end == 0 then (w, Done(()))
    else
      match answer
      case NotReady => (w.(writing := true), Pending)
      case Wrote(_) => (Emptied(w), Done(()))
      case Failed => (w.(writing := false), Error)
  }

  /** A write of `len` bytes that calls itself at most `fuel` times; None if that is not enough. */
  function Write(w: Shape, answer: Answer, len: nat, fuel: nat): Option<(Shape, Poll<nat>)>
    decreases fuel, 1
  {
    if w.writing then FlushAndWrite(w, answer, len, fuel)
    else
      var p := PreWrite(w);
      if SizeOf(p) <= p.end then FlushAndWrite(p, answer, len, fuel)
      else
        var n := Min(SizeOf(p) - p.end, len);
        Some((p.(end := p.end + n), Done(n)))
  }

  function FlushAndWrite(w: Shape, answer: Answer, len: nat, fuel: nat): Option<(Shape, Poll<nat>)>
    decreases fuel, 0
  {
    var (f, r) := Flush(w, answer);
    match r
    case Pending => Some((f, Pending))
    case Error => Some((f, Error))
    case Done(_) => if fuel == 0 then None else Write(f, NotReady, len, fuel - 1)
  }

  ghost predicate EndsIn(w: Shape, answer: Answer, len: nat, after: Shape, r: Poll<nat>) {
    exists fuel: nat :: Write(w, answer, len, fuel) == Some((after, r))
  }

  ghost predicate FlushesIn(w: Shape, answer: Answer, len: nat, after: Shape, r: Poll<nat>) {
    exists fuel: nat :: FlushAndWrite(w, answer, len, fuel) == Some((after, r))
  }

  ghost predicate Terminates(w: Shape, answer: Answer, len: nat) {
    exists fuel: nat :: Write(w, answer, len, fuel).Some?
  }

  ghost predicate Sound(w: Shape) {
    w.end <= SizeOf(w) && (w.writing ==> w.end > 0)
  }

  /** A write is in flight, or the buffer held, or else the next one of the pool, is not empty. */
  predicate CanReturn(w: Shape) {
    w.writing || SizeOf(PreWrite(w)) > 0
  }

  /** A write that flushes first ends as that does; one that fits ends at once. */
  lemma FlushedEnds(w: Shape, p: Shape, answer: Answer, len: nat, after: Shape, r: Poll<nat>)
    requires if w.writing then p == w else p == PreWrite(w) && SizeOf(p) <= p.end
    requires FlushesIn(p, answer, len, after, r)
    ensures EndsIn(w, answer, len, after, r)
  {
    var fuel: nat :| FlushAndWrite(p, answer, len, fuel) == Some((after, r));
    assert Write(w, answer, len, fuel) == Some((after, r));
  }

  lemma FittingEnds(w: Shape, p: Shape, answer: Answer, len: nat, n: nat)
    requires !w.writing && p == PreWrite(w) && SizeOf(p) > p.end && n == Min(SizeOf(p) - p.end, len)
    ensures EndsIn(w, answer, len, p.(end := p.end + n), Done(n))
  {
    assert Write(w, answer, len, 0) == Some((p.(end := p.end + n), Done(n)));
  }

  /** After a write has succeeded there is room, in the writer's own buffer or in the one given back. */
  lemma RoomAfterFlush(w: Shape, answer: Answer)
    requires Sound(w) && w.end > 0 && answer.Wrote?
    ensures var f := Flush(w, answer).0;
            f == Emptied(w) && !f.writing && f.end == 0 && SizeOf(PreWrite(f)) > 0
  {
  }

  lemma ReturnsSoon(w: Shape, answer: Answer, len: nat)
    requires Sound(w) && CanReturn(w)
    ensures Write(w, answer, len, 1).Some?
  {
    var p := if w.writing then w else PreWrite(w);
    if p.writing || SizeOf(p) <= p.end {
      if answer.Wrote? {
        RoomAfterFlush(p, answer);
        assert Write(Emptied(p), NotReady, len, 0).Some?;
      }
      assert FlushAndWrite(p, answer, len, 1).Some?;
    }
  }

  /** Flushing leaves an empty buffer where it is, so the next round finds it again. */
  lemma {:induction false} NeverReturns(w: Shape, answer: Answer, len: nat, fuel: nat)
    requires !w.writing && w.end == 0 && w.inner == Some(0)
    ensures Write(w, answer, len, fuel) == None
    decreases fuel
  {
    if fuel > 0 {
      NeverReturns(w, NotReady, len, fuel - 1);
    }
  }

  /**
    The exact condition: a call returns if and only if a write is in flight, or the buffer it uses is
    not empty. With an empty one, the writer's own or taken from the pool, it calls itself for ever.
  */
  lemma WriteReturnsExactly(w: Shape, answer: Answer, len: nat)
    requires Sound(w)
    ensures Terminates(w, answer, len) <==> CanReturn(w)
  {
    if CanReturn(w) {
      ReturnsSoon(w, answer, len);
    } else {
      var p := PreWrite(w);
      forall fuel: nat ensures Write(w, answer, len, fuel) == None {
        if p.inner == Some(0) {
          NeverReturns(p, answer, len, fuel);
          assert Write(w, answer, len, fuel) == Write(p, answer, len, fuel);
        } else {
          NoBufferEver(w, answer, len, fuel);
        }
      }
    }
  }

  lemma {:induction false} NoBufferEver(w: Shape, answer: Answer, len: nat, fuel: nat)
    requires !w.writing && w.end == 0 && w.inner == None && w.pool == None
    ensures Write(w, answer, len, fuel) == None
    decreases fuel
  {
    if fuel > 0 {
      NoBufferEver(w, NotReady, len, fuel - 1);
    }
  }
}

/** The buffered writer: bytes are appended to a buffer, which is written out when it is full. */
module Writers {
  import opened Common
  import opened Views
  import opened WriterModel

  datatype State = Empty | Writing(view: Prefix) | Ready(view: Prefix)

  /** A pool of buffers that writers take from and give back to; a new one is made when it is empty. */
  class WriteBufferSet {
    var buffers: seq<Bytes>
    const capacity: nat

    constructor (count: nat, capacity: nat)
      ensures this.capacity == capacity && |buffers| == count
      ensures forall i :: 0 <= i < count ==> |buffers[i]| == capacity
    {
      buffers := seq(count, _ => seq(capacity, _ => 0));
      this.capacity := capacity;
    }

    method Insert(buffer: Bytes)
      modifies this
      ensures buffers == old(buffers) + [buffer]
    {
      buffers := buffers + [buffer];
    }

    method Get() returns (buffer: Bytes)
      modifies this
      ensures old(buffers) != [] ==>
                buffers == old(buffers)[..|old(buffers)| - 1] && buffer == old(buffers)[|old(buffers)| - 1]
      ensures old(buffers) == [] ==> buffers == [] && |buffer| == capacity
    {
      if buffers == [] {
        buffer := seq(capacity, _ => 0);
      } else {
        buffer := buffers[|buffers| - 1];
        buffers := buffers[..|buffers| - 1];
      }
    }
  }

  /** How a writer gets its buffer: its own for good, or one from a pool while it has bytes in it. */
  datatype Adapter = Owned | Pooled(pool: WriteBufferSet)

  function Sizes(buffers: seq<Bytes>): seq<nat> {
    seq(|buffers|, i requires 0 <= i < |buffers| => |buffers[i]|)
  }

  class BufWriter {
    var state: State
    const adapter: Adapter
    ghost var accepted: Bytes
    ghost var acknowledged: Bytes

    ghost function Pool(): set<object> {
      if adapter.Pooled? then {adapter.pool} else {}
    }

    /** The bytes accepted that the sink has not acknowledged, buffered or in flight. */
    ghost function Buffered(): Bytes
      reads this
    {
      if state.Empty? then [] else state.view.Slice()
    }

    ghost predicate Valid()
      reads this
    {
      && !state.Empty?
      && state.view.end <= Size(state.view.inner)
      && (state.view.inner == None ==> adapter.Pooled?)
      && (state.Writing? ==> state.view.end > 0)
      && accepted == acknowledged + Buffered()
    }

    /** The writer's sizes, and its pool's. */
    ghost function Shape(): Shape
      requires !state.Empty?
      reads this, Pool()
    {
      WriterModel.Shape(
        state.Writing?,
        if state.view.inner == None then None else Some(|state.view.inner.value|),
        state.view.end,
        if adapter.Owned? then None else Some(WriterModel.Pool(Sizes(adapter.pool.buffers), adapter.pool.capacity)))
    }

    /** A writer over a buffer whose first `pos` bytes are to be written already. */
    constructor (buffer: Buffer, pos: nat, adapter: Adapter)
      requires pos <= Size(buffer)
      requires buffer == None ==> adapter.Pooled?
      ensures Valid() && this.adapter == adapter
      ensures acknowledged == [] && accepted == Prefix(buffer, pos).Slice()
      ensures state == Ready(Prefix(buffer, pos))
    {
      state := Ready(Prefix(buffer, pos));
      this.adapter := adapter;
      accepted, acknowledged := Prefix(buffer, pos).Slice(), [];
    }

    /** Takes a buffer from the pool if the writer holds none. */
    method PreWrite()
      requires Valid() && state.Ready?
      modifies this`state, Pool()
      ensures Valid() && state.Ready? && state.view.inner.Some?
      ensures Shape() == WriterModel.PreWrite(old(Shape()))
      ensures old(state).view.inner.Some? ==> state == old(state) && (adapter.Pooled? ==> unchanged(adapter.pool))
      ensures old(state).view.inner == None && old(adapter.pool.buffers) != [] ==>
                old(adapter.pool.buffers) == adapter.pool.buffers + [state.view.inner.value]
      ensures Buffered() == old(Buffered())
    {
      if adapter.Pooled? && state.view.inner == None {
        ghost var sizes := Sizes(adapter.pool.buffers);
        var buffer := adapter.pool.Get();
        state := Ready(Prefix(Some(buffer), state.view.end));
        assert sizes != [] ==> Sizes(adapter.pool.buffers) == sizes[..|sizes| - 1];
      }
    }

    /** Gives an emptied buffer back to the pool. */
    method PostFlush(view: Prefix) returns (left: Prefix)
      modifies Pool()
      ensures adapter.Owned? || view.inner == None ==> left == view && (adapter.Pooled? ==> unchanged(adapter.pool))
      ensures adapter.Pooled? ==> left == view.(inner := None)
      ensures adapter.Pooled? && view.inner.Some? ==>
                adapter.pool.buffers == old(adapter.pool.buffers) + [view.inner.value]
    {
      left := view;
      if adapter.Pooled? && view.inner.Some? {
        adapter.pool.Insert(view.inner.value);
        left := view.(inner := None);
      }
    }

    /**
      Writes out what is buffered. When it answers Done nothing is left; otherwise nothing is lost.
      A successful write is a full one: the source asserts it.
    */
    method PollFlush(answer: Answer) returns (r: Poll<()>)
      requires Valid()
      requires answer.Wrote? ==> answer.count == |Buffered()|
      modifies this, Pool()
      ensures Valid()
      ensures (Shape(), r) == Flush(old(Shape()), answer)
      ensures accepted == old(accepted)
      ensures r.Done? ==> Buffered() == [] && acknowledged == accepted && state.Ready? && state.view.end == 0
      ensures !r.Done? ==> acknowledged == old(acknowledged) && Buffered() == old(Buffered()) && Buffered() != []
      ensures r.Done? <==> old(Buffered()) == [] || answer.Wrote?
      ensures r == Pending <==> old(Buffered()) != [] && answer == NotReady
      ensures r == Pending ==> state == Writing(old(state).view)
      ensures r == Error ==> state == Ready(old(state).view)
      decreases if state.Ready? then 1 else 0
    {
      match state {
        case Writing(view) =>
          match answer {
            case NotReady =>
              return Pending;
            case Wrote(count) =>
              assert count == view.end;
              ghost var sizes := if adapter.Pooled? then Sizes(adapter.pool.buffers) else [];
              acknowledged := acknowledged + view.Slice();
              var left := PostFlush(view.(end := 0));
              state := Ready(left);
              assert adapter.Pooled? ==> Sizes(adapter.pool.buffers) == sizes + [|view.inner.value|];
            case Failed =>
              state := Ready(view);
              return Error;
          }
        case Ready(view) =>
          if view.end != 0 {
            state := Writing(view);
            r := PollFlush(answer);
            return;
          }
      }
      return Done(());
    }

    /** Copies bytes that fit behind those buffered. */
    method Accept(data: Bytes) returns (n: nat)
      requires Valid() && state.Ready? && |data| <= state.view.Spare()
      modifies this`state, this`accepted
      ensures Valid() && n == |data|
      ensures accepted == old(accepted) + data
      ensures Shape() == old(Shape()).(end := old(Shape()).end + n)
      ensures state.Ready? && state.view.Spare() == old(state.view.Spare()) - n
    {
      ghost var before := Buffered();
      var (filled, count) := state.view.Fill(data);
      state := Ready(filled);
      assert data[..|data|] == data;
      accepted := accepted + data;
      assert acknowledged + before + data == acknowledged + (before + data);
      n := count;
    }

    /** The writer cannot take a byte before it has flushed. */
    ghost predicate MustFlush()
      reads this
    {
      state.Writing? || (state.Ready? && state.view.inner.Some? && state.view.Spare() == 0)
    }

    /** The buffer in use has no room left. */
    ghost predicate Full()
      reads this
    {
      state.Ready? && state.view.inner.Some? && state.view.end == Size(state.view.inner)
    }

    /**
      A write that has to flush first; after a failed flush the bytes are buffered as before and the
      next call tries again.
    */
    method PollFlushAndWrite(answer: Answer, data: Bytes) returns (r: Poll<nat>)
      requires Valid() && MustFlush() && CanReturn(Shape())
      requires answer.Wrote? ==> answer.count == |Buffered()|
      modifies this, Pool()
      ensures Valid()
      ensures FlushesIn(old(Shape()), answer, |data|, Shape(), r)
      ensures r.Done? ==> r.value <= |data| && accepted == old(accepted) + data[..r.value]
      ensures r.Done? && data != [] ==> r.value > 0
      ensures !r.Done? ==> accepted == old(accepted) && Buffered() == old(Buffered())
      ensures acknowledged == if r.Done? then old(accepted) else old(acknowledged)
      ensures r.Done? <==> answer.Wrote?
      ensures r == Pending <==> answer == NotReady
      ensures r == Pending ==> state == Writing(old(state).view)
      ensures r == Error ==> state == Ready(old(state).view)
      ensures r.Done? ==> r.value == |data| || Full()
      decreases 1, 0
    {
      ghost var w := Shape();
      assert w.end > 0;
      var flushed := PollFlush(answer);
      match flushed {
        case Pending =>
          assert FlushAndWrite(w, answer, |data|, 0) == Some((Shape(), Pending));
          return Pending;
        case Error =>
          assert FlushAndWrite(w, answer, |data|, 0) == Some((Shape(), Error));
          return Error;
        case Done(_) =>
          RoomAfterFlush(w, answer);
          ghost var f := Shape();
          r := PollWrite(NotReady, data);
          ghost var fuel: nat :| Write(f, NotReady, |data|, fuel) == Some((Shape(), r));
          assert FlushAndWrite(w, answer, |data|, fuel + 1) == Some((Shape(), r));
      }
    }

    /**
      Accepts a prefix of the data, all of it unless the buffer is full then; every byte accepted is
      acknowledged or still buffered. It goes as the model says, and is called only where that returns.
    */
    method PollWrite(answer: Answer, data: Bytes) returns (r: Poll<nat>)
      requires Valid() && CanReturn(Shape())
      requires answer.Wrote? ==> answer.count == |Buffered()|
      modifies this, Pool()
      ensures Valid()
      ensures EndsIn(old(Shape()), answer, |data|, Shape(), r)
      ensures r.Done? ==> r.value <= |data| && accepted == old(accepted) + data[..r.value]
      ensures r.Done? && data != [] ==> r.value > 0
      ensures !r.Done? ==> accepted == old(accepted) && Buffered() == old(Buffered())
      ensures acknowledged == if r.Done? && old(MustFlush()) then old(accepted) else old(acknowledged)
      ensures r.Done? <==> !old(MustFlush()) || answer.Wrote?
      ensures r == Pending <==> old(MustFlush()) && answer == NotReady
      ensures r == Pending ==> state == Writing(old(state).view)
      ensures r == Error ==> state == Ready(old(state).view)
      ensures r.Done? ==> r.value == |data| || Full()
      decreases if MustFlush() then 2 else 0, 1
    {
      ghost var w := Shape();
      match state {
        case Writing(_) =>
          r := PollFlushAndWrite(answer, data);
          FlushedEnds(w, w, answer, |data|, Shape(), r);
        case Ready(_) =>
          PreWrite();
          ghost var p := Shape();
          var spare := state.view.Spare();
          if spare == 0 {
            r := PollFlushAndWrite(answer, data);
            FlushedEnds(w, p, answer, |data|, Shape(), r);
          } else {
            var n := Accept(data[..Min(spare, |data|)]);
            r := Done(n);
            FittingEnds(w, p, answer, |data|, n);
          }
      }
    }
  }
}
