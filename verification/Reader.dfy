/** The buffered reader: bytes are read into a buffer and consumed from it. */
module Readers {
  import opened Common
  import opened Views

  /** What polling the read in flight answers: the buffer comes back, filled up to a count. */
  datatype Answer = NotReady | Filled(buffer: Buffer, count: nat) | Failed(buffer: Buffer)

  datatype State = Empty | Reading(sent: Buffer) | Ready(view: Window)

  /** The buffers of a list, from the last one to the first. */
  function Reversed(buffers: seq<Bytes>): seq<Bytes> {
    if buffers == [] then [] else [buffers[|buffers| - 1]] + Reversed(buffers[..|buffers| - 1])
  }

  /**
    The buffer set that any number of pooled readers share: `inserted` logs what was given to the
    group, `cancelled` lists what came back through cancelled reads.
  */
  class BufferSet {
    var inserted: seq<Bytes>
    var cancelled: seq<Bytes>

    constructor ()
      ensures inserted == [] && cancelled == []
    {
      inserted, cancelled := [], [];
    }

    method Insert(buffer: Bytes)
      modifies this`inserted
      ensures inserted == old(inserted) + [buffer]
    {
      inserted := inserted + [buffer];
    }

    /** Gives every cancelled buffer back to the group, the last one first. */
    method Recycle()
      modifies this
      ensures cancelled == []
      ensures inserted == old(inserted) + Reversed(old(cancelled))
    {
      while cancelled != []
        invariant inserted + Reversed(cancelled) == old(inserted) + Reversed(old(cancelled))
        decreases |cancelled|
      {
        var buffer := cancelled[|cancelled| - 1];
        cancelled := cancelled[..|cancelled| - 1];
        assert inserted + ([buffer] + Reversed(cancelled)) == inserted + [buffer] + Reversed(cancelled);
        Insert(buffer);
      }
      assert inserted + [] == inserted;
    }
  }

  /** A reader keeps its own buffer, or is lent one from a set by every read. */
  datatype Adapter = Owned | Pooled(pool: BufferSet)

  lemma SplitAt(view: Window, amount: nat, obtained: Bytes, consumed: Bytes)
    requires view.InBounds() && obtained == consumed + view.Slice()
    ensures var n := Min(amount, view.Len());
            && view.Consume(amount).Slice() == view.Slice()[n..]
            && obtained == consumed + view.Slice()[..n] + view.Slice()[n..]
  {
    var n := Min(amount, view.Len());
    var rest := view.Consume(amount).Slice();
    assert view.Slice() == view.Slice()[..n] + rest;
    assert (view.Slice()[..n] + rest)[n..] == rest;
  }

  class BufReader {
    var state: State
    const adapter: Adapter
    ghost var obtained: Bytes
    ghost var consumed: Bytes
    ghost var lent: seq<Bytes>
    ghost var returned: seq<Bytes>

    ghost function Pool(): set<object> {
      if adapter.Pooled? then {adapter.pool} else {}
    }

    /** The bytes obtained that have not been consumed. */
    ghost function Unread(): Bytes
      reads this
    {
      if state.Ready? then state.view.Slice() else []
    }

    ghost function Holding(): seq<Bytes>
      reads this
    {
      if state.Ready? && state.view.inner.Some? then [state.view.inner.value] else []
    }

    /** The buffer in use: sent with the read in flight, or with the bytes that were read. */
    ghost function Inner(): Buffer
      requires !state.Empty?
      reads this
    {
      if state.Reading? then state.sent else state.view.inner
    }

    /**
      Consumed and unread bytes are those obtained; and every buffer a pooled reader was lent is
      either one it has returned to the set or the one it holds.
    */
    ghost predicate Valid()
      reads this
    {
      && !state.Empty?
      && (state.Ready? ==> state.view.InBounds())
      && (adapter.Pooled? && state.Reading? ==> state.sent == None)
      && obtained == consumed + Unread()
      && (adapter.Pooled? ==> lent == returned + Holding())
    }

    /** All that a call does to the set, which other readers use too: it logs what this one returns. */
    twostate predicate OnlyReturns()
      reads this, Pool()
    {
      && old(returned) <= returned
      && (adapter.Pooled? ==>
            && adapter.pool.inserted == old(adapter.pool.inserted) + returned[|old(returned)|..]
            && adapter.pool.cancelled == old(adapter.pool.cancelled))
    }

    /** The same for starting a read, which also recycles the buffers of cancelled ones. */
    twostate predicate ReturnsAndRecycles()
      reads this, Pool()
    {
      && old(returned) <= returned
      && (adapter.Pooled? ==>
            && adapter.pool.inserted ==
               old(adapter.pool.inserted) + returned[|old(returned)|..] + Reversed(old(adapter.pool.cancelled))
            && adapter.pool.cancelled == [])
    }

    /** What a read in flight may answer: it fills no more than the buffer it returns. */
    ghost predicate Fair(answer: Answer) {
      answer.Filled? ==> answer.count <= Size(answer.buffer)
    }

    /** The bytes an answer brings, if the reader polls for one. */
    ghost function Brought(answer: Answer): Bytes
      requires Fair(answer)
    {
      if answer.Filled? && answer.buffer.Some? then answer.buffer.value[..answer.count] else []
    }

    /** A reader over a buffer in which the bytes from `pos` up to `filled` are to be read first. */
    constructor (buffer: Buffer, pos: nat, filled: nat, adapter: Adapter)
      requires pos < filled ==> filled <= Size(buffer)
      requires adapter.Pooled? ==> buffer == None
      ensures Valid() && this.adapter == adapter
      ensures consumed == [] && obtained == Window(buffer, pos, filled).Slice()
      ensures state == Ready(Window(buffer, pos, filled)) && lent == returned == []
    {
      state := Ready(Window(buffer, pos, filled));
      this.adapter := adapter;
      obtained, consumed, lent, returned := Window(buffer, pos, filled).Slice(), [], [], [];
    }

    /** Starts a read; a pooled reader first gives back the buffer it still holds, and recycles. */
    method CreateFuture(buffer: Buffer) returns (sent: Buffer)
      modifies `returned, Pool()
      ensures adapter.Owned? ==> sent == buffer && returned == old(returned)
      ensures adapter.Pooled? ==>
                sent == None && returned == old(returned) + if buffer.Some? then [buffer.value] else []
      ensures ReturnsAndRecycles()
    {
      sent := buffer;
      if adapter.Pooled? {
        if buffer.Some? {
          adapter.pool.Insert(buffer.value);
          returned := returned + [buffer.value];
        }
        adapter.pool.Recycle();
        sent := None;
      }
    }

    /** A pooled reader gives its buffer back as soon as it has been consumed. */
    method PostConsume(view: Window) returns (left: Window)
      modifies `returned, Pool()
      ensures left.Slice() == view.Slice()
      ensures adapter.Pooled? && view.IsEmpty() ==> left == view.(inner := None)
      ensures !(adapter.Pooled? && view.IsEmpty()) ==> left == view
      ensures returned == old(returned) +
                if adapter.Pooled? && view.IsEmpty() && view.inner.Some? then [view.inner.value] else []
      ensures OnlyReturns()
    {
      left := view;
      if adapter.Pooled? && view.IsEmpty() {
        if view.inner.Some? {
          adapter.pool.Insert(view.inner.value);
          returned := returned + [view.inner.value];
          left := view.(inner := None);
        }
      }
    }

    /**
      Answers the unread bytes, reading only when there are none; an empty answer means that the
      read brought nothing. Neither failure nor waiting loses or invents a byte.
    */
    method PollFillBuf(answer: Answer) returns (r: Poll<Bytes>)
      requires Valid() && Fair(answer)
      modifies this, Pool()
      ensures Valid()
      ensures consumed == old(consumed)
      ensures old(Unread()) != [] ==> r == Done(old(Unread())) && state == old(state)
      ensures old(Unread()) == [] ==>
                (r == Pending <==> answer == NotReady) && (r == Error <==> answer.Failed?)
      ensures r.Done? ==> r.value == Unread() && state.Ready?
      ensures r == Pending ==> state.Reading? && (adapter.Owned? ==> state.sent == old(Inner()))
      ensures old(Unread()) == [] && answer.Filled? ==> state == Ready(Window(answer.buffer, 0, answer.count))
      ensures old(Unread()) == [] && answer.Failed? ==> state == Ready(Window(answer.buffer, 0, 0))
      ensures obtained == old(obtained) + if old(Unread()) == [] then Brought(answer) else []
      ensures if old(state).Ready? && old(Unread()) == [] then ReturnsAndRecycles()
              else returned == old(returned) && (adapter.Pooled? ==> unchanged(adapter.pool))
      decreases if state.Ready? then 1 else 0
    {
      match state {
        case Reading(_) =>
          match answer {
            case NotReady =>
              return Pending;
            case Filled(buffer, count) =>
              state := Ready(Window(buffer, 0, count));
              obtained := obtained + Brought(answer);
              lent := lent + if buffer.Some? then [buffer.value] else [];
            case Failed(buffer) =>
              state := Ready(Window(buffer, 0, 0));
              lent := lent + if buffer.Some? then [buffer.value] else [];
              return Error;
          }
        case Ready(view) =>
          if view.IsEmpty() {
            var sent := CreateFuture(view.inner);
            state := Reading(sent);
            r := PollFillBuf(answer);
            return;
          }
      }
      return Done(state.view.Slice());
    }

    /** Consumes from the front; asking for more than is unread consumes all of it. */
    method Consume(amount: nat)
      requires Valid()
      modifies this, Pool()
      ensures Valid()
      ensures obtained == old(obtained)
      ensures var n := Min(amount, |old(Unread())|);
              consumed == old(consumed) + old(Unread())[..n] && Unread() == old(Unread())[n..]
      ensures adapter.Pooled? && Unread() == [] ==> Holding() == []
      ensures adapter.Owned? ==> Inner() == old(Inner())
      ensures OnlyReturns()
    {
      if state.Ready? {
        var view := state.view.Consume(amount);
        SplitAt(state.view, amount, obtained, consumed);
        consumed := consumed + state.view.Slice()[..Min(amount, state.view.Len())];
        var left := PostConsume(view);
        state := Ready(left);
      }
    }

    /** Reads the next bytes of the source into a slice of the given size, and fills it if there are as many. */
    method PollRead(answer: Answer, size: nat) returns (r: Poll<Bytes>)
      requires Valid() && Fair(answer)
      modifies this, Pool()
      ensures Valid()
      ensures r.Done? ==> consumed == old(consumed) + r.value && |r.value| <= size
      ensures r.Done? ==> |r.value| == size || Unread() == []
      ensures r.Done? && size > 0 && r.value == [] ==> Unread() == [] && obtained == old(obtained)
      ensures !r.Done? ==> consumed == old(consumed) && obtained == old(obtained)
      ensures obtained == old(obtained) + if old(Unread()) == [] then Brought(answer) else []
      ensures adapter.Pooled? ==> old(adapter.pool.inserted) <= adapter.pool.inserted
    {
      var inner := PollFillBuf(answer);
      match inner {
        case Pending => return Pending;
        case Error => return Error;
        case Done(bytes) =>
          var len := Min(|bytes|, size);
          Consume(len);
          return Done(bytes[..len]);
      }
    }
  }
}
