/** A buffer that may be absent, and the part of it a view names. */
module Views {
  import opened Common

  type Byte = nat
  type Bytes = seq<Byte>

  /** What polling a reader or a writer answers. */
  datatype Poll<+T> = Pending | Done(value: T) | Error

  /** A boxed slice, or none while a pooled adapter holds no buffer. */
  type Buffer = Option<Bytes>

  function Size(b: Buffer): nat {
    match b case None => 0 case Some(bytes) => |bytes|
  }

  function Min(a: nat, b: nat): nat {
    if a < b then a else b
  }

  /** A prefix of a buffer: what a writer has filled. */
  datatype Prefix = Prefix(inner: Buffer, end: nat) {
    function Len(): nat {
      Min(end, Size(inner))
    }

    function Slice(): (s: Bytes)
      ensures |s| == Len()
    {
      match inner case None => [] case Some(bytes) => bytes[..Len()]
    }

    function Spare(): nat {
      if Size(inner) > end then Size(inner) - end else 0
    }

    /** Copies as much of the data as fits behind the prefix; slicing past the buffer panics. */
    function Fill(data: Bytes): (r: (Prefix, nat))
      requires end <= Size(inner)
      ensures r.1 == Min(Spare(), |data|)
      ensures r.0.end <= Size(r.0.inner) == Size(inner)
      ensures r.0.Slice() == Slice() + data[..r.1]
    {
      match inner
      case None => (this, 0)
      case Some(bytes) =>
        var n := Min(|bytes| - end, |data|);
        var filled := bytes[..end] + data[..n] + bytes[end + n..];
        assert filled[..end + n] == bytes[..end] + data[..n];
        (Prefix(Some(filled), end + n), n)
    }
  }

  /** A range of a buffer: what a reader has not consumed. */
  datatype Window = Window(inner: Buffer, start: nat, end: nat) {
    predicate IsEmpty() {
      start >= end
    }

    function Len(): nat {
      var top := Min(end, Size(inner));
      if top > start then top - start else 0
    }

    function Slice(): (s: Bytes)
      ensures |s| == Len()
    {
      match inner case None => [] case Some(bytes) => if Len() == 0 then [] else bytes[start..start + Len()]
    }

    /** The range lies within the buffer, or is empty. */
    predicate InBounds() {
      IsEmpty() || end <= Size(inner)
    }

    /** Consuming past the end stops at the end. */
    function Consume(amount: nat): (w: Window)
      ensures InBounds() ==>
                && w.InBounds() && w.end == end
                && Slice() == Slice()[..Min(amount, Len())] + w.Slice()
    {
      this.(start := Min(start + amount, end))
    }
  }
}
