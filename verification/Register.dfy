/** The allocator of fixed-buffer, buffer-group and direct-file slots. */
module Register {
  import opened Common

  /** Slots below `len` have been given out at some time; those in `vacant` have come back. */
  ghost predicate RegisterValid(vacant: seq<nat>, len: nat, size: nat) {
    && len <= size
    && NoDuplicates(vacant)
    && forall i :: 0 <= i < |vacant| ==> vacant[i] < len
  }

  ghost function HandedOut(vacant: seq<nat>, len: nat): (held: set<nat>) {
    set i | i in Range(len) && i !in vacant
  }

  lemma HandedOutSize(vacant: seq<nat>, len: nat, size: nat)
    requires RegisterValid(vacant, len, size)
    ensures |HandedOut(vacant, len)| == len - |vacant|
  {
    NoDuplicatesSize(vacant);
    assert HandedOut(vacant, len) == Range(len) - Elements(vacant);
    assert Elements(vacant) <= Range(len);
    assert Range(len) == HandedOut(vacant, len) + Elements(vacant);
  }

  class SlotRegister {
    var vacant: seq<nat>
    var len: nat
    const size: nat

    ghost predicate Valid()
      reads this
    {
      RegisterValid(vacant, len, size)
    }

    ghost function Held(): set<nat>
      reads this
    {
      HandedOut(vacant, len)
    }

    constructor (size: nat)
      ensures Valid() && Held() == {}
      ensures this.size == size
    {
      vacant := [];
      len := 0;
      this.size := size;
      new;
      assert HandedOut([], 0) == {};
    }

    /** Hands out a slot nobody holds; fails exactly when all `size` slots are held. */
    method Get() returns (slot: Option<nat>)
      requires Valid()
      modifies this
      ensures Valid()
      ensures slot == None <==> |old(Held())| == size
      ensures slot == None ==> Held() == old(Held())
      ensures slot.Some? ==> slot.value < size && slot.value !in old(Held()) && Held() == old(Held()) + {slot.value}
    {
      HandedOutSize(vacant, len, size);
      if vacant != [] {
        var last := |vacant| - 1;
        slot := Some(vacant[last]);
        vacant := vacant[..last];
        assert forall i :: i in old(vacant) <==> i in vacant || i == slot.value;
        return;
      }
      if len == size {
        return None;
      }
      slot := Some(len);
      len := len + 1;
    }

    /**
      Takes a slot back; an index the register does not manage is ignored. The register stays in
      order if and only if nobody gives back a slot that is not held.
    */
    method Remove(slot: nat)
      requires Valid()
      modifies this
      ensures Valid() <==> slot in old(Held()) || slot >= size
      ensures Held() == old(Held()) - {slot}
    {
      if slot < size {
        vacant := vacant + [slot];
        assert forall i :: i in vacant <==> i in old(vacant) || i == slot;
        var last := |vacant| - 1;
        assert vacant[last] == slot && forall i :: 0 <= i < last ==> vacant[i] == old(vacant)[i];
        assert slot in old(vacant) ==> !NoDuplicates(vacant) by {
          if slot in old(vacant) {
            var i :| 0 <= i < last && old(vacant)[i] == slot;
            assert vacant[i] == vacant[last];
          }
        }
      }
    }

    /** The two lengths agree exactly when no slot is held. */
    method IsFull() returns (full: bool)
      requires Valid()
      ensures full <==> Held() == {}
    {
      HandedOutSize(vacant, len, size);
      full := len == |vacant|;
    }
  }
}
