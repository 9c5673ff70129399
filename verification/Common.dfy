/** Types shared by the models, and facts about counting and duplicate-free sequences. */
module Common {

  datatype Option<+T> = None | Some(value: T)

  /** One completion result: the return value and the flag word of a completion entry. */
  datatype RingResult = RingResult(ret: int, flags: nat) {
    /** Bit 1 of the flag word: more completions will follow for the same submission. */
    predicate HasMore() {
      flags / 2 % 2 == 1
    }

    /** Bit 0 of the flag word says that the upper half carries a buffer id. */
    function BufferId(): Option<nat> {
      if flags % 2 == 1 then Some(flags / 65536) else None
    }
  }

  lemma LastBit(n: nat, bit: nat)
    requires bit < 2
    ensures (n * 2 + bit) / 2 == n && (n * 2 + bit) % 2 == bit
  {
  }

  /** The flag word by its fields: each is read on its own, whatever the others are. */
  lemma FlagsAreRead(ret: int, id: nat, others: nat, more: bool, selected: bool)
    requires others < 0x4000
    ensures var flags := id * 0x1_0000 + others * 4 + (if more then 2 else 0) + (if selected then 1 else 0);
            && (RingResult(ret, flags).HasMore() <==> more)
            && RingResult(ret, flags).BufferId() == if selected then Some(id) else None
  {
    var m, b := if more then 1 else 0, if selected then 1 else 0;
    var pairs := id * 0x4000 + others;
    LastBit(pairs, m);
    LastBit(pairs * 2 + m, b);
  }

  ghost predicate NoDuplicates<T>(s: seq<T>) {
    forall i, j :: 0 <= i < j < |s| ==> s[i] != s[j]
  }

  ghost function Elements<T>(s: seq<T>): set<T> {
    set x | x in s
  }

  ghost function Range(n: nat): (r: set<nat>)
    ensures forall i: nat :: i in r <==> i < n
    ensures |r| == n
  {
    if n == 0 then {} else Range(n - 1) + {n - 1}
  }

  /** Taking the last element off a concatenation takes it off the second part. */
  lemma ButLast<T>(a: seq<T>, b: seq<T>)
    requires b != []
    ensures (a + b)[..|a + b| - 1] == a + b[..|b| - 1] && (a + b)[|a + b| - 1] == b[|b| - 1]
  {
  }

  lemma FrontAndLast<T>(s: seq<T>)
    requires s != []
    ensures s[..|s| - 1] + [s[|s| - 1]] == s
  {
  }

  lemma Regrouped<T>(a: seq<T>, b: seq<T>, c: seq<T>)
    ensures a + b + c == a + (b + c)
  {
  }

  lemma {:induction false} NoDuplicatesSize<T>(s: seq<T>)
    requires NoDuplicates(s)
    ensures |Elements(s)| == |s|
  {
    if s == [] {
      assert Elements(s) == {};
    } else {
      var last := |s| - 1;
      NoDuplicatesSize(s[..last]);
      assert Elements(s) == Elements(s[..last]) + {s[last]};
      assert s[last] !in s[..last];
    }
  }

  lemma SubsetSize<T>(a: set<T>, b: set<T>)
    requires a <= b
    ensures |a| <= |b|
    ensures |a| == |b| ==> a == b
  {
    assert b == a + (b - a);
    assert |b| == |a| + |b - a|;
  }

  /** A duplicate-free list of numbers below n has length n exactly when it lists them all. */
  lemma FullExactlyWhenComplete(s: seq<nat>, n: nat)
    requires NoDuplicates(s)
    requires forall x :: x in s ==> x < n
    ensures |s| <= n
    ensures |s| == n <==> forall i: nat :: i < n ==> i in s
  {
    NoDuplicatesSize(s);
    assert Elements(s) <= Range(n);
    SubsetSize(Elements(s), Range(n));
    if forall i: nat :: i < n ==> i in s {
      assert Elements(s) == Range(n);
    }
    if |s| == n {
      forall i: nat | i < n ensures i in s {
        assert i in Range(n);
        assert i in Elements(s);
      }
    }
  }
}
