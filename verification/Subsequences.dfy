/** Lists that hold some of the elements of another list in their order. */
module Subsequences {

  predicate Rising(indices: seq<nat>) {
    forall i, j | 0 <= i < j < |indices| :: indices[i] < indices[j]
  }

  function SetOf(indices: seq<nat>): set<nat> {
    set k | k in indices
  }

  predicate IsAt<T(==)>(all: seq<T>, indices: seq<nat>, picked: seq<T>) {
    && |indices| == |picked| && Rising(indices)
    && forall n | 0 <= n < |picked| :: indices[n] < |all| && picked[n] == all[indices[n]]
  }

  /** `picked` holds the elements of `all` at these positions, in their order, and no other. */
  ghost predicate Picks<T>(all: seq<T>, positions: set<nat>, picked: seq<T>) {
    exists indices: seq<nat> :: IsAt(all, indices, picked) && SetOf(indices) == positions
  }

  lemma PicksNothing<T>()
    ensures Picks<T>([], {}, [])
  {
    assert IsAt<T>([], [], []) && SetOf([]) == {};
  }

  lemma PicksNext<T>(all: seq<T>, positions: set<nat>, picked: seq<T>, next: T, taken: bool)
    requires Picks(all, positions, picked)
    ensures Picks(all + [next], if taken then positions + {|all|} else positions, if taken then picked + [next] else picked)
  {
    var indices: seq<nat> :| IsAt(all, indices, picked) && SetOf(indices) == positions;
    if taken {
      assert IsAt(all + [next], indices + [|all|], picked + [next]);
      SetOfMore(indices, |all|);
    } else {
      assert IsAt(all + [next], indices, picked);
    }
  }

  lemma SetOfMore(indices: seq<nat>, k: nat)
    ensures SetOf(indices + [k]) == SetOf(indices) + {k}
  {
  }

  /** The positions determine the list. */
  lemma PicksOne<T>(all: seq<T>, positions: set<nat>, picked: seq<T>, other: seq<T>)
    requires Picks(all, positions, picked) && Picks(all, positions, other)
    ensures picked == other
  {
    var a: seq<nat> :| IsAt(all, a, picked) && SetOf(a) == positions;
    var b: seq<nat> :| IsAt(all, b, other) && SetOf(b) == positions;
    RisingIsUnique(a, b);
  }

  lemma {:induction false} RisingIsUnique(a: seq<nat>, b: seq<nat>)
    requires Rising(a) && Rising(b) && SetOf(a) == SetOf(b)
    ensures a == b
  {
    assert a != [] ==> a[0] in SetOf(a);
    assert b != [] ==> b[0] in SetOf(b);
    if a != [] && b != [] {
      var m, n := |a| - 1, |b| - 1;
      assert a[m] in SetOf(b) && b[n] in SetOf(a);
      WithoutLast(a);
      WithoutLast(b);
      RisingIsUnique(a[..m], b[..n]);
    }
  }

  lemma WithoutLast(a: seq<nat>)
    requires a != [] && Rising(a)
    ensures SetOf(a[..|a| - 1]) == SetOf(a) - {a[|a| - 1]}
    ensures forall k | k in SetOf(a) :: k <= a[|a| - 1]
  {
    assert a == a[..|a| - 1] + [a[|a| - 1]];
    SetOfMore(a[..|a| - 1], a[|a| - 1]);
  }
}
