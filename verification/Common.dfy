/** Small shared datatypes and the fixed-width integers the Go sources use. */
module Common {
  datatype Option<+T> = None | Some(value: T)

  datatype Result<+T, +E> = Ok(value: T) | Err(error: E)

  newtype int32 = x: int | -0x8000_0000 <= x < 0x8000_0000

  newtype int64 = x: int | -0x8000_0000_0000_0000 <= x < 0x8000_0000_0000_0000

  /** A `seq` without repetition that lists exactly the members of a set: one iteration order of a Go map. */
  ghost predicate Enumerates<T(!new)>(order: seq<T>, s: set<T>) {
    && (forall i, j :: 0 <= i < j < |order| ==> order[i] != order[j])
    && (forall x :: x in order <==> x in s)
  }

  /** `indices` lists the members of a set of positions in ascending order. */
  ghost predicate Ascending(indices: seq<nat>, members: set<nat>) {
    && (forall a, b :: 0 <= a < b < |indices| ==> indices[a] < indices[b])
    && (forall i :: i in indices <==> i in members)
  }

  /** One more position, above all others. */
  lemma AscendingSnoc(indices: seq<nat>, members: set<nat>, i: nat)
    requires Ascending(indices, members) && forall j :: j in members ==> j < i
    ensures Ascending(indices + [i], members + {i})
  {
    forall a, b | 0 <= a < b < |indices| + 1 ensures (indices + [i])[a] < (indices + [i])[b] {
      if b == |indices| {
        assert indices[a] in indices;
      }
    }
  }
}
