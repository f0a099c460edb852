/**
 * Facts about sequences of integer ids, shared by the two in-memory catalogs
 * and by the tables of the transaction store: the "first element with this id"
 * search that every handler loop performs, uniqueness of ids, and the upper
 * bound that a `nextID` counter keeps over every id it has issued.
 */
module IdList {
  import opened Wrappers

  /** Position of the first occurrence of `id` in `ids`, or None when it does not occur. */
  function FirstIndex(ids: seq<int>, id: int): (r: Option<nat>)
    ensures r.None? <==> id !in ids
    ensures r.Some? ==> r.value < |ids| && ids[r.value] == id
    ensures r.Some? ==> forall k :: 0 <= k < r.value ==> ids[k] != id
  {
    if ids == [] then None
    else if ids[0] == id then Some(0)
    else
      match FirstIndex(ids[1..], id)
      case None => None
      case Some(i) => Some(i + 1)
  }

  /** The only position that satisfies FirstIndex's contract is the one it returns. */
  lemma FirstIndexAt(ids: seq<int>, id: int, i: nat)
    requires i < |ids| && ids[i] == id
    requires forall k :: 0 <= k < i ==> ids[k] != id
    ensures FirstIndex(ids, id) == Some(i)
  {
  }

  /** No id occurs twice. */
  predicate Unique(ids: seq<int>) {
    forall i, j :: 0 <= i < j < |ids| ==> ids[i] != ids[j]
  }

  /** Every id lies strictly below `bound` (the next id a counter will hand out). */
  predicate Below(ids: seq<int>, bound: int) {
    forall x :: x in ids ==> x < bound
  }

  /** The sequence with its element at position `i` spliced out. */
  function RemoveAt(ids: seq<int>, i: nat): (r: seq<int>)
    requires i < |ids|
    ensures |r| == |ids| - 1
    ensures forall k :: 0 <= k < i ==> r[k] == ids[k]
    ensures forall k :: i <= k < |r| ==> r[k] == ids[k + 1]
  {
    ids[..i] + ids[i + 1..]
  }

  /** Splicing out one element of a sequence of unique ids keeps the others
      unique, drops that id entirely, and introduces no new id. */
  lemma RemoveAtUnique(ids: seq<int>, i: nat)
    requires i < |ids| && Unique(ids)
    ensures Unique(RemoveAt(ids, i))
    ensures ids[i] !in RemoveAt(ids, i)
    ensures forall x :: x in RemoveAt(ids, i) ==> x in ids
  {
  }

  /** Appending an id that is not present yet keeps the ids unique. */
  lemma AppendUnique(ids: seq<int>, x: int)
    requires Unique(ids) && x !in ids
    ensures Unique(ids + [x])
  {
  }
}
