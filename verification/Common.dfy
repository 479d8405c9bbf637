/** Small types and sequence operations that several modules share. */
module Common {

  datatype Option<+T> = None | Some(value: T)

  /** s[i] = s[--n]: the last element takes the place of element i. */
  function SwapRemove<T>(s: seq<T>, i: nat): (r: seq<T>)
    requires i < |s|
    ensures |r| == |s| - 1
  {
    s[i := s[|s| - 1]][..|s| - 1]
  }

  lemma SwapRemoveAt<T>(s: seq<T>, i: nat)
    requires i < |s|
    ensures forall k | 0 <= k < |s| - 1 :: SwapRemove(s, i)[k] == if k == i then s[|s| - 1] else s[k]
  {
  }
}
