/** Small facts about sequence concatenation that the other modules use as
    proof steps. */
module Seqs {
  lemma ConcatAssoc<T>(a: seq<T>, b: seq<T>, c: seq<T>)
    ensures a + (b + c) == (a + b) + c
  {
  }

  lemma DropOfAppend<T>(a: seq<T>, t: seq<T>, j: nat)
    requires j <= |a|
    ensures (a + t)[j..] == a[j..] + t
  {
  }

  /** An empty part can change places with its neighbour. */
  lemma SwapPastEmpty<T>(f: seq<T>, m: seq<T>, b: seq<T>)
    requires m == [] || b == []
    ensures f + m + b == f + b + m
  {
    if m == [] {
      assert f + m == f && f + b + m == f + b;
    } else {
      assert f + m + b == f + m && f + b == f;
    }
  }
}
