/** Generic sequence helpers shared by the string formatters and the drag handlers. */
module Seqs {
  /** `n` copies of `c`. */
  function Repeat<T>(c: T, n: nat): (s: seq<T>)
    ensures |s| == n
    ensures forall i :: 0 <= i < n ==> s[i] == c
  {
    if n == 0 then [] else [c] + Repeat(c, n - 1)
  }

  /** A three-part concatenation slices back into its parts. */
  lemma Split3<T>(a: seq<T>, b: seq<T>, c: seq<T>)
    ensures (a + b + c)[..|a|] == a
    ensures (a + b + c)[|a|..|a| + |b|] == b
    ensures (a + b + c)[|a| + |b|..] == c
  {
    var ab := a + b;
    assert (ab + c)[..|ab|] == ab;
    assert ab[..|a|] == a && ab[|a|..] == b;
  }
}
