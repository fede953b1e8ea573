/** Order-preserving selection from a sequence, the shape of every
    `Array.prototype.filter` in the modelled code. */
module Seqs {

  /** `a` is `b` with some elements removed, the rest in their order. */
  predicate Subsequence<T(==)>(a: seq<T>, b: seq<T>)
  {
    a == [] || (b != [] && ((a[0] == b[0] && Subsequence(a[1..], b[1..])) || Subsequence(a, b[1..])))
  }

  /** A prefix of a subsequence is a subsequence. */
  lemma {:induction false} PrefixSubsequence<T>(a: seq<T>, b: seq<T>, k: nat)
    requires Subsequence(a, b) && k <= |a|
    ensures Subsequence(a[..k], b)
    decreases |b|
  {
    if k > 0 {
      assert b != [];
      if a[0] == b[0] && Subsequence(a[1..], b[1..]) {
        PrefixSubsequence(a[1..], b[1..], k - 1);
        assert a[..k][1..] == a[1..][..k - 1];
      } else {
        PrefixSubsequence(a, b[1..], k);
      }
    }
  }
}
