/** Facts about sequences that the proofs below call by name. */
module Seqs {

  lemma Assoc<T>(a: seq<T>, b: seq<T>, c: seq<T>)
    ensures a + (b + c) == (a + b) + c
  {
  }

  lemma SliceOfDrop<T>(s: seq<T>, p: nat, i: nat, j: nat)
    requires p + i <= p + j <= |s|
    ensures s[p..][i..j] == s[p + i..p + j]
    ensures s[p..][j..] == s[p + j..]
    ensures s[p..][..j] == s[p..p + j]
  {
  }

  lemma SliceJoin<T>(s: seq<T>, p: nat, q: nat, e: nat)
    requires p <= q <= e <= |s|
    ensures s[p..e] == s[p..q] + s[q..e]
  {
  }

  lemma TakeSnoc<T>(s: seq<T>, n: nat)
    requires n < |s|
    ensures s[..n + 1] == s[..n] + [s[n]]
  {
  }
}
