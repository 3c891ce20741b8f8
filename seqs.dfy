/** Maps over sequences, shared by the modules that turn one list of records into another. */
module Seqs {

  /** `xs` mapped element by element: entry `i` is `f(xs[i])`. */
  function Map<A, B>(xs: seq<A>, f: A -> B): (r: seq<B>)
    ensures |r| == |xs| && forall i :: 0 <= i < |xs| ==> r[i] == f(xs[i])
  {
    seq(|xs|, i requires 0 <= i < |xs| => f(xs[i]))
  }

  /** `xs` mapped by position: entry `i` is `f(i, xs[i])`. */
  function MapIndexed<A, B>(xs: seq<A>, f: (nat, A) -> B): (r: seq<B>)
    ensures |r| == |xs|
    decreases |xs|
  {
    if xs == [] then [] else MapIndexed(xs[..|xs| - 1], f) + [f(|xs| - 1, xs[|xs| - 1])]
  }

  lemma MapIndexedSnoc<A, B>(xs: seq<A>, f: (nat, A) -> B, i: nat)
    requires i < |xs|
    ensures MapIndexed(xs[..i + 1], f) == MapIndexed(xs[..i], f) + [f(i, xs[i])]
  {
    assert xs[..i + 1][..i] == xs[..i];
  }

  lemma {:induction false} MapIndexedAt<A, B>(xs: seq<A>, f: (nat, A) -> B, i: nat)
    requires i < |xs|
    ensures MapIndexed(xs, f)[i] == f(i, xs[i])
    decreases |xs|
  {
    var n := |xs| - 1;
    if i < n {
      MapIndexedAt(xs[..n], f, i);
      assert xs[..n][i] == xs[i];
    }
  }
}
