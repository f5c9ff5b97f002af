/** What a filter keeps, said by positions. */
module Picks {
  /** The positions of all that is wanted, in order, and what is made of it. */
  ghost predicate ArePicked<T, U>(all: seq<T>, wanted: T -> bool, made: T -> U, out: seq<U>, at: seq<nat>) {
    && |out| == |at|
    && (forall i :: 0 <= i < |at| ==> at[i] < |all| && wanted(all[at[i]]) && out[i] == made(all[at[i]]))
    && (forall i, j :: 0 <= i < j < |at| ==> at[i] < at[j])
    && (forall k: nat :: k < |all| && wanted(all[k]) ==> k in at)
  }

  lemma OneMorePicked<T, U>(all: seq<T>, wanted: T -> bool, made: T -> U, out: seq<U>, at: seq<nat>, x: T)
    requires ArePicked(all, wanted, made, out, at)
    ensures wanted(x) ==> ArePicked(all + [x], wanted, made, out + [made(x)], at + [|all|])
    ensures !wanted(x) ==> ArePicked(all + [x], wanted, made, out, at)
  {
    var more := all + [x];
    assert forall k :: 0 <= k < |all| ==> more[k] == all[k];
    forall k: nat | k < |all| && wanted(more[k]) ensures k in at && k in at + [|all|] {
      assert wanted(all[k]);
    }
    assert (at + [|all|])[|at|] == |all|;
  }
}
