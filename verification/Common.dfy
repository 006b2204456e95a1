/** Small definitions that several models share. */
module Common {

  datatype Option<T> = None | Some(value: T)

  function One(b: bool): int {
    if b then 1 else 0
  }

  // ----- choosing some of the elements of a list

  /** `ys` are the elements of `xs` at the positions `at`, which increase. */
  ghost predicate Picks<T>(xs: seq<T>, at: seq<nat>, ys: seq<T>) {
    && |at| == |ys| && (forall j, k :: 0 <= j < k < |at| ==> at[j] < at[k])
    && (forall k :: 0 <= k < |at| ==> at[k] < |xs| && ys[k] == xs[at[k]])
  }

  lemma PicksSkip<T>(xs: seq<T>, x: T, at: seq<nat>, ys: seq<T>)
    requires Picks(xs, at, ys)
    ensures Picks(xs + [x], at, ys) && |xs| !in at && forall i :: i in at ==> i < |xs|
  {
  }

  lemma PicksTake<T>(xs: seq<T>, x: T, at: seq<nat>, ys: seq<T>)
    requires Picks(xs, at, ys)
    ensures Picks(xs + [x], at + [|xs|], ys + [x]) && forall i :: i in at + [|xs|] <==> i in at || i == |xs|
  {
    var at', ys', xs' := at + [|xs|], ys + [x], xs + [x];
    forall k | 0 <= k < |at'| ensures at'[k] < |xs'| && ys'[k] == xs'[at'[k]] {
      if k < |at| {
        assert at'[k] == at[k];
      }
    }
  }
}
