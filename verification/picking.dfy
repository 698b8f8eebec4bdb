/** Filtering a list in order, said by the positions that are kept. */
module Picking {
  /** `at` lists, in order, the positions of exactly those items that are kept. */
  ghost predicate Picks<A(!new)>(items: seq<A>, keep: A -> bool, at: seq<nat>) {
    && (forall k :: 0 <= k < |at| ==> at[k] < |items| && keep(items[at[k]]))
    && (forall j, k :: 0 <= j < k < |at| ==> at[j] < at[k])
    && (forall i: nat :: i < |items| && keep(items[i]) ==> i in at)
  }

  lemma SkipNext<A(!new)>(items: seq<A>, keep: A -> bool, at: seq<nat>, item: A)
    requires Picks(items, keep, at) && !keep(item)
    ensures Picks(items + [item], keep, at)
  {
    var all := items + [item];
    assert all[|items|] == item;
  }

  lemma KeepNext<A(!new)>(items: seq<A>, keep: A -> bool, at: seq<nat>, item: A)
    requires Picks(items, keep, at) && keep(item)
    ensures Picks(items + [item], keep, at + [|items|])
  {
    var all, more := items + [item], at + [|items|];
    forall k | 0 <= k < |more|
      ensures more[k] < |all| && keep(all[more[k]]) && (k < |at| ==> more[k] == at[k])
    {
      assert k < |at| ==> all[at[k]] == items[at[k]];
    }
    forall i: nat | i < |all| && keep(all[i])
      ensures i in more
    {
      if i < |items| {
        assert all[i] == items[i] && i in at;
      } else {
        assert more[|at|] == i;
      }
    }
  }

  lemma PickNext<A(!new)>(items: seq<A>, keep: A -> bool, at: seq<nat>, item: A) returns (more: seq<nat>)
    requires Picks(items, keep, at)
    ensures more == if keep(item) then at + [|items|] else at
    ensures Picks(items + [item], keep, more)
  {
    if keep(item) {
      KeepNext(items, keep, at, item);
      more := at + [|items|];
    } else {
      SkipNext(items, keep, at, item);
      more := at;
    }
  }
}
