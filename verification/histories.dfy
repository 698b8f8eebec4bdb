/** Reading a run as a history: what has happened in it so far. */
module Histories {
  ghost predicate Happened<A(!new)>(acts: seq<A>, what: A -> bool) { exists k :: 0 <= k < |acts| && what(acts[k]) }

  lemma OneMore<A(!new)>(acts: seq<A>, a: A, what: A -> bool)
    ensures Happened(acts + [a], what) <==> Happened(acts, what) || what(a)
    ensures !Happened([], what)
  {
    var more := acts + [a];
    assert more[|acts|] == a;
    if Happened(acts, what) {
      var k :| 0 <= k < |acts| && what(acts[k]);
      assert more[k] == acts[k];
    }
  }
}
