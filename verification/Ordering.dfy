/** What some frames of a sequence yield, each once and in the sequence's order. */
module Ordering {
  import opened Common

  /** `found` is what `pick` finds along `xs`, at the places `at`. */
  ghost predicate FoundAt<A(!new), B>(xs: seq<A>, pick: A -> Option<B>, found: seq<B>, at: seq<nat>) {
    && |at| == |found| && (forall j :: 0 <= j < |at| ==> at[j] < |xs| && pick(xs[at[j]]) == Some(found[j]))
    && (forall i, j :: 0 <= i < j < |at| ==> at[i] < at[j])
    && (forall i :: 0 <= i < |xs| && pick(xs[i]).Some? ==> i in at)
  }

  ghost predicate InOrder<A(!new), B>(xs: seq<A>, pick: A -> Option<B>, found: seq<B>) {
    exists at: seq<nat> :: FoundAt(xs, pick, found, at)
  }

  lemma NoneInOrder<A(!new), B>(pick: A -> Option<B>)
    ensures InOrder([], pick, [])
  {
    assert FoundAt([], pick, [], []);
  }

  lemma MoreInOrder<A(!new), B>(xs: seq<A>, x: A, pick: A -> Option<B>, found: seq<B>)
    requires InOrder(xs, pick, found)
    ensures InOrder(xs + [x], pick, if pick(x).Some? then found + [pick(x).value] else found)
  {
    var at: seq<nat> :| FoundAt(xs, pick, found, at);
    if pick(x).Some? {
      PickedJoins(xs, x, pick, found, at);
    } else {
      SkippedStays(xs, x, pick, found, at);
    }
  }

  lemma SkippedStays<A(!new), B>(xs: seq<A>, x: A, pick: A -> Option<B>, found: seq<B>, at: seq<nat>)
    requires FoundAt(xs, pick, found, at) && pick(x).None?
    ensures FoundAt(xs + [x], pick, found, at)
  {
    var longer := xs + [x];
    forall i | 0 <= i < |longer| && pick(longer[i]).Some?
      ensures i in at
    {
      assert longer[i] == xs[i];
    }
  }

  lemma PickedJoins<A(!new), B>(xs: seq<A>, x: A, pick: A -> Option<B>, found: seq<B>, at: seq<nat>)
    requires FoundAt(xs, pick, found, at) && pick(x).Some?
    ensures FoundAt(xs + [x], pick, found + [pick(x).value], at + [|xs|])
  {
    var longer, found', at' := xs + [x], found + [pick(x).value], at + [|xs|];
    forall j | 0 <= j < |at'|
      ensures at'[j] < |longer| && pick(longer[at'[j]]) == Some(found'[j])
    {
    }
    forall i, j | 0 <= i < j < |at'|
      ensures at'[i] < at'[j]
    {
    }
    forall i | 0 <= i < |longer| && pick(longer[i]).Some?
      ensures i in at'
    {
      if i < |xs| {
        assert longer[i] == xs[i];
        var j :| 0 <= j < |at| && at[j] == i;
        assert at'[j] == i;
      } else {
        assert at'[|at|] == i;
      }
    }
  }
}
