/**
 * The advancements of the host and a player's progress on them: each
 * advancement has an ordered list of criteria, and a player has been awarded
 * some of them. `getRemainingCriteria()` is the criteria not yet awarded, in
 * the advancement's order.
 */
module Advancements {

  datatype Advancement = Advancement(id: string, criteria: seq<string>)

  /** No criterion is listed twice (criteria are named entries of an advancement). */
  predicate Distinct(s: seq<string>)
  {
    forall i, j | 0 <= i < j < |s| :: s[i] != s[j]
  }

  /** The criteria of `criteria` that are not in `done`, in order. */
  function Remaining(criteria: seq<string>, done: set<string>): (r: seq<string>)
    ensures forall c :: c in r <==> c in criteria && c !in done
    ensures |r| <= |criteria|
  {
    if criteria == [] then []
    else if criteria[0] in done then Remaining(criteria[1..], done)
    else [criteria[0]] + Remaining(criteria[1..], done)
  }

  /** Awarding every remaining criterion leaves none remaining. */
  lemma AwardingRemainingLeavesNone(criteria: seq<string>, done: set<string>)
    ensures Remaining(criteria, done + set c | c in Remaining(criteria, done)) == []
  {
    NoneRemainWhenAllDone(criteria, done + set c | c in Remaining(criteria, done));
  }

  /** Nothing remains once every criterion is done. */
  lemma {:induction false} NoneRemainWhenAllDone(criteria: seq<string>, done: set<string>)
    requires forall c :: c in criteria ==> c in done
    ensures Remaining(criteria, done) == []
  {
    if criteria != [] {
      assert criteria[0] in done;
      assert forall c :: c in criteria[1..] ==> c in criteria;
      NoneRemainWhenAllDone(criteria[1..], done);
    }
  }

  /**
   * Awarding the first remaining criterion removes exactly that one: the
   * remaining criteria afterwards are the rest of the list, in order.
   */
  lemma {:induction false} AwardingFirstRemovesFirst(criteria: seq<string>, done: set<string>)
    requires Distinct(criteria)
    requires Remaining(criteria, done) != []
    ensures Remaining(criteria, done + {Remaining(criteria, done)[0]}) == Remaining(criteria, done)[1..]
  {
    var tail := criteria[1..];
    var first := Remaining(criteria, done)[0];
    assert Distinct(tail) by {
      forall i, j | 0 <= i < j < |tail| ensures tail[i] != tail[j] {
        assert tail[i] == criteria[i + 1] && tail[j] == criteria[j + 1];
      }
    }
    if criteria[0] in done {
      AwardingFirstRemovesFirst(tail, done);
      assert Remaining(criteria, done + {first}) == Remaining(tail, done + {first});
    } else {
      assert first == criteria[0];
      assert criteria[0] !in tail by {
        forall k | 0 <= k < |tail| ensures tail[k] != criteria[0] {
          assert tail[k] == criteria[k + 1];
        }
      }
      SameRemainingWithoutAbsent(tail, done, first);
    }
  }

  /** Adding a criterion that is not in the list does not change what remains. */
  lemma {:induction false} SameRemainingWithoutAbsent(criteria: seq<string>, done: set<string>, c: string)
    requires c !in criteria
    ensures Remaining(criteria, done + {c}) == Remaining(criteria, done)
  {
    if criteria != [] {
      assert c != criteria[0];
      assert c !in criteria[1..] by {
        assert forall x :: x in criteria[1..] ==> x in criteria;
      }
      SameRemainingWithoutAbsent(criteria[1..], done, c);
    }
  }
}
