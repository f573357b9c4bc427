/** Ordering the keys of a score map by an unstable sort, best score first. The sort of the standard
    library may leave equal scores in any order, and the hash map it starts from is walked in any
    order, so the result is only known to have every key once and to be non-increasing; that is all
    its users may rely on. */
module Ranking {
  import opened Seqs

  ghost predicate NonIncreasing(scores: map<string, real>, ranked: seq<string>)
    requires forall id :: id in ranked ==> id in scores
  {
    forall i, j :: 0 <= i < j < |ranked| ==> scores[ranked[i]] >= scores[ranked[j]]
  }

  /** Any order that the unstable sort may leave: all ids, best score first. */
  ghost predicate IsRanking(scores: map<string, real>, ranked: seq<string>) {
    && Distinct(ranked)
    && (forall id :: id in ranked <==> id in scores)
    && NonIncreasing(scores, ranked)
  }

  lemma {:induction false} BestExists(scores: map<string, real>, left: set<string>, id: string)
    requires left <= scores.Keys && id in left
    ensures exists best :: best in left && forall other :: other in left ==> scores[best] >= scores[other]
    decreases |left|
  {
    var rest := left - {id};
    if forall other :: other !in rest {
      forall other | other in left ensures scores[id] >= scores[other] {
        assert other == id || other in rest;
      }
    } else {
      var other :| other in rest;
      BestExists(scores, rest, other);
      var best :| best in rest && forall other :: other in rest ==> scores[best] >= scores[other];
      if scores[id] > scores[best] {
        assert forall other :: other in left ==> other == id || other in rest;
      }
    }
  }

  method RankByScore(scores: map<string, real>) returns (ranked: seq<string>)
    ensures IsRanking(scores, ranked)
  {
    ranked := [];
    var left := scores.Keys;
    while left != {}
      invariant left <= scores.Keys
      invariant forall id :: id in ranked <==> id in scores && id !in left
      invariant Distinct(ranked) && NonIncreasing(scores, ranked)
      invariant forall i, id :: 0 <= i < |ranked| && id in left ==> scores[ranked[i]] >= scores[id]
      decreases |left|
    {
      if forall id :: id !in left {
        NoMembers(left);
      }
      var any :| any in left;
      BestExists(scores, left, any);
      var best :| best in left && forall other :: other in left ==> scores[best] >= scores[other];
      ranked, left := ranked + [best], left - {best};
    }
  }

  lemma RankingSize(found: set<string>, ranked: seq<string>)
    requires Distinct(ranked) && forall id :: id in ranked <==> id in found
    ensures |ranked| == |found|
    decreases ranked
  {
    if ranked == [] {
      NoMembers(found);
    } else {
      var n := |ranked| - 1;
      forall id ensures id in ranked[..n] <==> id in found - {ranked[n]} {
        assert id in ranked <==> id in ranked[..n] || id == ranked[n];
      }
      RankingSize(found - {ranked[n]}, ranked[..n]);
    }
  }
}
