/** HybridSearch: two ranked lists fused by reciprocal ranks, over exact reals. */
module RankFusion {
  import opened Ranking
  import opened Seqs

  datatype Hit = Hit(id: string, text: string, metadata: string, distance: real)

  datatype Outcome = LengthError | Results(hits: seq<Hit>)

  const RRF_K := 60

  function CandidateLimit(limit: int): int {
    if limit * 3 > 30 then limit * 3 else 30
  }

  /** The searches are asked for three times the limit, but at least 30 hits. */
  lemma CandidateLimitIs(limit: int)
    ensures var n := CandidateLimit(limit); n >= 30 && n >= 3 * limit && (n == 30 || n == 3 * limit)
  {
  }

  function Weight(rank: nat): real {
    1.0 / ((RRF_K + rank + 1) as real)
  }

  /** The weights of every rank at which the list has this id. */
  function RankSum(list: seq<Hit>, id: string): real {
    if list == [] then 0.0
    else
      var n := |list| - 1;
      RankSum(list[..n], id) + (if list[n].id == id then Weight(n) else 0.0)
  }

  function Score(vectors: seq<Hit>, texts: seq<Hit>, id: string): real {
    RankSum(vectors, id) + RankSum(texts, id)
  }

  function Ids(list: seq<Hit>): set<string> {
    set i | 0 <= i < |list| :: list[i].id
  }

  ghost predicate IsFirst(list: seq<Hit>, id: string, hit: Hit) {
    exists i :: 0 <= i < |list| && list[i] == hit && hit.id == id && forall j :: 0 <= j < i ==> list[j].id != id
  }

  /** The hit whose text and metadata stand for an id: the vector search's, if it found it. */
  ghost predicate Represents(vectors: seq<Hit>, texts: seq<Hit>, id: string, hit: Hit) {
    if id in Ids(vectors) then IsFirst(vectors, id, hit) else IsFirst(texts, id, hit)
  }

  // ---------------------------------------------------------------------
  // The search
  // ---------------------------------------------------------------------

  lemma IdsSnoc(list: seq<Hit>, n: nat)
    requires n < |list|
    ensures Ids(list[..n + 1]) == Ids(list[..n]) + {list[n].id}
  {
    assert list[..n + 1][n] == list[n];
    forall i | 0 <= i < n ensures list[..n + 1][i] == list[..n][i] {
    }
  }

  lemma RankSumSnoc(list: seq<Hit>, n: nat, id: string)
    requires n < |list|
    ensures RankSum(list[..n + 1], id) == RankSum(list[..n], id) + (if list[n].id == id then Weight(n) else 0.0)
  {
    assert list[..n + 1][..n] == list[..n];
  }

  lemma NothingFound(list: seq<Hit>, scores: map<string, real>)
    ensures Ids(list[..0]) == {} && forall id :: RankSum(list[..0], id) == 0.0
  {
  }

  method ApplyRrf(list: seq<Hit>, scores0: map<string, real>, results0: map<string, Hit>)
    returns (scores: map<string, real>, results: map<string, Hit>)
    requires scores0.Keys == results0.Keys
    ensures scores.Keys == results.Keys == scores0.Keys + Ids(list)
    ensures forall id :: id in scores ==> scores[id] == (if id in scores0 then scores0[id] else 0.0) + RankSum(list, id)
    ensures forall id :: id in results ==>
              if id in results0 then results[id] == results0[id] else IsFirst(list, id, results[id])
  {
    hide Weight, RankSum, Ids, IsFirst;
    NothingFound(list, scores0);
    scores, results := scores0, results0;
    for rank := 0 to |list|
      invariant scores.Keys == results.Keys == scores0.Keys + Ids(list[..rank])
      invariant forall id :: id in scores ==>
                  scores[id] == (if id in scores0 then scores0[id] else 0.0) + RankSum(list[..rank], id)
      invariant forall id :: id !in scores ==> RankSum(list[..rank], id) == 0.0
      invariant forall id :: id in results ==>
                  if id in results0 then results[id] == results0[id] else IsFirst(list[..rank], id, results[id])
    {
      var item := list[rank];
      IdsSnoc(list, rank);
      forall id ensures RankSum(list[..rank + 1], id) ==
                        RankSum(list[..rank], id) + (if list[rank].id == id then Weight(rank) else 0.0) {
        RankSumSnoc(list, rank, id);
      }
      scores := scores[item.id := (if item.id in scores then scores[item.id] else 0.0) + Weight(rank)];
      if item.id !in results {
        results := results[item.id := item];
      }
      forall id | id in results && id !in results0 ensures IsFirst(list[..rank + 1], id, results[id]) {
        FirstStays(list, rank, id, results[id]);
      }
    }
    Whole(list);
  }

  lemma FirstStays(list: seq<Hit>, rank: nat, id: string, hit: Hit)
    requires rank < |list|
    requires IsFirst(list[..rank], id, hit) || (id !in Ids(list[..rank]) && list[rank] == hit && hit.id == id)
    ensures IsFirst(list[..rank + 1], id, hit)
  {
    var more := list[..rank + 1];
    if IsFirst(list[..rank], id, hit) {
      var i :| 0 <= i < rank && list[..rank][i] == hit && hit.id == id &&
        forall j :: 0 <= j < i ==> list[..rank][j].id != id;
      assert more[i] == hit;
      forall j | 0 <= j < i ensures more[j].id != id {
        assert more[j] == list[..rank][j];
      }
    } else {
      assert more[rank] == hit;
      forall j | 0 <= j < rank ensures more[j].id != id {
        assert more[j] == list[..rank][j];
      }
    }
  }

  function Found(vectors: seq<Hit>, texts: seq<Hit>): set<string> {
    Ids(vectors) + Ids(texts)
  }

  /** A returned hit is a found one, with minus its score as its distance. */
  ghost predicate IsScored(vectors: seq<Hit>, texts: seq<Hit>, hit: Hit) {
    && hit.id in Found(vectors, texts)
    && hit.distance == -Score(vectors, texts, hit.id)
    && exists original :: Represents(vectors, texts, hit.id, original) && hit == original.(distance := hit.distance)
  }

  ghost predicate BestFirst(hits: seq<Hit>) {
    forall i, j :: 0 <= i < j < |hits| ==> hits[i].id != hits[j].id && hits[i].distance <= hits[j].distance
  }

  ghost predicate NoneBetter(vectors: seq<Hit>, texts: seq<Hit>, hits: seq<Hit>) {
    forall i, id :: 0 <= i < |hits| && id in Found(vectors, texts) - Ids(hits) ==>
      Score(vectors, texts, id) <= -hits[i].distance
  }

  /** What a hybrid search returns: the `limit` best of the ids found, each once, best first. */
  ghost predicate IsFused(vectors: seq<Hit>, texts: seq<Hit>, limit: nat, hits: seq<Hit>) {
    && |hits| == (if limit < |Found(vectors, texts)| then limit else |Found(vectors, texts)|)
    && (forall i :: 0 <= i < |hits| ==> IsScored(vectors, texts, hits[i]))
    && BestFirst(hits) && NoneBetter(vectors, texts, hits)
  }

  ghost predicate Scored(vectors: seq<Hit>, texts: seq<Hit>, scores: map<string, real>, results: map<string, Hit>) {
    && scores.Keys == results.Keys == Found(vectors, texts)
    && (forall id :: id in scores ==> scores[id] == Score(vectors, texts, id))
    && (forall id :: id in results ==> Represents(vectors, texts, id, results[id]) && results[id].id == id)
  }

  method ScoreBoth(vectors: seq<Hit>, texts: seq<Hit>) returns (scores: map<string, real>, results: map<string, Hit>)
    ensures Scored(vectors, texts, scores, results)
  {
    hide RankSum, Ids, IsFirst;
    scores, results := ApplyRrf(vectors, map[], map[]);
    scores, results := ApplyRrf(texts, scores, results);
    forall id | id in results ensures Represents(vectors, texts, id, results[id]) && results[id].id == id {
      FirstHasId(vectors, id, results[id]);
      FirstHasId(texts, id, results[id]);
    }
    forall id | id in scores ensures scores[id] == Score(vectors, texts, id) {
      NotFoundScoresZero(vectors, id);
    }
  }

  lemma {:induction false} NotFoundScoresZero(list: seq<Hit>, id: string)
    ensures id !in Ids(list) ==> RankSum(list, id) == 0.0
  {
    if list != [] && id !in Ids(list) {
      var n := |list| - 1;
      assert list[n].id in Ids(list);
      forall i | 0 <= i < n ensures list[..n][i].id in Ids(list) {
        assert list[..n][i] == list[i];
      }
      NotFoundScoresZero(list[..n], id);
    }
  }

  lemma FirstHasId(list: seq<Hit>, id: string, hit: Hit)
    ensures IsFirst(list, id, hit) ==> hit.id == id
  {
  }

  method BuildHits(scores: map<string, real>, results: map<string, Hit>, ranked: seq<string>, limit: nat)
    returns (hits: seq<Hit>)
    requires scores.Keys == results.Keys && IsRanking(scores, ranked)
    ensures |hits| == if limit < |ranked| then limit else |ranked|
    ensures forall k :: 0 <= k < |hits| ==> hits[k] == results[ranked[k]].(distance := -scores[ranked[k]])
  {
    hits := [];
    var i := 0;
    while i < limit && i < |ranked|
      invariant 0 <= i == |hits| <= limit && i <= |ranked|
      invariant forall k :: 0 <= k < i ==> hits[k] == results[ranked[k]].(distance := -scores[ranked[k]])
    {
      var id := ranked[i];
      hits := hits + [results[id].(distance := -scores[id])];
      i := i + 1;
    }
  }

  /** A negative limit makes the reservation of the result list throw. */
  method HybridSearch(open: bool, vectors: seq<Hit>, texts: seq<Hit>, limit: int) returns (r: Outcome)
    requires |vectors| <= CandidateLimit(limit) && |texts| <= CandidateLimit(limit)
    ensures !open ==> r == Results([])
    ensures open ==> (r == LengthError <==> limit < 0)
    ensures open && limit >= 0 ==> IsFused(vectors, texts, limit, r.hits)
  {
    hide Found, Score, Represents, IsRanking, IsFused;
    if !open {
      return Results([]);
    }
    var scores, results := ScoreBoth(vectors, texts);
    var ranked := RankByScore(scores);
    if limit < 0 {
      return LengthError;
    }
    var hits := BuildHits(scores, results, ranked, limit);
    FusedFrom(vectors, texts, limit, scores, results, ranked, hits);
    return Results(hits);
  }

  lemma FusedFrom(vectors: seq<Hit>, texts: seq<Hit>, limit: nat, scores: map<string, real>, results: map<string, Hit>,
                  ranked: seq<string>, hits: seq<Hit>)
    requires Scored(vectors, texts, scores, results) && IsRanking(scores, ranked)
    requires |hits| == (if limit < |ranked| then limit else |ranked|)
    requires forall k :: 0 <= k < |hits| ==> hits[k] == results[ranked[k]].(distance := -scores[ranked[k]])
    ensures IsFused(vectors, texts, limit, hits)
  {
    hide Found, Score, Represents, IsScored, BestFirst, NoneBetter;
    RankingSize(scores.Keys, ranked);
    forall k | 0 <= k < |hits| ensures IsScored(vectors, texts, hits[k]) && hits[k].id == ranked[k] {
      RankedScored(vectors, texts, scores, results, ranked[k]);
    }
    RankedBestFirst(scores, ranked, hits);
    RankedNoneBetter(vectors, texts, scores, results, ranked, hits);
  }

  lemma RankedScored(vectors: seq<Hit>, texts: seq<Hit>, scores: map<string, real>, results: map<string, Hit>,
                     id: string)
    requires Scored(vectors, texts, scores, results) && id in scores
    ensures IsScored(vectors, texts, results[id].(distance := -scores[id])) && results[id].id == id
  {
    hide Found, Score, Represents;
  }

  lemma RankedBestFirst(scores: map<string, real>, ranked: seq<string>, hits: seq<Hit>)
    requires IsRanking(scores, ranked) && |hits| <= |ranked|
    requires forall k :: 0 <= k < |hits| ==> hits[k].id == ranked[k] && hits[k].distance == -scores[ranked[k]]
    ensures BestFirst(hits)
  {
    forall i, j | 0 <= i < j < |hits| ensures hits[i].id != hits[j].id && hits[i].distance <= hits[j].distance {
      assert scores[ranked[i]] >= scores[ranked[j]];
    }
  }

  lemma RankedNoneBetter(vectors: seq<Hit>, texts: seq<Hit>, scores: map<string, real>, results: map<string, Hit>,
                         ranked: seq<string>, hits: seq<Hit>)
    requires Scored(vectors, texts, scores, results) && IsRanking(scores, ranked) && |hits| <= |ranked|
    requires forall k :: 0 <= k < |hits| ==> hits[k].id == ranked[k] && hits[k].distance == -scores[ranked[k]]
    ensures NoneBetter(vectors, texts, hits)
  {
    hide Found, Score, Represents, Distinct;
    forall i, id | 0 <= i < |hits| && id in Found(vectors, texts) - Ids(hits)
      ensures Score(vectors, texts, id) <= -hits[i].distance
    {
      assert id in scores && id in ranked;
      var j :| 0 <= j < |ranked| && ranked[j] == id;
      assert forall k :: 0 <= k < |hits| ==> hits[k].id in Ids(hits);
      assert j >= |hits|;
      assert scores[ranked[i]] >= scores[ranked[j]];
    }
  }

  // ---------------------------------------------------------------------
  // What the fused order means
  // ---------------------------------------------------------------------

  /** If b is returned then a is returned before it. */
  ghost predicate Precedes(hits: seq<Hit>, a: string, b: string) {
    forall j :: 0 <= j < |hits| && hits[j].id == b ==> exists i :: 0 <= i < j && hits[i].id == a
  }

  lemma HigherScorePrecedes(vectors: seq<Hit>, texts: seq<Hit>, limit: nat, hits: seq<Hit>, a: string, b: string)
    requires IsFused(vectors, texts, limit, hits) && a in Found(vectors, texts)
    requires Score(vectors, texts, a) > Score(vectors, texts, b)
    ensures Precedes(hits, a, b)
  {
    hide Score, Found, Represents;
    forall j | 0 <= j < |hits| && hits[j].id == b ensures exists i :: 0 <= i < j && hits[i].id == a {
      assert IsScored(vectors, texts, hits[j]);
      assert a in Ids(hits);
      var i :| 0 <= i < |hits| && hits[i].id == a;
      assert IsScored(vectors, texts, hits[i]);
      assert hits[i].distance < hits[j].distance;
    }
  }

  ghost predicate DistinctIds(list: seq<Hit>) {
    forall i, j :: 0 <= i < j < |list| ==> list[i].id != list[j].id
  }

  lemma WeightDecreases(i: nat, j: nat)
    requires i < j
    ensures Weight(i) > Weight(j) > 0.0
  {
    InverseDecreases((RRF_K + i + 1) as real, (RRF_K + j + 1) as real);
  }

  lemma InverseDecreases(x: real, y: real)
    requires 0.0 < x < y
    ensures 1.0 / x > 1.0 / y > 0.0
  {
    var a, b := 1.0 / x, 1.0 / y;
    assert a * x == 1.0 && b * y == 1.0;
    assert a == (a * b) * y && b == (a * b) * x;
    assert (a * b) * (y - x) > 0.0;
  }

  lemma {:induction false} SumAt(list: seq<Hit>, i: nat)
    requires DistinctIds(list) && i < |list|
    ensures RankSum(list, list[i].id) == Weight(i)
  {
    hide Weight;
    var n := |list| - 1;
    var id := list[i].id;
    if i == n {
      forall k | 0 <= k < n ensures list[..n][k].id != id {
      }
      NotFoundScoresZero(list[..n], id);
    } else {
      SumAt(list[..n], i);
    }
  }

  /** In this list a stands before b wherever b is listed. */
  ghost predicate RanksAbove(list: seq<Hit>, a: string, b: string) {
    forall j :: 0 <= j < |list| && list[j].id == b ==> exists i :: 0 <= i < j && list[i].id == a
  }

  lemma RanksAboveScores(list: seq<Hit>, a: string, b: string)
    requires DistinctIds(list) && RanksAbove(list, a, b)
    ensures RankSum(list, a) >= RankSum(list, b)
    ensures a in Ids(list) ==> RankSum(list, a) > RankSum(list, b)
  {
    hide Weight, RankSum, DistinctIds;
    NotFoundScoresZero(list, a);
    NotFoundScoresZero(list, b);
    if b in Ids(list) {
      var j :| 0 <= j < |list| && list[j].id == b;
      var i :| 0 <= i < j && list[i].id == a;
      SumAt(list, j);
      SumAt(list, i);
      WeightDecreases(i, j);
    } else if a in Ids(list) {
      var i :| 0 <= i < |list| && list[i].id == a;
      SumAt(list, i);
      WeightDecreases(i, i + 1);
    }
  }

  /** An id that ranks above another in both lists, and is in one of them, precedes it. */
  lemma Dominance(vectors: seq<Hit>, texts: seq<Hit>, limit: nat, hits: seq<Hit>, a: string, b: string)
    requires IsFused(vectors, texts, limit, hits) && DistinctIds(vectors) && DistinctIds(texts)
    requires a in Found(vectors, texts) && RanksAbove(vectors, a, b) && RanksAbove(texts, a, b)
    ensures Precedes(hits, a, b)
  {
    hide RankSum, Represents, DistinctIds, IsFused, Precedes;
    RanksAboveScores(vectors, a, b);
    RanksAboveScores(texts, a, b);
    HigherScorePrecedes(vectors, texts, limit, hits, a, b);
  }

  // ---------------------------------------------------------------------
  // Found by both searches, found by one
  // ---------------------------------------------------------------------

  ghost predicate Candidates(limit: int, list: seq<Hit>) {
    DistinctIds(list) && |list| <= CandidateLimit(limit)
  }

  /** a is found by both searches and b by exactly one. */
  predicate BothAndOne(vectors: seq<Hit>, texts: seq<Hit>, a: string, b: string) {
    && a in Ids(vectors) && a in Ids(texts)
    && (b in Ids(vectors) <==> b !in Ids(texts))
  }

  lemma WeightBounds(list: seq<Hit>, id: string)
    requires DistinctIds(list) && |list| <= 60
    ensures RankSum(list, id) <= 1.0 / 61.0
    ensures id in Ids(list) ==> RankSum(list, id) >= 1.0 / 120.0
  {
    NotFoundScoresZero(list, id);
    if id in Ids(list) {
      var i :| 0 <= i < |list| && list[i].id == id;
      SumAt(list, i);
      if i > 0 {
        WeightDecreases(0, i);
      }
      if i < 59 {
        WeightDecreases(i, 59);
      }
    }
  }

  lemma BothOutscoreOne(limit: int, vectors: seq<Hit>, texts: seq<Hit>, a: string, b: string)
    requires limit <= 20 && Candidates(limit, vectors) && Candidates(limit, texts) && BothAndOne(vectors, texts, a, b)
    ensures Score(vectors, texts, a) > Score(vectors, texts, b)
  {
    hide RankSum, DistinctIds;
    WeightBounds(vectors, a);
    WeightBounds(texts, a);
    WeightBounds(vectors, b);
    WeightBounds(texts, b);
    NotFoundScoresZero(vectors, b);
    NotFoundScoresZero(texts, b);
  }

  /** Up to limit 20, every id found by both searches precedes every id found by only one. */
  lemma BothPrecedeOne(limit: nat, vectors: seq<Hit>, texts: seq<Hit>, hits: seq<Hit>, a: string, b: string)
    requires limit <= 20 && Candidates(limit, vectors) && Candidates(limit, texts) && BothAndOne(vectors, texts, a, b)
    requires IsFused(vectors, texts, limit, hits)
    ensures Precedes(hits, a, b)
  {
    hide Score, Ids, IsFused, Precedes;
    BothOutscoreOne(limit, vectors, texts, a, b);
    HigherScorePrecedes(vectors, texts, limit, hits, a, b);
  }

  /** The n-th of a row of distinct ids. */
  function NthHit(n: nat): Hit {
    Hit(seq(n, _ => 'a'), "", "", 0.0)
  }

  function Row(from: nat, size: nat): (r: seq<Hit>)
    ensures |r| == size
  {
    seq(size, i requires 0 <= i < size => NthHit(from + i))
  }

  lemma RowDistinct(from: nat, size: nat, last: nat)
    requires from + size <= last || last < from
    ensures DistinctIds(Row(from, size) + [NthHit(last)])
  {
    var list := Row(from, size) + [NthHit(last)];
    forall i | 0 <= i < size ensures |list[i].id| == from + i {
      assert list[i] == Row(from, size)[i] == NthHit(from + i);
    }
    assert |list[size].id| == last;
    forall i, j | 0 <= i < j < |list| ensures list[i].id != list[j].id {
      assert |list[i].id| != |list[j].id|;
    }
  }

  /** From limit 21 on it can fail: found by both at rank 63, and by one at rank 1. */
  lemma OneCanOutscoreBoth(limit: int)
    requires limit >= 21
    ensures exists vectors, texts, a, b :: Candidates(limit, vectors) && Candidates(limit, texts) &&
              BothAndOne(vectors, texts, a, b) && Score(vectors, texts, a) < Score(vectors, texts, b)
  {
    hide RankSum, DistinctIds, IsFirst;
    var vectors, texts := Row(0, 62) + [NthHit(62)], Row(100, 62) + [NthHit(62)];
    RowDistinct(0, 62, 62);
    RowDistinct(100, 62, 62);
    var a, b := NthHit(62).id, NthHit(0).id;
    assert vectors[62].id == a && texts[62].id == a && vectors[0].id == b;
    SumAt(vectors, 62);
    SumAt(texts, 62);
    SumAt(vectors, 0);
    forall i | 0 <= i < |texts| ensures |texts[i].id| != 0 {
    }
    NotFoundScoresZero(texts, b);
    assert BothAndOne(vectors, texts, a, b);
  }

  /** So the guarantee holds exactly for the limits up to 20. */
  lemma BothFirstIff(limit: int)
    ensures limit <= 20 <==>
            (forall vectors, texts, a, b ::
               (Candidates(limit, vectors) && Candidates(limit, texts) && BothAndOne(vectors, texts, a, b)) ==>
                 Score(vectors, texts, a) > Score(vectors, texts, b))
  {
    hide Candidates, BothAndOne, Score;
    if limit <= 20 {
      forall vectors, texts, a, b |
        Candidates(limit, vectors) && Candidates(limit, texts) && BothAndOne(vectors, texts, a, b)
        ensures Score(vectors, texts, a) > Score(vectors, texts, b)
      {
        BothOutscoreOne(limit, vectors, texts, a, b);
      }
    } else {
      OneCanOutscoreBoth(limit);
    }
  }

  // ---------------------------------------------------------------------
  // One hit
  // ---------------------------------------------------------------------

  /** What a list without repetitions gives an id: one over 61 plus its place, or nothing. */
  ghost predicate IsShare(list: seq<Hit>, id: string, share: real) {
    || (exists i :: 0 <= i < |list| && list[i].id == id && share == 1.0 / (61 + i) as real)
    || ((forall i :: 0 <= i < |list| ==> list[i].id != id) && share == 0.0)
  }

  lemma ShareIs(list: seq<Hit>, id: string)
    requires DistinctIds(list)
    ensures IsShare(list, id, RankSum(list, id))
  {
    hide RankSum;
    if i :| 0 <= i < |list| && list[i].id == id {
      SumAt(list, i);
    } else {
      NotFoundScoresZero(list, id);
    }
  }

  /** The first hit of a list with this id. */
  ghost predicate IsFirstOf(list: seq<Hit>, id: string, hit: Hit) {
    exists i :: 0 <= i < |list| && list[i].id == id && hit == list[i] && forall j :: 0 <= j < i ==> list[j].id != id
  }

  /** A returned hit has the text and metadata of the first vector hit with its id, or, if there is
      none, of the first text hit, and as its distance minus the sum of what both lists give it. */
  lemma FusedHitIs(vectors: seq<Hit>, texts: seq<Hit>, limit: nat, hits: seq<Hit>, k: nat)
    requires IsFused(vectors, texts, limit, hits) && k < |hits| && DistinctIds(vectors) && DistinctIds(texts)
    ensures exists original: Hit :: hits[k] == original.(distance := hits[k].distance) &&
              if exists i :: 0 <= i < |vectors| && vectors[i].id == hits[k].id
              then IsFirstOf(vectors, hits[k].id, original) else IsFirstOf(texts, hits[k].id, original)
    ensures exists a, b ::
              IsShare(vectors, hits[k].id, a) && IsShare(texts, hits[k].id, b) && hits[k].distance == -(a + b)
  {
    hide RankSum, BestFirst, NoneBetter, IsShare;
    var id := hits[k].id;
    assert IsScored(vectors, texts, hits[k]);
    ShareIs(vectors, id);
    ShareIs(texts, id);
    var original :| Represents(vectors, texts, id, original) && hits[k] == original.(distance := hits[k].distance);
    assert id in Ids(vectors) <==> exists i :: 0 <= i < |vectors| && vectors[i].id == id;
  }
}
