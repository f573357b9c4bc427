/** The structured memory: entries, and the dimension and tag indexes over them. */
module StructuredMemories {
  import opened QueueText
  import opened Seqs
  import opened PostingLists
  import opened Ranking

  datatype Dimension = Topic | Knowledge | Layer | General

  function DimensionToString(d: Dimension): string {
    match d
    case Topic => "topic"
    case Knowledge => "knowledge"
    case Layer => "layer"
    case General => "general"
  }

  function StringToDimension(s: string): Dimension {
    if s == "topic" then Topic
    else if s == "knowledge" then Knowledge
    else if s == "layer" then Layer
    else General
  }

  datatype Metadata = Metadata(id: string, title: string, tags: seq<string>, dimensions: map<Dimension, string>,
                               timestamp: string, importance: int, relatedIds: seq<string>)

  datatype Entry = Entry(metadata: Metadata, content: string, tokens: seq<string>)

  type Place = (Dimension, string)

  /** The state of the memory; `tokenize` is the word splitter. */
  datatype Memory = Memory(entries: map<string, Entry>, places: Index<Place>, tags: Index<string>)

  function TokensOf(tokenize: string -> seq<string>, content: string, title: string): seq<string> {
    tokenize(content + " " + title)
  }

  predicate HasPlace(e: Entry, p: Place) {
    p.0 in e.metadata.dimensions && e.metadata.dimensions[p.0] == p.1
  }

  /** The dimensions of an entry, in the arbitrary order its hash map is walked. */
  ghost predicate IsWalk(places: seq<Place>, dimensions: map<Dimension, string>) {
    Distinct(places) && forall p: Place :: p in places <==> p.0 in dimensions && dimensions[p.0] == p.1
  }

  // ---------------------------------------------------------------------
  // What keeps the indexes in step
  // ---------------------------------------------------------------------

  ghost predicate PlacesAgree(m: Memory) {
    forall p: Place, id :: Count(m.places, p, id) == if id in m.entries && HasPlace(m.entries[id], p) then 1 else 0
  }

  ghost predicate TagsAgree(m: Memory) {
    forall tag, id ::
      Count(m.tags, tag, id) == if id in m.entries then multiset(m.entries[id].metadata.tags)[tag] else 0
  }

  /** An id stands once under each of its dimension values and under each tag as often as its entry
      has the tag, and nowhere else. */
  ghost predicate Valid(m: Memory) {
    PlacesAgree(m) && TagsAgree(m)
  }

  // ---------------------------------------------------------------------
  // The operations
  // ---------------------------------------------------------------------

  /** An entry stored and posted under its dimensions and tags. */
  ghost predicate IsStored(before: Memory, id: string, e: Entry, after: Memory) {
    && after.entries == before.entries[id := e]
    && after.tags == PostAll(before.tags, e.metadata.tags, id)
    && exists places :: IsWalk(places, e.metadata.dimensions) && after.places == PostAll(before.places, places, id)
  }

  /** The postings of an entry taken back; the entry itself is still there. */
  ghost predicate IsUnposted(before: Memory, id: string, after: Memory)
    requires id in before.entries
  {
    var was := before.entries[id].metadata;
    && after.entries == before.entries
    && after.tags == UnpostAll(before.tags, was.tags, id)
    && exists places :: IsWalk(places, was.dimensions) && after.places == UnpostAll(before.places, places, id)
  }

  ghost predicate IsUpdated(tokenize: string -> seq<string>, before: Memory, id: string, content: string,
                            metadata: Maybe<Metadata>, after: Memory)
    requires id in before.entries
  {
    var was := before.entries[id];
    var meta := if metadata.Just? then metadata.value else was.metadata;
    exists between :: IsUnposted(before, id, between) &&
      IsStored(between, id, Entry(meta, content, TokensOf(tokenize, content, was.metadata.title)), after)
  }

  ghost predicate IsDeleted(before: Memory, id: string, after: Memory)
    requires id in before.entries
  {
    exists between :: IsUnposted(before, id, between) && after == between.(entries := between.entries - {id})
  }

  datatype Result = Result(id: string, title: string, content: string, score: real, metadata: Metadata)

  function ResultOf(m: Memory, id: string, score: real): Result
    requires id in m.entries
  {
    var e := m.entries[id];
    Result(id, e.metadata.title, e.content, score, e.metadata)
  }

  /** The ids that have an entry. */
  function Present(m: Memory, ids: seq<string>): (r: seq<string>)
    ensures |r| <= |ids| && forall i :: 0 <= i < |r| ==> r[i] in m.entries
  {
    if ids == [] then []
    else
      var n := |ids| - 1;
      Present(m, ids[..n]) + (if ids[n] in m.entries then [ids[n]] else [])
  }

  function Limited(ids: seq<string>, max: int): (r: seq<string>)
    ensures r <= ids
  {
    if max > 0 && |ids| > max then ids[..max] else ids
  }

  function ResultsOf(m: Memory, ids: seq<string>, score: real): (r: seq<Result>)
    requires forall i :: 0 <= i < |ids| ==> ids[i] in m.entries
    ensures |r| == |ids|
  {
    seq(|ids|, i requires 0 <= i < |ids| => ResultOf(m, ids[i], score))
  }

  /** How many postings of the query's tags an id has. */
  function TagHits(index: Index<string>, query: seq<string>, id: string): nat {
    if query == [] then 0
    else
      var n := |query| - 1;
      TagHits(index, query[..n], id) + Count(index, query[n], id)
  }

  ghost predicate IsHitCount(index: Index<string>, query: seq<string>, scores: map<string, real>) {
    && (forall id :: id in scores <==> TagHits(index, query, id) > 0)
    && (forall id :: id in scores ==> scores[id] == TagHits(index, query, id) as real)
  }

  /** The count in the middle of a tag: its postings up to here are counted too. */
  ghost predicate HitsSoFar(index: Index<string>, query: seq<string>, ids: seq<string>, scores: map<string, real>) {
    && (forall id :: id in scores <==> TagHits(index, query, id) + multiset(ids)[id] > 0)
    && (forall id :: id in scores ==> scores[id] == (TagHits(index, query, id) + multiset(ids)[id]) as real)
  }

  lemma NoHits(index: Index<string>)
    ensures IsHitCount(index, [], map[])
  {
  }

  lemma HitsStart(index: Index<string>, query: seq<string>, scores: map<string, real>)
    requires IsHitCount(index, query, scores)
    ensures HitsSoFar(index, query, [], scores)
  {
  }

  lemma HitsStep(index: Index<string>, query: seq<string>, ids: seq<string>, id: string, scores: map<string, real>)
    requires HitsSoFar(index, query, ids, scores)
    ensures HitsSoFar(index, query, ids + [id], scores[id := (if id in scores then scores[id] else 0.0) + 1.0])
  {
    hide TagHits;
  }

  lemma HitsDone(index: Index<string>, query: seq<string>, tag: string, scores: map<string, real>)
    requires HitsSoFar(index, query, Posted(index, tag), scores)
    ensures IsHitCount(index, query + [tag], scores)
  {
    assert (query + [tag])[..|query|] == query;
    assert forall id :: TagHits(index, query + [tag], id) == TagHits(index, query, id) + Count(index, tag, id);
  }

  /** What a search by tags returns: the ids with hits, most hits first, cut to `max`. */
  ghost predicate IsTagSearch(m: Memory, query: seq<string>, max: int, results: seq<Result>) {
    exists scores, ranked :: IsHitCount(m.tags, query, scores) && IsRanking(scores, ranked) &&
      AreShares(m, query, scores, Limited(Present(m, ranked), max), results)
  }

  ghost predicate AreShares(m: Memory, query: seq<string>, scores: map<string, real>, ids: seq<string>,
                            results: seq<Result>)
    requires forall i :: 0 <= i < |ids| ==> ids[i] in m.entries
  {
    && |results| == |ids|
    && forall i :: 0 <= i < |ids| ==>
         ids[i] in scores && |query| > 0 && results[i] == ResultOf(m, ids[i], scores[ids[i]] / |query| as real)
  }

  predicate MatchesPlaces(m: Memory, filters: map<Dimension, string>, id: string) {
    if filters == map[] then id in m.entries
    else exists d :: d in filters && id in Posted(m.places, (d, filters[d]))
  }

  predicate MatchesTags(m: Memory, filters: seq<string>, id: string) {
    filters == [] || exists t :: t in filters && id in Posted(m.tags, t)
  }

  lemma PresentSnoc(m: Memory, ids: seq<string>, i: nat)
    requires i < |ids|
    ensures Present(m, ids[..i + 1]) == Present(m, ids[..i]) + (if ids[i] in m.entries then [ids[i]] else [])
  {
    assert ids[..i + 1][..i] == ids[..i];
  }

  lemma {:induction false} PresentPrefix(m: Memory, ids: seq<string>, i: nat)
    requires i <= |ids|
    ensures Present(m, ids[..i]) <= Present(m, ids)
  {
    if i < |ids| {
      var n := |ids| - 1;
      PresentPrefix(m, ids[..n], i);
      assert ids[..n][..i] == ids[..i];
    } else {
      Whole(ids);
    }
  }

  lemma StopEarly(m: Memory, ids: seq<string>, i: nat, max: int)
    requires i <= |ids| && max > 0 && |Present(m, ids[..i])| == max
    ensures Limited(Present(m, ids), max) == Present(m, ids[..i])
  {
    PresentPrefix(m, ids, i);
  }

  // ---------------------------------------------------------------------
  // Export and import
  // ---------------------------------------------------------------------

  /** One element of the exported "entries"; the dimensions are the items of a JSON object in order. */
  datatype Exported = Exported(id: string, title: string, content: string, tags: seq<string>, timestamp: string,
                               importance: int, relatedIds: seq<string>, dimensions: seq<(string, string)>)

  ghost predicate IsExportOf(e: Entry, x: Exported) {
    && x.id == e.metadata.id && x.title == e.metadata.title && x.content == e.content && x.tags == e.metadata.tags
    && x.timestamp == e.metadata.timestamp && x.importance == e.metadata.importance
    && x.relatedIds == e.metadata.relatedIds
    && exists walk :: IsWalk(walk, e.metadata.dimensions) && x.dimensions == Named(walk)
  }

  function Named(walk: seq<Place>): (r: seq<(string, string)>)
    ensures |r| == |walk|
  {
    seq(|walk|, i requires 0 <= i < |walk| => (DimensionToString(walk[i].0), walk[i].1))
  }

  /** The entries exported, in the order the hash map is walked. */
  ghost predicate IsExport(m: Memory, keys: seq<string>, out: seq<Exported>) {
    && Distinct(keys) && (forall id :: id in keys <==> id in m.entries) && |out| == |keys|
    && forall i :: 0 <= i < |keys| ==> keys[i] in m.entries && IsExportOf(m.entries[keys[i]], out[i])
  }

  function DimensionsFrom(items: seq<(string, string)>): map<Dimension, string> {
    if items == [] then map[]
    else
      var n := |items| - 1;
      DimensionsFrom(items[..n])[StringToDimension(items[n].0) := items[n].1]
  }

  function ImportedEntry(tokenize: string -> seq<string>, x: Exported): Entry {
    Entry(Metadata(x.id, x.title, x.tags, DimensionsFrom(x.dimensions), x.timestamp, x.importance, x.relatedIds),
          x.content, TokensOf(tokenize, x.content, x.title))
  }

  /** m is what importing these elements, one after the other, into an empty memory gives. */
  ghost predicate IsImport(tokenize: string -> seq<string>, xs: seq<Exported>, m: Memory) {
    if xs == [] then m == Memory(map[], map[], map[])
    else
      var n := |xs| - 1;
      exists before :: IsImport(tokenize, xs[..n], before) &&
        IsStored(before, xs[n].id, ImportedEntry(tokenize, xs[n]), m)
  }

  class StructuredMemory {
    const tokenize: string -> seq<string>
    var entries: map<string, Entry>
    var places: Index<Place>
    var tags: Index<string>

    function View(): Memory
      reads this
    {
      Memory(entries, places, tags)
    }

    constructor (tokenize: string -> seq<string>)
      ensures View() == Memory(map[], map[], map[]) && this.tokenize == tokenize
    {
      this.tokenize := tokenize;
      entries, places, tags := map[], map[], map[];
    }

    method Store(id: string, e: Entry)
      modifies this`entries, this`places, this`tags
      ensures IsStored(old(View()), id, e, View())
    {
      entries := entries[id := e];
      var walk := WalkDimensions(e.metadata.dimensions);
      places := Post(places, walk, id);
      tags := Post(tags, e.metadata.tags, id);
    }

    method TakeBack(id: string)
      requires id in entries
      modifies this`places, this`tags
      ensures IsUnposted(old(View()), id, View())
    {
      var walk := WalkDimensions(entries[id].metadata.dimensions);
      places := Unpost(places, walk, id);
      tags := Unpost(tags, entries[id].metadata.tags, id);
    }

    method AddMemory(id: string, title: string, content: string, tagList: seq<string>,
                     dimensions: map<Dimension, string>, timestamp: string, importance: int)
      modifies this`entries, this`places, this`tags
      ensures IsStored(old(View()), id,
                       Entry(Metadata(id, title, tagList, dimensions, timestamp, importance, []), content,
                             TokensOf(tokenize, content, title)), View())
    {
      Store(id, Entry(Metadata(id, title, tagList, dimensions, timestamp, importance, []), content,
                      TokensOf(tokenize, content, title)));
    }

    method UpdateMemory(id: string, content: string, metadata: Maybe<Metadata>) returns (found: bool)
      modifies this`entries, this`places, this`tags
      ensures found <==> id in old(entries)
      ensures found ==> IsUpdated(tokenize, old(View()), id, content, metadata, View())
      ensures !found ==> View() == old(View())
    {
      if id !in entries {
        return false;
      }
      TakeBack(id);
      ghost var between := View();
      var e := entries[id];
      e := e.(content := content, tokens := TokensOf(tokenize, content, e.metadata.title));
      if metadata.Just? {
        e := e.(metadata := metadata.value);
      }
      Store(id, e);
      assert IsUnposted(old(View()), id, between);
      return true;
    }

    method DeleteMemory(id: string) returns (found: bool)
      modifies this`entries, this`places, this`tags
      ensures found <==> id in old(entries)
      ensures found ==> IsDeleted(old(View()), id, View())
      ensures !found ==> View() == old(View())
    {
      if id !in entries {
        return false;
      }
      TakeBack(id);
      ghost var between := View();
      entries := entries - {id};
      assert IsUnposted(old(View()), id, between);
      return true;
    }

    /** The loop all searches end with: the ids that have an entry, at most `max` if positive. */
    method TakePresent(ids: seq<string>, max: int) returns (taken: seq<string>)
      ensures taken == Limited(Present(View(), ids), max)
    {
      taken := [];
      ghost var m := View();
      for i := 0 to |ids|
        invariant max > 0 ==> |taken| <= max
        invariant taken == Present(m, ids[..i])
      {
        if max > 0 && |taken| >= max {
          StopEarly(m, ids, i, max);
          return;
        }
        PresentSnoc(m, ids, i);
        if ids[i] in entries {
          taken := taken + [ids[i]];
        }
      }
      Whole(ids);
    }

    method SearchByDimension(d: Dimension, value: string, max: int) returns (results: seq<Result>)
      ensures results == ResultsOf(View(), Limited(Present(View(), Posted(places, (d, value))), max), 1.0)
    {
      if (d, value) !in places {
        return [];
      }
      var ids := TakePresent(places[(d, value)], max);
      return ResultsOf(View(), ids, 1.0);
    }

    method CountHits(query: seq<string>) returns (scores: map<string, real>)
      ensures IsHitCount(tags, query, scores)
    {
      hide HitsSoFar, IsHitCount, Posted;
      scores := map[];
      NoHits(tags);
      assert query[..0] == [];
      for i := 0 to |query|
        invariant IsHitCount(tags, query[..i], scores)
      {
        var ids := Posted(tags, query[i]);
        HitsStart(tags, query[..i], scores);
        assert ids[..0] == [];
        for j := 0 to |ids|
          invariant HitsSoFar(tags, query[..i], ids[..j], scores)
        {
          HitsStep(tags, query[..i], ids[..j], ids[j], scores);
          SplitAt(ids, j);
          scores := scores[ids[j] := (if ids[j] in scores then scores[ids[j]] else 0.0) + 1.0];
        }
        Whole(ids);
        HitsDone(tags, query[..i], query[i], scores);
        SplitAt(query, i);
      }
      Whole(query);
    }

    method SearchByTags(query: seq<string>, max: int) returns (results: seq<Result>)
      ensures IsTagSearch(View(), query, max, results)
    {
      var scores := CountHits(query);
      var ranked := RankByScore(scores);
      var ids := TakePresent(ranked, max);
      results := [];
      ghost var m := View();
      forall i | 0 <= i < |ids| ensures ids[i] in scores && |query| > 0 {
        PresentAreThese(m, ranked, ids[i]);
      }
      for i := 0 to |ids|
        invariant |results| == i
        invariant forall k :: 0 <= k < i ==>
                    ids[k] in scores && |query| > 0 &&
                    results[k] == ResultOf(m, ids[k], scores[ids[k]] / |query| as real)
      {
        results := results + [ResultOf(View(), ids[i], scores[ids[i]] / |query| as real)];
      }
    }

    /** The first half of the hybrid search: the ids whose entries are then scored. */
    method SelectCandidates(filters: map<Dimension, string>, tagFilters: seq<string>) returns (ids: set<string>)
      ensures forall id :: id in ids <==> MatchesPlaces(View(), filters, id) && MatchesTags(View(), tagFilters, id)
    {
      ids := {};
      if filters != map[] {
        var walk := WalkDimensions(filters);
        for i := 0 to |walk|
          invariant forall id :: id in ids <==> exists k :: 0 <= k < i && id in Posted(places, walk[k])
        {
          ids := ids + set id | id in Posted(places, walk[i]);
        }
        WalkMatches(View(), filters, walk);
      } else {
        ids := entries.Keys;
      }
      if tagFilters != [] {
        var filtered: set<string> := {};
        for i := 0 to |tagFilters|
          invariant forall id :: id in filtered <==>
                      id in ids && exists k :: 0 <= k < i && id in Posted(tags, tagFilters[k])
        {
          filtered := filtered + set id | id in Posted(tags, tagFilters[i]) && id in ids;
        }
        ids := filtered;
      }
    }

    method ExportToJson() returns (keys: seq<string>, out: seq<Exported>)
      ensures IsExport(View(), keys, out)
    {
      keys, out := [], [];
      var left := entries.Keys;
      while left != {}
        invariant left <= entries.Keys && Distinct(keys) && |out| == |keys|
        invariant forall id :: id in keys <==> id in entries && id !in left
        invariant forall i :: 0 <= i < |keys| ==> keys[i] in entries && IsExportOf(entries[keys[i]], out[i])
        decreases |left|
      {
        if forall id :: id !in left {
          NoMembers(left);
        }
        var id :| id in left;
        var x := ExportOne(entries[id]);
        keys, out, left := keys + [id], out + [x], left - {id};
      }
    }

    /** Data without an array of entries only clears the memory. */
    method ImportFromJson(data: Maybe<seq<Exported>>)
      modifies this`entries, this`places, this`tags
      ensures IsImport(tokenize, if data.Just? then data.value else [], View())
    {
      entries, places, tags := map[], map[], map[];
      if data.Nothing? {
        return;
      }
      var xs := data.value;
      for i := 0 to |xs|
        invariant IsImport(tokenize, xs[..i], View())
      {
        ghost var before := View();
        assert xs[..i + 1][..i] == xs[..i];
        Store(xs[i].id, ImportedEntry(tokenize, xs[i]));
        assert IsStored(before, xs[i].id, ImportedEntry(tokenize, xs[i]), View());
      }
      Whole(xs);
    }
  }

  method ExportOne(e: Entry) returns (x: Exported)
    ensures IsExportOf(e, x)
  {
    var walk := WalkDimensions(e.metadata.dimensions);
    x := Exported(e.metadata.id, e.metadata.title, e.content, e.metadata.tags, e.metadata.timestamp,
                  e.metadata.importance, e.metadata.relatedIds, Named(walk));
  }

  lemma WalkMatches(m: Memory, filters: map<Dimension, string>, walk: seq<Place>)
    requires IsWalk(walk, filters) && filters != map[]
    ensures forall id ::
              MatchesPlaces(m, filters, id) <==> exists k :: 0 <= k < |walk| && id in Posted(m.places, walk[k])
  {
    forall id
      ensures MatchesPlaces(m, filters, id) <==> exists k :: 0 <= k < |walk| && id in Posted(m.places, walk[k])
    {
      if MatchesPlaces(m, filters, id) {
        var d :| d in filters && id in Posted(m.places, (d, filters[d]));
        assert (d, filters[d]) in walk;
      }
      if exists k :: 0 <= k < |walk| && id in Posted(m.places, walk[k]) {
        var k :| 0 <= k < |walk| && id in Posted(m.places, walk[k]);
        assert walk[k] in walk;
        assert walk[k] == (walk[k].0, filters[walk[k].0]);
      }
    }
  }

  lemma {:induction false} PresentAreThese(m: Memory, ids: seq<string>, id: string)
    ensures id in Present(m, ids) <==> id in ids && id in m.entries
  {
    if ids != [] {
      var n := |ids| - 1;
      PresentAreThese(m, ids[..n], id);
      assert ids == ids[..n] + [ids[n]];
    }
  }

  method WalkDimensions(dimensions: map<Dimension, string>) returns (walk: seq<Place>)
    ensures IsWalk(walk, dimensions)
  {
    walk := [];
    var left := dimensions.Keys;
    while left != {}
      invariant left <= dimensions.Keys && Distinct(walk)
      invariant forall p: Place :: p in walk <==> p.0 in dimensions && p.0 !in left && dimensions[p.0] == p.1
      decreases |left|
    {
      if forall d :: d !in left {
        NoMembers(left);
      }
      var d :| d in left;
      walk, left := walk + [(d, dimensions[d])], left - {d};
    }
  }

  // ---------------------------------------------------------------------
  // Every operation keeps the indexes in step
  // ---------------------------------------------------------------------

  ghost predicate PlaceCount(m: Memory, except: string, p: Place, id: string) {
    Count(m.places, p, id) == if id != except && id in m.entries && HasPlace(m.entries[id], p) then 1 else 0
  }

  ghost predicate TagCount(m: Memory, except: string, tag: string, id: string) {
    Count(m.tags, tag, id) == if id != except && id in m.entries then multiset(m.entries[id].metadata.tags)[tag] else 0
  }

  /** The indexes are in step for all ids but one, which is nowhere posted. */
  ghost predicate ValidBut(m: Memory, except: string) {
    && (forall p: Place, id :: PlaceCount(m, except, p, id))
    && (forall tag, id :: TagCount(m, except, tag, id))
  }

  lemma ValidWithout(m: Memory, id: string)
    requires id !in m.entries
    ensures Valid(m) <==> ValidBut(m, id)
  {
    hide Count, HasPlace;
    if ValidBut(m, id) {
      forall p: Place, other
        ensures Count(m.places, p, other) == if other in m.entries && HasPlace(m.entries[other], p) then 1 else 0
      {
        assert PlaceCount(m, id, p, other);
      }
      forall tag, other
        ensures Count(m.tags, tag, other) ==
                if other in m.entries then multiset(m.entries[other].metadata.tags)[tag] else 0
      {
        assert TagCount(m, id, tag, other);
      }
    }
  }

  lemma StoreKeeps(before: Memory, id: string, e: Entry, after: Memory)
    requires ValidBut(before, id) && IsStored(before, id, e, after)
    ensures Valid(after)
  {
    hide Count, HasPlace;
    var walk :| IsWalk(walk, e.metadata.dimensions) && after.places == PostAll(before.places, walk, id);
    forall p: Place, other
      ensures Count(after.places, p, other) ==
              if other in after.entries && HasPlace(after.entries[other], p) then 1 else 0
    {
      assert PlaceCount(before, id, p, other);
      PostAllCount(before.places, walk, id, p, other);
      WalkCount(walk, e, p);
    }
    forall tag, other
      ensures Count(after.tags, tag, other) ==
              if other in after.entries then multiset(after.entries[other].metadata.tags)[tag] else 0
    {
      assert TagCount(before, id, tag, other);
      PostAllCount(before.tags, e.metadata.tags, id, tag, other);
    }
  }

  lemma WalkCount(walk: seq<Place>, e: Entry, p: Place)
    requires IsWalk(walk, e.metadata.dimensions)
    ensures multiset(walk)[p] == if HasPlace(e, p) then 1 else 0
    ensures p in walk <==> HasPlace(e, p)
  {
    DistinctCount(walk, p);
  }

  lemma UnpostedKeeps(before: Memory, id: string, after: Memory)
    requires Valid(before) && id in before.entries && IsUnposted(before, id, after)
    ensures ValidBut(after, id)
  {
    hide Count, HasPlace;
    var e := before.entries[id];
    var walk :| IsWalk(walk, e.metadata.dimensions) && after.places == UnpostAll(before.places, walk, id);
    forall p: Place, other ensures PlaceCount(after, id, p, other) {
      UnpostAllCount(before.places, walk, id, p, other);
      WalkCount(walk, e, p);
    }
    forall tag, other ensures TagCount(after, id, tag, other) {
      UnpostAllCount(before.tags, e.metadata.tags, id, tag, other);
    }
  }

  lemma UpdateKeeps(tokenize: string -> seq<string>, before: Memory, id: string, content: string,
                    metadata: Maybe<Metadata>, after: Memory)
    requires Valid(before) && id in before.entries && IsUpdated(tokenize, before, id, content, metadata, after)
    ensures Valid(after)
  {
    hide Valid, ValidBut, IsUnposted, IsStored;
    var was := before.entries[id];
    var meta := if metadata.Just? then metadata.value else was.metadata;
    var between :| IsUnposted(before, id, between) &&
      IsStored(between, id, Entry(meta, content, TokensOf(tokenize, content, was.metadata.title)), after);
    UnpostedKeeps(before, id, between);
    StoreKeeps(between, id, Entry(meta, content, TokensOf(tokenize, content, was.metadata.title)), after);
  }

  /** A result is its entry's title, content and metadata, under its id, with the score given. */
  lemma ResultsAre(m: Memory, ids: seq<string>, score: real, i: nat)
    requires (forall k :: 0 <= k < |ids| ==> ids[k] in m.entries) && i < |ids|
    ensures var results, e := ResultsOf(m, ids, score), m.entries[ids[i]];
            |results| == |ids| && results[i] == Result(ids[i], e.metadata.title, e.content, score, e.metadata)
  {
  }

  /** An update replaces the entry's content and, if metadata are given, those, and touches no other
      entry; its words stay in step with content and title exactly if the title's change makes no
      difference to them, because they are counted from the title before. */
  lemma UpdateIs(tokenize: string -> seq<string>, before: Memory, id: string, content: string,
                 metadata: Maybe<Metadata>, after: Memory)
    requires id in before.entries && IsUpdated(tokenize, before, id, content, metadata, after)
    ensures after.entries.Keys == before.entries.Keys
    ensures forall other :: other in before.entries && other != id ==> after.entries[other] == before.entries[other]
    ensures var was, e := before.entries[id].metadata, after.entries[id];
            && e.content == content && e.metadata == (if metadata == Nothing then was else metadata.value)
            && (e.tokens == tokenize(content + " " + e.metadata.title) <==>
                  tokenize(content + " " + was.title) == tokenize(content + " " + e.metadata.title))
  {
  }

  lemma DeleteKeeps(before: Memory, id: string, after: Memory)
    requires Valid(before) && id in before.entries && IsDeleted(before, id, after)
    ensures Valid(after)
  {
    hide Count, HasPlace, Valid, IsUnposted;
    var between :| IsUnposted(before, id, between) && after == between.(entries := between.entries - {id});
    UnpostedKeeps(before, id, between);
    forall p: Place, other ensures PlaceCount(after, id, p, other) {
      assert PlaceCount(between, id, p, other);
    }
    forall tag, other ensures TagCount(after, id, tag, other) {
      assert TagCount(between, id, tag, other);
    }
    ValidWithout(after, id);
  }

  /** A change of the memory: an add of an entry under a fresh id, an update, or a delete. */
  datatype Change = Add(e: Entry) | Update(content: string, metadata: Maybe<Metadata>) | Delete

  ghost predicate IsChange(tokenize: string -> seq<string>, before: Memory, id: string, c: Change, after: Memory) {
    match c
    case Add(e) => id !in before.entries && IsStored(before, id, e, after)
    case Update(content, metadata) => id in before.entries && IsUpdated(tokenize, before, id, content, metadata, after)
    case Delete => id in before.entries && IsDeleted(before, id, after)
  }

  /** states[i + 1] comes from states[i] by the i-th change, to the i-th id. */
  ghost predicate IsRun(tokenize: string -> seq<string>, states: seq<Memory>, ids: seq<string>, changes: seq<Change>) {
    && |states| == |changes| + 1 == |ids| + 1
    && states[0] == Memory(map[], map[], map[])
    && forall i :: 0 <= i < |changes| ==> IsChange(tokenize, states[i], ids[i], changes[i], states[i + 1])
  }

  /** Over every sequence of adds, updates and deletes the indexes stay in step with the entries. */
  lemma {:induction false} AlwaysValid(tokenize: string -> seq<string>, states: seq<Memory>, ids: seq<string>,
                                       changes: seq<Change>, k: nat)
    requires IsRun(tokenize, states, ids, changes) && k <= |changes|
    ensures Valid(states[k])
  {
    if k > 0 {
      hide Valid, IsStored, IsUpdated, IsDeleted, ValidBut;
      AlwaysValid(tokenize, states, ids, changes, k - 1);
      assert IsChange(tokenize, states[k - 1], ids[k - 1], changes[k - 1], states[k]);
      match changes[k - 1]
      case Add(e) =>
        ValidWithout(states[k - 1], ids[k - 1]);
        StoreKeeps(states[k - 1], ids[k - 1], e, states[k]);
      case Update(content, metadata) =>
        UpdateKeeps(tokenize, states[k - 1], ids[k - 1], content, metadata, states[k]);
      case Delete => DeleteKeeps(states[k - 1], ids[k - 1], states[k]);
    } else {
      assert states[0] == Memory(map[], map[], map[]);
    }
  }

  // ---------------------------------------------------------------------
  // What the searches find
  // ---------------------------------------------------------------------

  lemma {:induction false} AllPresent(m: Memory, ids: seq<string>)
    requires forall id :: id in ids ==> id in m.entries
    ensures Present(m, ids) == ids
  {
    if ids != [] {
      var n := |ids| - 1;
      assert ids[n] in ids;
      AllPresent(m, ids[..n]);
    }
  }

  lemma PostedHaveEntries(m: Memory, p: Place)
    requires Valid(m)
    ensures forall id :: id in Posted(m.places, p) <==> id in m.entries && HasPlace(m.entries[id], p)
  {
    forall id ensures id in Posted(m.places, p) <==> id in m.entries && HasPlace(m.entries[id], p) {
      assert id in Posted(m.places, p) <==> Count(m.places, p, id) > 0;
    }
  }

  lemma TagPostedHaveEntries(m: Memory, tag: string)
    requires Valid(m)
    ensures forall id :: id in Posted(m.tags, tag) <==> id in m.entries && tag in m.entries[id].metadata.tags
  {
    forall id ensures id in Posted(m.tags, tag) <==> id in m.entries && tag in m.entries[id].metadata.tags {
      assert id in Posted(m.tags, tag) <==> Count(m.tags, tag, id) > 0;
    }
  }

  /** An unlimited search by dimension finds exactly the entries with that value, each once. */
  lemma DimensionSearchIsFilter(m: Memory, p: Place, max: int, id: string)
    requires Valid(m) && max <= 0
    ensures multiset(Limited(Present(m, Posted(m.places, p)), max))[id] ==
            if id in m.entries && HasPlace(m.entries[id], p) then 1 else 0
  {
    PostedHaveEntries(m, p);
    AllPresent(m, Posted(m.places, p));
    assert Count(m.places, p, id) == if id in m.entries && HasPlace(m.entries[id], p) then 1 else 0;
  }

  /** The hits of an entry: for every tag of the query, how often the entry has it. */
  function SharedTags(query: seq<string>, tags: seq<string>): nat {
    if query == [] then 0
    else SharedTags(query[..|query| - 1], tags) + multiset(tags)[query[|query| - 1]]
  }

  lemma {:induction false} HitsAreSharedTags(m: Memory, query: seq<string>, id: string)
    requires Valid(m)
    ensures TagHits(m.tags, query, id) == if id in m.entries then SharedTags(query, m.entries[id].metadata.tags) else 0
  {
    if query != [] {
      hide PlacesAgree;
      HitsAreSharedTags(m, query[..|query| - 1], id);
    }
  }

  /** The results of an unlimited search by tags, as the ranking they come from. */
  ghost predicate RanksAs(m: Memory, query: seq<string>, scores: map<string, real>, ranked: seq<string>,
                          results: seq<Result>) {
    && IsHitCount(m.tags, query, scores) && IsRanking(scores, ranked) && |results| == |ranked|
    && forall i :: 0 <= i < |ranked| ==>
         ranked[i] in m.entries && ranked[i] in scores && |query| > 0 &&
         results[i].id == ranked[i] && results[i].score == scores[ranked[i]] / |query| as real
  }

  lemma TagSearchRanks(m: Memory, query: seq<string>, max: int, results: seq<Result>)
    returns (scores: map<string, real>, ranked: seq<string>)
    requires Valid(m) && max <= 0 && IsTagSearch(m, query, max, results)
    ensures RanksAs(m, query, scores, ranked, results)
  {
    hide TagHits, SharedTags, Valid;
    scores, ranked :| IsHitCount(m.tags, query, scores) && IsRanking(scores, ranked) &&
      AreShares(m, query, scores, Limited(Present(m, ranked), max), results);
    forall id | id in ranked ensures id in m.entries {
      HitsAreSharedTags(m, query, id);
    }
    AllPresent(m, ranked);
  }

  predicate Shares(m: Memory, query: seq<string>, id: string) {
    id in m.entries && SharedTags(query, m.entries[id].metadata.tags) > 0
  }

  /** An unlimited search by tags finds exactly the entries that share a tag with the query, each
      once, those that share more first. */
  lemma TagSearchIsFilter(m: Memory, query: seq<string>, max: int, results: seq<Result>)
    requires Valid(m) && max <= 0 && IsTagSearch(m, query, max, results)
    ensures forall i, j :: 0 <= i < j < |results| ==>
              results[i].id != results[j].id && results[i].score >= results[j].score
    ensures forall id :: Shares(m, query, id) <==> exists i :: 0 <= i < |results| && results[i].id == id
    ensures forall i :: 0 <= i < |results| ==>
              (Shares(m, query, results[i].id) &&
               results[i].score == SharedTags(query, m.entries[results[i].id].metadata.tags) as real / |query| as real)
  {
    hide TagHits, SharedTags, Valid, IsTagSearch;
    var scores, ranked := TagSearchRanks(m, query, max, results);
    forall i, j | 0 <= i < j < |results|
      ensures results[i].id != results[j].id && results[i].score >= results[j].score
    {
      assert scores[ranked[i]] >= scores[ranked[j]];
      Divides(scores[ranked[i]], scores[ranked[j]], |query| as real);
    }
    forall id ensures Shares(m, query, id) <==> exists i :: 0 <= i < |results| && results[i].id == id {
      HitsAreSharedTags(m, query, id);
      if id in ranked {
        var i :| 0 <= i < |ranked| && ranked[i] == id;
        assert results[i].id == id;
      }
    }
    forall i | 0 <= i < |results|
      ensures Shares(m, query, results[i].id) &&
              results[i].score == SharedTags(query, m.entries[results[i].id].metadata.tags) as real / |query| as real
    {
      HitsAreSharedTags(m, query, results[i].id);
    }
  }

  lemma Divides(a: real, b: real, n: real)
    requires a >= b && n > 0.0
    ensures a / n >= b / n
  {
  }

  /** The candidates are the entries that match some dimension filter, if there are any, and some
      tag filter, if there are any. */
  lemma CandidatesAre(m: Memory, filters: map<Dimension, string>, tagFilters: seq<string>, id: string)
    requires Valid(m)
    ensures MatchesPlaces(m, filters, id) && MatchesTags(m, tagFilters, id) <==>
            && id in m.entries
            && (filters != map[] ==> exists d :: d in filters && HasPlace(m.entries[id], (d, filters[d])))
            && (tagFilters != [] ==> exists t :: t in tagFilters && t in m.entries[id].metadata.tags)
  {
    hide Valid, HasPlace, Posted;
    forall d | d in filters
      ensures id in Posted(m.places, (d, filters[d])) <==> (id in m.entries && HasPlace(m.entries[id], (d, filters[d])))
    {
      PostedHaveEntries(m, (d, filters[d]));
    }
    forall t ensures id in Posted(m.tags, t) <==> id in m.entries && t in m.entries[id].metadata.tags {
      TagPostedHaveEntries(m, t);
    }
  }

  // ---------------------------------------------------------------------
  // An import of an export
  // ---------------------------------------------------------------------

  lemma {:induction false} DimensionsFromNamed(walk: seq<Place>)
    requires forall p, q :: p in walk && q in walk && p.0 == q.0 ==> p == q
    ensures forall d :: d in DimensionsFrom(Named(walk)) <==> exists p :: p in walk && p.0 == d
    ensures forall p :: p in walk ==> p.0 in DimensionsFrom(Named(walk)) && DimensionsFrom(Named(walk))[p.0] == p.1
  {
    if walk != [] {
      var n := |walk| - 1;
      var last := walk[n];
      assert walk == walk[..n] + [last];
      assert Named(walk)[..n] == Named(walk[..n]);
      assert StringToDimension(DimensionToString(last.0)) == last.0;
      DimensionsFromNamed(walk[..n]);
      assert last in walk;
      forall p | p in walk
        ensures p.0 in DimensionsFrom(Named(walk)) && DimensionsFrom(Named(walk))[p.0] == p.1
      {
        assert p == last || p in walk[..n];
      }
    }
  }

  lemma DimensionsRestored(walk: seq<Place>, dimensions: map<Dimension, string>)
    requires IsWalk(walk, dimensions)
    ensures DimensionsFrom(Named(walk)) == dimensions
  {
    DimensionsFromNamed(walk);
    var restored := DimensionsFrom(Named(walk));
    forall d ensures d in restored <==> d in dimensions {
      if d in dimensions {
        assert (d, dimensions[d]) in walk;
      }
    }
    forall d | d in dimensions ensures restored[d] == dimensions[d] {
      assert (d, dimensions[d]) in walk;
    }
    SameMap(restored, dimensions);
  }

  /** An entry as an export and import leave it: its words are counted afresh. */
  function Retokenized(tokenize: string -> seq<string>, e: Entry): Entry {
    e.(tokens := TokensOf(tokenize, e.content, e.metadata.title))
  }

  lemma EntryRestored(tokenize: string -> seq<string>, e: Entry, x: Exported)
    requires IsExportOf(e, x)
    ensures ImportedEntry(tokenize, x) == Retokenized(tokenize, e)
  {
    hide IsWalk, DimensionsFrom, Named, TokensOf;
    var walk :| IsWalk(walk, e.metadata.dimensions) && x.dimensions == Named(walk);
    DimensionsRestored(walk, e.metadata.dimensions);
  }

  /** Every entry is filed under the id its metadata gives. */
  predicate WellKeyed(m: Memory) {
    forall id :: id in m.entries ==> m.entries[id].metadata.id == id
  }

  predicate FreshTokens(tokenize: string -> seq<string>, m: Memory) {
    forall id :: id in m.entries ==> m.entries[id] == Retokenized(tokenize, m.entries[id])
  }

  /** What an import gives is always filed by metadata id, with its words counted afresh. */
  lemma {:induction false} ImportShape(tokenize: string -> seq<string>, xs: seq<Exported>, m: Memory)
    requires IsImport(tokenize, xs, m)
    ensures WellKeyed(m) && FreshTokens(tokenize, m)
  {
    if xs != [] {
      var n := |xs| - 1;
      var before :| IsImport(tokenize, xs[..n], before) &&
        IsStored(before, xs[n].id, ImportedEntry(tokenize, xs[n]), m);
      hide IsImport, DimensionsFrom, TokensOf;
      ImportShape(tokenize, xs[..n], before);
    }
  }

  /** m has the entries of the first k keys, retokenized, and nothing else. */
  ghost predicate HasFirst(tokenize: string -> seq<string>, from: Memory, keys: seq<string>, m: Memory)
    requires forall i :: 0 <= i < |keys| ==> keys[i] in from.entries
  {
    && (forall id :: id in m.entries <==> id in keys)
    && forall i :: 0 <= i < |keys| ==>
         keys[i] in m.entries && m.entries[keys[i]] == Retokenized(tokenize, from.entries[keys[i]])
  }

  lemma {:induction false} ImportOfExport(tokenize: string -> seq<string>, from: Memory, keys: seq<string>,
                                          out: seq<Exported>, m: Memory)
    requires |out| == |keys| && Distinct(keys) && WellKeyed(from)
    requires forall i :: 0 <= i < |keys| ==> keys[i] in from.entries && IsExportOf(from.entries[keys[i]], out[i])
    requires IsImport(tokenize, out, m)
    ensures HasFirst(tokenize, from, keys, m) && Valid(m)
    decreases |keys|
  {
    if out != [] {
      var n := |out| - 1;
      var before :| IsImport(tokenize, out[..n], before) &&
        IsStored(before, out[n].id, ImportedEntry(tokenize, out[n]), m);
      ImportStep(tokenize, from, keys, out, before, m);
    }
  }

  lemma {:induction false} ImportStep(tokenize: string -> seq<string>, from: Memory, keys: seq<string>,
                                      out: seq<Exported>, before: Memory, m: Memory)
    requires |out| == |keys| > 0 && Distinct(keys) && WellKeyed(from)
    requires forall i :: 0 <= i < |keys| ==> keys[i] in from.entries && IsExportOf(from.entries[keys[i]], out[i])
    requires IsImport(tokenize, out[..|out| - 1], before)
    requires IsStored(before, out[|out| - 1].id, ImportedEntry(tokenize, out[|out| - 1]), m)
    ensures HasFirst(tokenize, from, keys, m) && Valid(m)
    decreases |keys|, 0
  {
    hide IsImport, Valid, ValidBut, Retokenized, ImportedEntry;
    var n := |out| - 1;
    ImportOfExport(tokenize, from, keys[..n], out[..n], before);
    EntryRestored(tokenize, from.entries[keys[n]], out[n]);
    assert keys == keys[..n] + [keys[n]];
    assert keys[n] !in keys[..n];
    ValidWithout(before, keys[n]);
    StoreKeeps(before, keys[n], ImportedEntry(tokenize, out[n]), m);
    hide IsExportOf;
    forall i | 0 <= i < |keys|
      ensures keys[i] in m.entries && m.entries[keys[i]] == Retokenized(tokenize, from.entries[keys[i]])
    {
      assert i < n ==> keys[..n][i] == keys[i];
    }
  }

  /** Importing an export restores the entries exactly when each is filed under its own metadata id
      and its words are counted from its present content and title; the indexes are then in step. */
  lemma ImportExportIff(tokenize: string -> seq<string>, m: Memory, keys: seq<string>, out: seq<Exported>, back: Memory)
    requires IsExport(m, keys, out) && IsImport(tokenize, out, back)
    ensures back.entries == m.entries <==> WellKeyed(m) && FreshTokens(tokenize, m)
    ensures WellKeyed(m) ==> Valid(back)
  {
    hide IsImport, Valid, IsExportOf;
    ImportShape(tokenize, out, back);
    if WellKeyed(m) {
      ImportOfExport(tokenize, m, keys, out, back);
      if FreshTokens(tokenize, m) {
        hide Retokenized;
        forall id | id in m.entries ensures id in back.entries && back.entries[id] == m.entries[id] {
          var i :| 0 <= i < |keys| && keys[i] == id;
        }
        SameMap(back.entries, m.entries);
      }
    }
  }
}
