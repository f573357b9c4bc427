/** The embedding manager's cache: lookups, batches, eviction, and provider switches. A cache is
    right when nobody can tell that it is there, so the methods promise the answers of the provider
    alone, for every faithful cache content, and that the content stays faithful and within its
    maximum; which entry is evicted is left open, as a hash map leaves it. */
module EmbeddingCache {
  import opened QueueText
  import opened Seqs

  type Vector = seq<real>

  /** A deterministic provider, whose batch call embeds text by text. */
  type Model = string -> Vector

  function Embeddings(model: Model, texts: seq<string>): (r: seq<Vector>)
    ensures |r| == |texts|
  {
    seq(|texts|, i requires 0 <= i < |texts| => model(texts[i]))
  }

  /** How many of the texts the cache has. */
  function Known(cache: map<string, Vector>, texts: seq<string>): (n: nat)
    ensures n <= |texts|
  {
    if texts == [] then 0
    else Known(cache, texts[..|texts| - 1]) + (if texts[|texts| - 1] in cache then 1 else 0)
  }

  /** Every cached vector is the current provider's. */
  ghost predicate Faithful(model: Maybe<Model>, cache: map<string, Vector>) {
    forall text :: text in cache ==> model.Just? && cache[text] == model.value(text)
  }

  class EmbeddingManager {
    const defaultModel: Maybe<Model>
    const named: string -> Maybe<Model>
    var current: string
    var enabled: bool
    var cache: map<string, Vector>
    var hits: nat
    var misses: nat
    var maxSize: nat

    function CurrentModel(): Maybe<Model>
      reads this`current
    {
      if current == "" then defaultModel else named(current)
    }

    ghost predicate Valid()
      reads this
    {
      Faithful(CurrentModel(), cache) && |cache| <= maxSize && (!enabled ==> cache == map[])
    }

    /** A vector can be cached when there may be one to cache: with a maximum of zero the source
        erases from an empty map. */
    ghost predicate CanCache()
      reads this
    {
      enabled && CurrentModel().Just? ==> maxSize >= 1
    }

    /** `name` is what the default provider calls itself, "" if there is none. */
    constructor (defaultModel: Maybe<Model>, name: string, named: string -> Maybe<Model>, maxSize: nat)
      ensures CurrentModel() == if name == "" then defaultModel else named(name)
      ensures Valid() && current == name && enabled && cache == map[]
      ensures this.defaultModel == defaultModel && this.named == named && this.maxSize == maxSize
    {
      this.defaultModel, this.named, this.maxSize := defaultModel, named, maxSize;
      current, enabled, cache, hits, misses := name, true, map[], 0, 0;
    }

    method GetFromCache(text: string) returns (cached: Maybe<Vector>)
      modifies this`hits, this`misses
      ensures cached == if text in cache then Just(cache[text]) else Nothing
      ensures hits == old(hits) + (if text in cache then 1 else 0)
      ensures misses == old(misses) + (if text in cache then 0 else 1)
    {
      if text in cache {
        hits := hits + 1;
        return Just(cache[text]);
      }
      misses := misses + 1;
      return Nothing;
    }

    /** A full cache loses exactly one entry first, an arbitrary one. */
    method AddToCache(text: string, vector: Vector)
      requires Valid() && CanCache() && enabled && CurrentModel().Just? && vector == CurrentModel().value(text)
      modifies this`cache
      ensures Valid() && text in cache
      ensures cache.Keys <= old(cache).Keys + {text}
      ensures |old(cache)| < maxSize ==> cache == old(cache)[text := vector]
      ensures |old(cache)| >= maxSize ==>
                exists victim :: victim in old(cache) && cache == (old(cache) - {victim})[text := vector]
    {
      if |cache| >= maxSize {
        if forall t :: t !in cache.Keys {
          NoMembers(cache.Keys);
        }
        var victim :| victim in cache.Keys;
        SmallerMap(cache, victim);
        cache := cache - {victim};
      }
      GrowsByOne(cache, text, vector);
      cache := cache[text := vector];
    }

    /** The answer is the provider's own for every cache content. */
    method GetEmbedding(text: string) returns (r: Maybe<Vector>)
      requires Valid() && CanCache()
      modifies this`cache, this`hits, this`misses
      ensures Valid()
      ensures r == if CurrentModel().Just? then Just(CurrentModel().value(text)) else Nothing
      ensures enabled && r.Just? ==> text in cache
      ensures cache.Keys <= old(cache).Keys + {text}
      ensures hits == old(hits) + (if enabled && text in old(cache) then 1 else 0)
      ensures misses == old(misses) + (if enabled && text !in old(cache) then 1 else 0)
    {
      if enabled {
        var cached := GetFromCache(text);
        if cached.Just? {
          return cached;
        }
      }
      var model := CurrentModel();
      if model.Nothing? {
        return Nothing;
      }
      var vector := model.value(text);
      if enabled {
        AddToCache(text, vector);
      }
      return Just(vector);
    }

    /** The answers are those of the provider alone, position by position, whatever is cached,
        repeated or evicted on the way. */
    method GetEmbeddingBatch(texts: seq<string>) returns (r: Maybe<seq<Vector>>)
      requires Valid() && CanCache()
      modifies this`cache, this`hits, this`misses
      ensures Valid()
      ensures texts == [] ==> r == Just([])
      ensures texts != [] ==> (r == Nothing <==> CurrentModel() == Nothing)
      ensures r != Nothing ==> |r.value| == |texts|
      ensures r != Nothing && texts != [] ==>
                forall k :: 0 <= k < |texts| ==> r.value[k] == CurrentModel().value(texts[k])
      ensures hits == old(hits) + (if enabled then Known(old(cache), texts) else 0)
      ensures misses == old(misses) + (if enabled then |texts| - Known(old(cache), texts) else 0)
    {
      hide Known;
      if texts == [] {
        NoneKnown(cache);
        return Just([]);
      }
      var model := CurrentModel();
      var results, uncached := LookUpAll(texts);
      if uncached != [] {
        if model.Nothing? {
          return Nothing;
        }
        results := EmbedMissing(texts, model.value, uncached, results);
      }
      assert model.Just?;
      return Just(results);
    }

    /** The second loop: the provider embeds what the cache did not have, and the cache takes it. */
    method EmbedMissing(texts: seq<string>, model: Model, uncached: seq<nat>, found: seq<Vector>)
      returns (results: seq<Vector>)
      requires Valid() && CanCache() && CurrentModel() == Just(model) && |found| == |texts|
      requires forall i :: 0 <= i < |uncached| ==> uncached[i] < |texts|
      requires forall k :: 0 <= k < |texts| ==> k in uncached || found[k] == model(texts[k])
      modifies this`cache
      ensures Valid() && |results| == |texts|
      ensures forall k :: 0 <= k < |texts| ==> results[k] == model(texts[k])
    {
      results := found;
      var embeddings := Embeddings(model, seq(|uncached|, i requires 0 <= i < |uncached| => texts[uncached[i]]));
      Whole(uncached);
      for i := 0 to |uncached|
        invariant Valid() && |results| == |texts|
        invariant forall k :: 0 <= k < |texts| ==> k in uncached[i..] || results[k] == model(texts[k])
      {
        SplitAt(uncached, i);
        results := results[uncached[i] := embeddings[i]];
        if enabled {
          AddToCache(texts[uncached[i]], embeddings[i]);
        }
      }
    }

    /** The first loop of the batch: what the cache has, and the positions it does not have. */
    method LookUpAll(texts: seq<string>) returns (results: seq<Vector>, uncached: seq<nat>)
      requires Valid()
      modifies this`hits, this`misses
      ensures Valid() && |results| == |texts|
      ensures forall i :: 0 <= i < |uncached| ==> uncached[i] < |texts|
      ensures forall k :: 0 <= k < |texts| ==>
                k in uncached || (CurrentModel().Just? && results[k] == CurrentModel().value(texts[k]))
      ensures texts != [] && CurrentModel().Nothing? ==> uncached != []
      ensures hits == old(hits) + (if enabled then Known(cache, texts) else 0)
      ensures misses == old(misses) + (if enabled then |texts| - Known(cache, texts) else 0)
    {
      hide Known;
      results, uncached := seq(|texts|, _ => []), [];
      NoneKnown(cache);
      Whole(texts);
      for i := 0 to |texts|
        invariant Valid() && |results| == |texts|
        invariant forall k :: 0 <= k < |uncached| ==> uncached[k] < i
        invariant forall k :: 0 <= k < i ==>
                    k in uncached || (CurrentModel().Just? && results[k] == CurrentModel().value(texts[k]))
        invariant i > 0 && CurrentModel().Nothing? ==> uncached != []
        invariant hits == old(hits) + (if enabled then Known(cache, texts[..i]) else 0)
        invariant misses == old(misses) + (if enabled then i - Known(cache, texts[..i]) else 0)
      {
        KnownSnoc(cache, texts, i);
        if enabled {
          var cached := GetFromCache(texts[i]);
          if cached.Just? {
            results := results[i := cached.value];
          } else {
            uncached := uncached + [i];
          }
        } else {
          uncached := uncached + [i];
        }
      }
      Whole(texts);
    }

    method ClearCache()
      modifies this`cache, this`hits, this`misses
      ensures cache == map[] && hits == 0 && misses == 0
    {
      cache, hits, misses := map[], 0, 0;
    }

    /** An unknown provider is an error and changes nothing. */
    method SetProvider(name: string) returns (ok: bool)
      requires Valid()
      modifies this`current, this`cache, this`hits, this`misses
      ensures Valid()
      ensures ok <==> named(name).Just?
      ensures ok ==> current == name && cache == map[] && hits == 0 && misses == 0
      ensures ok && name != "" ==> CurrentModel() == named(name)
      ensures !ok ==> current == old(current) && cache == old(cache) && hits == old(hits) && misses == old(misses)
    {
      if named(name).Nothing? {
        return false;
      }
      current := name;
      ClearCache();
      return true;
    }

    method SetCacheEnabled(on: bool)
      requires Valid()
      modifies this`enabled, this`cache, this`hits, this`misses
      ensures Valid() && enabled == on
      ensures cache == if on then old(cache) else map[]
      ensures on ==> hits == old(hits) && misses == old(misses)
      ensures !on ==> hits == 0 && misses == 0
    {
      enabled := on;
      if !on {
        ClearCache();
      }
    }

    /** A cache over the new maximum is emptied altogether. */
    method SetMaxCacheSize(max: nat)
      requires Valid()
      modifies this`maxSize, this`cache
      ensures Valid() && maxSize == max
      ensures cache == if |old(cache)| > max then map[] else old(cache)
    {
      maxSize := max;
      if |cache| > maxSize {
        cache := map[];
      }
    }
  }

  lemma KnownSnoc(cache: map<string, Vector>, texts: seq<string>, i: nat)
    requires i < |texts|
    ensures Known(cache, texts[..i + 1]) == Known(cache, texts[..i]) + (if texts[i] in cache then 1 else 0)
  {
    assert texts[..i + 1][..i] == texts[..i];
  }

  lemma NoneKnown(cache: map<string, Vector>)
    ensures Known(cache, []) == 0
  {
  }

  lemma SmallerMap(cache: map<string, Vector>, text: string)
    requires text in cache
    ensures |cache - {text}| == |cache| - 1
  {
    assert (cache - {text}).Keys == cache.Keys - {text};
  }

  lemma GrowsByOne(cache: map<string, Vector>, text: string, vector: Vector)
    ensures |cache[text := vector]| <= |cache| + 1
  {
    assert cache[text := vector].Keys == cache.Keys + {text};
  }
}
