/** Inverted indexes: for every key the list of ids posted under it. The loops that post an id under
    several keys, and that take it back again, are proved against functions, and the lemmas say how
    often an id then stands under a key; two indexes of the structured memory and the children of
    the subagent manager are instances. */
module PostingLists {
  import opened Seqs

  type Index<K> = map<K, seq<string>>

  function Posted<K>(index: Index<K>, key: K): seq<string> {
    if key in index then index[key] else []
  }

  /** std::remove and erase: the list without any occurrence of id. */
  function Erased(ids: seq<string>, id: string): seq<string> {
    if ids == [] then [] else (if ids[0] == id then [] else [ids[0]]) + Erased(ids[1..], id)
  }

  function PostAll<K>(index: Index<K>, keys: seq<K>, id: string): Index<K> {
    if keys == [] then index
    else
      var n := |keys| - 1;
      var before := PostAll(index, keys[..n], id);
      before[keys[n] := Posted(before, keys[n]) + [id]]
  }

  /** The source's operator[] leaves an empty list where there was none. */
  function UnpostAll<K>(index: Index<K>, keys: seq<K>, id: string): Index<K> {
    if keys == [] then index
    else
      var n := |keys| - 1;
      var before := UnpostAll(index, keys[..n], id);
      before[keys[n] := Erased(Posted(before, keys[n]), id)]
  }

  method Post<K(==)>(index: Index<K>, keys: seq<K>, id: string) returns (posted: Index<K>)
    ensures posted == PostAll(index, keys, id)
  {
    posted := index;
    for i := 0 to |keys|
      invariant posted == PostAll(index, keys[..i], id)
    {
      assert keys[..i + 1][..i] == keys[..i];
      posted := posted[keys[i] := Posted(posted, keys[i]) + [id]];
    }
    Whole(keys);
  }

  method Unpost<K(==)>(index: Index<K>, keys: seq<K>, id: string) returns (left: Index<K>)
    ensures left == UnpostAll(index, keys, id)
  {
    left := index;
    for i := 0 to |keys|
      invariant left == UnpostAll(index, keys[..i], id)
    {
      assert keys[..i + 1][..i] == keys[..i];
      left := left[keys[i] := Erased(Posted(left, keys[i]), id)];
    }
    Whole(keys);
  }

  /** How often id is posted under key. */
  function Count<K>(index: Index<K>, key: K, id: string): nat {
    multiset(Posted(index, key))[id]
  }

  lemma {:induction false} ErasedCount(ids: seq<string>, id: string, other: string)
    ensures multiset(Erased(ids, id))[other] == if other == id then 0 else multiset(ids)[other]
  {
    if ids != [] {
      ErasedCount(ids[1..], id, other);
      assert ids == [ids[0]] + ids[1..];
    }
  }

  lemma PostCount<K>(index: Index<K>, posted: K, id: string, key: K, other: string)
    ensures Count(index[posted := Posted(index, posted) + [id]], key, other) ==
            Count(index, key, other) + (if other == id && key == posted then 1 else 0)
  {
  }

  lemma MultisetSnoc<T>(s: seq<T>, x: T)
    requires s != []
    ensures multiset(s)[x] == multiset(s[..|s| - 1])[x] + (if s[|s| - 1] == x then 1 else 0)
  {
    assert s == s[..|s| - 1] + [s[|s| - 1]];
  }

  lemma {:induction false} PostAllCount<K>(index: Index<K>, keys: seq<K>, id: string, key: K, other: string)
    ensures Count(PostAll(index, keys, id), key, other) ==
            Count(index, key, other) + (if other == id then multiset(keys)[key] else 0)
  {
    hide Count, Posted;
    if keys != [] {
      var n := |keys| - 1;
      PostAllCount(index, keys[..n], id, key, other);
      MultisetSnoc(keys, key);
      PostCount(PostAll(index, keys[..n], id), keys[n], id, key, other);
    }
  }

  lemma {:induction false} UnpostAllCount<K>(index: Index<K>, keys: seq<K>, id: string, key: K, other: string)
    ensures Count(UnpostAll(index, keys, id), key, other) ==
            if other == id && key in keys then 0 else Count(index, key, other)
  {
    if keys != [] {
      var n := |keys| - 1;
      UnpostAllCount(index, keys[..n], id, key, other);
      assert keys == keys[..n] + [keys[n]];
      ErasedCount(Posted(UnpostAll(index, keys[..n], id), keys[n]), id, other);
    }
  }
}
