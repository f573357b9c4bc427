/** The id and label maps of the vector index, and the mapping file that stores them. */
module HnswIndexes {
  import opened Bytes
  import opened Seqs

  type Id = seq<byte>

  /** The part of the index that is not the graph: the two maps, the next label, and which labels
      the graph holds a point for. */
  datatype Index = Index(idToLabel: map<Id, nat>, labelToId: map<nat, Id>, nextLabel: nat, points: set<nat>,
                         initialized: bool)

  function Empty(): Index {
    Index(map[], map[], 0, {}, false)
  }

  // ---------------------------------------------------------------------
  // What keeps the maps together
  // ---------------------------------------------------------------------

  ghost predicate Inverse(idToLabel: map<Id, nat>, labelToId: map<nat, Id>) {
    && (forall id :: id in idToLabel ==> idToLabel[id] in labelToId && labelToId[idToLabel[id]] == id)
    && (forall tag :: tag in labelToId ==> labelToId[tag] in idToLabel && idToLabel[labelToId[tag]] == tag)
  }

  /** The maps are inverses of each other, labels are below the next one, and every point can be
      named: its label has a non-empty id. */
  ghost predicate Consistent(x: Index) {
    && Inverse(x.idToLabel, x.labelToId)
    && (forall tag :: tag in x.labelToId ==> tag < x.nextLabel)
    && [] !in x.idToLabel
    && x.points <= x.labelToId.Keys
  }

  function WithLabel(x: Index, id: Id): Index {
    if id in x.idToLabel then x
    else x.(idToLabel := x.idToLabel[id := x.nextLabel], labelToId := x.labelToId[x.nextLabel := id],
            nextLabel := x.nextLabel + 1)
  }

  /** A vector to add: its id, whether it has the right dimension, and whether the graph takes it. */
  datatype Vector = Vector(id: Id, fits: bool, taken: bool)

  function WithPoint(x: Index, v: Vector): Index {
    var y := WithLabel(x, v.id);
    if v.taken then y.(points := y.points + {y.idToLabel[v.id]}) else y
  }

  predicate Acceptable(v: Vector) {
    v.id != [] && v.fits
  }

  function WithVectors(x: Index, vectors: seq<Vector>): Index {
    if vectors == [] then x
    else
      var n := |vectors| - 1;
      var y := WithVectors(x, vectors[..n]);
      if Acceptable(vectors[n]) then WithPoint(y, vectors[n]) else y
  }

  function Successes(vectors: seq<Vector>): nat {
    if vectors == [] then 0
    else
      var n := |vectors| - 1;
      Successes(vectors[..n]) + (if Acceptable(vectors[n]) && vectors[n].taken then 1 else 0)
  }

  // ---------------------------------------------------------------------
  // The mapping file
  // ---------------------------------------------------------------------

  const WORD := 8

  datatype Entry = Entry(id: Id, tag: nat)

  function EncodeEntry(e: Entry): seq<byte> {
    LittleEndian(|e.id|, WORD) + (e.id + LittleEndian(e.tag, WORD))
  }

  function EncodeEntries(entries: seq<Entry>): seq<byte> {
    if entries == [] then [] else EncodeEntry(entries[0]) + EncodeEntries(entries[1..])
  }

  function EncodeFile(entries: seq<Entry>, nextLabel: nat): seq<byte> {
    LittleEndian(|entries|, WORD) + (EncodeEntries(entries) + LittleEndian(nextLabel, WORD))
  }

  /** The entries list the map, each id once, in some order. */
  ghost predicate Lists(entries: seq<Entry>, idToLabel: map<Id, nat>) {
    && (forall i, j :: 0 <= i < j < |entries| ==> entries[i].id != entries[j].id)
    && (forall i :: 0 <= i < |entries| ==> entries[i].id in idToLabel && idToLabel[entries[i].id] == entries[i].tag)
    && (forall id :: id in idToLabel ==> exists i :: 0 <= i < |entries| && entries[i].id == id)
  }

  /** file is what saving may write: hash map order is arbitrary. */
  ghost predicate IsSaved(x: Index, file: seq<byte>) {
    exists entries :: Lists(entries, x.idToLabel) && file == EncodeFile(entries, x.nextLabel)
  }

  /** An input file stream: what is left to read, and whether a read has failed. */
  datatype Stream = Stream(rest: seq<byte>, good: bool)

  /** The bytes a read of `width` stores: all of them, or what is left, or none after a failure. */
  function Taken(s: Stream, width: nat): (r: seq<byte>)
    ensures |r| <= width
  {
    if !s.good then [] else if width <= |s.rest| then s.rest[..width] else s.rest
  }

  function Advanced(s: Stream, width: nat): Stream {
    if !s.good then s
    else if width <= |s.rest| then Stream(s.rest[width..], true)
    else Stream([], false)
  }

  /** Reading over a variable that holds `bytes`: what is not read stays. */
  function Overwritten(bytes: seq<byte>, read: seq<byte>): seq<byte>
    requires |read| <= |bytes|
  {
    read + bytes[|read|..]
  }

  function Zeros(n: nat): (r: seq<byte>)
    ensures |r| == n
  {
    seq(n, _ => 0 as byte)
  }

  datatype Loading = Loading(idToLabel: map<Id, nat>, labelToId: map<nat, Id>, stream: Stream, thrown: bool)

  /** One entry of the file; a string longer than can be allocated throws. */
  function LoadEntry(l: Loading, capacity: nat): Loading {
    var size := Value(Taken(l.stream, WORD));
    var s := Advanced(l.stream, WORD);
    if size > capacity then l.(stream := s, thrown := true)
    else
      var id := Overwritten(Zeros(size), Taken(s, size));
      var t := Advanced(s, size);
      var tag := Value(Taken(t, WORD));
      Loading(l.idToLabel[id := tag], l.labelToId[tag := id], Advanced(t, WORD), false)
  }

  function LoadEntries(l: Loading, count: nat, capacity: nat): Loading
    decreases count
  {
    if count == 0 || l.thrown then l else LoadEntries(LoadEntry(l, capacity), count - 1, capacity)
  }

  /** What loading a mapping file makes of an index: the maps, the next label, success. */
  function Loaded(x: Index, file: seq<byte>, points: set<nat>, capacity: nat): Index {
    var y := if x.initialized then Empty() else x;
    var s := Stream(file, true);
    var l := LoadEntries(Loading(y.idToLabel, y.labelToId, Advanced(s, WORD), false), Value(Taken(s, WORD)), capacity);
    if l.thrown then y.(idToLabel := l.idToLabel, labelToId := l.labelToId, points := {})
    else
      Index(l.idToLabel, l.labelToId, Value(Overwritten(LittleEndian(y.nextLabel, WORD), Taken(l.stream, WORD))),
            points, true)
  }

  // ---------------------------------------------------------------------
  // The index
  // ---------------------------------------------------------------------

  class HnswIndex {
    var idToLabel: map<Id, nat>
    var labelToId: map<nat, Id>
    var nextLabel: nat
    ghost var points: set<nat>
    var initialized: bool

    ghost function View(): Index
      reads this
    {
      Index(idToLabel, labelToId, nextLabel, points, initialized)
    }

    constructor ()
      ensures View() == Empty()
    {
      idToLabel, labelToId, nextLabel, points, initialized := map[], map[], 0, {}, false;
    }

    method Initialize(metricKnown: bool, built: bool) returns (ok: bool)
      modifies this
      ensures ok <==> old(initialized) || (metricKnown && built)
      ensures View() == old(View()).(initialized := ok, points := if old(initialized) || !ok then old(points) else {})
    {
      if initialized {
        return true;
      }
      if !metricKnown || !built {
        return false;
      }
      points, initialized := {}, true;
      return true;
    }

    method GetLabel(id: Id) returns (tag: nat)
      modifies this
      ensures View() == WithLabel(old(View()), id)
      ensures id in idToLabel && tag == idToLabel[id]
    {
      if id in idToLabel {
        return idToLabel[id];
      }
      tag := nextLabel;
      nextLabel := nextLabel + 1;
      idToLabel, labelToId := idToLabel[id := tag], labelToId[tag := id];
    }

    method AddVector(v: Vector) returns (ok: bool)
      modifies this
      ensures ok <==> old(initialized) && Acceptable(v) && v.taken
      ensures View() == if old(initialized) && Acceptable(v) then WithPoint(old(View()), v) else old(View())
    {
      if !initialized || v.id == [] || !v.fits {
        return false;
      }
      var tag := GetLabel(v.id);
      if v.taken {
        points := points + {tag};
      }
      return v.taken;
    }

    method AddVectorsBatch(vectors: seq<Vector>) returns (ok: bool)
      modifies this
      ensures ok <==> vectors == [] || (old(initialized) && Successes(vectors) > 0)
      ensures View() == if old(initialized) then WithVectors(old(View()), vectors) else old(View())
    {
      if vectors == [] {
        return true;
      }
      if !initialized {
        return false;
      }
      var added := 0;
      for i := 0 to |vectors|
        invariant View() == WithVectors(old(View()), vectors[..i]) && initialized
        invariant added == Successes(vectors[..i])
      {
        assert vectors[..i + 1][..i] == vectors[..i];
        var v := vectors[i];
        if v.id == [] || !v.fits {
          continue;
        }
        var tag := GetLabel(v.id);
        if v.taken {
          points := points + {tag};
          added := added + 1;
        }
      }
      Whole(vectors);
      return added > 0;
    }

    /** A deleted vector keeps its label. */
    method MarkDeleted(id: Id, marked: bool) returns (ok: bool)
      ensures ok <==> initialized && id in idToLabel && marked
    {
      if !initialized || id !in idToLabel {
        return false;
      }
      return marked;
    }

    method Clear()
      modifies this
      ensures View() == Empty()
    {
      idToLabel, labelToId, nextLabel, points, initialized := map[], map[], 0, {}, false;
    }

    method SaveMapping() returns (file: seq<byte>)
      ensures IsSaved(View(), file)
    {
      hide ListsAllBut, EncodeEntry, LittleEndian;
      StartListing(idToLabel);
      var entries: seq<Entry>, left := [], idToLabel.Keys;
      var body: seq<byte> := [];
      while left != {}
        invariant left <= idToLabel.Keys && ListsAllBut(entries, idToLabel, left)
        invariant body == EncodeEntries(entries)
        decreases |left|
      {
        if forall id :: id !in left {
          NoMembers(left);
        }
        var id :| id in left;
        var e := Entry(id, idToLabel[id]);
        EncodeEntriesConcat(entries, [e]);
        Whole(EncodeEntry(e));
        ListsOneMore(entries, idToLabel, left, id);
        entries, left, body := entries + [e], left - {id}, body + EncodeEntry(e);
      }
      file := LittleEndian(|entries|, WORD) + (body + LittleEndian(nextLabel, WORD));
      ListsAll(entries, idToLabel);
    }

    /** Loading the mapping file once the graph, with its points, has been read; neither file need
        be readable. */
    method LoadIndex(readable: bool, file: seq<byte>, graph: set<nat>, capacity: nat) returns (ok: bool)
      modifies this
      ensures !readable ==> !ok && View() == if old(initialized) then Empty() else old(View())
      ensures readable ==> View() == Loaded(old(View()), file, graph, capacity) && ok == initialized
    {
      if initialized {
        Clear();
      }
      if !readable {
        return false;
      }
      var stream := Stream(file, true);
      var count := Value(Taken(stream, WORD));
      stream := Advanced(stream, WORD);
      ghost var start := Loading(idToLabel, labelToId, stream, false);
      var i := 0;
      while i < count
        invariant 0 <= i <= count
        invariant nextLabel == (if old(initialized) then 0 else old(nextLabel)) && !initialized
        invariant LoadEntries(Loading(idToLabel, labelToId, stream, false), count - i, capacity) ==
                  LoadEntries(start, count, capacity)
      {
        var size := Value(Taken(stream, WORD));
        stream := Advanced(stream, WORD);
        if size > capacity {
          points := {};
          return false;
        }
        var id := Overwritten(Zeros(size), Taken(stream, size));
        stream := Advanced(stream, size);
        var tag := Value(Taken(stream, WORD));
        stream := Advanced(stream, WORD);
        idToLabel, labelToId := idToLabel[id := tag], labelToId[tag := id];
        i := i + 1;
      }
      nextLabel := Value(Overwritten(LittleEndian(nextLabel, WORD), Taken(stream, WORD)));
      points, initialized := graph, true;
      return true;
    }
  }

  /** The entries list the map except for the ids left. */
  ghost predicate ListsAllBut(entries: seq<Entry>, idToLabel: map<Id, nat>, left: set<Id>) {
    && left <= idToLabel.Keys
    && (forall i, j :: 0 <= i < j < |entries| ==> entries[i].id != entries[j].id)
    && (forall i :: 0 <= i < |entries| ==>
          entries[i].id in idToLabel && entries[i].id !in left && idToLabel[entries[i].id] == entries[i].tag)
    && (forall id :: id in idToLabel && id !in left ==> exists i :: 0 <= i < |entries| && entries[i].id == id)
  }

  lemma StartListing(idToLabel: map<Id, nat>)
    ensures ListsAllBut([], idToLabel, idToLabel.Keys)
  {
  }

  lemma ListsOneMore(entries: seq<Entry>, idToLabel: map<Id, nat>, left: set<Id>, id: Id)
    requires ListsAllBut(entries, idToLabel, left) && id in left
    ensures id in idToLabel && ListsAllBut(entries + [Entry(id, idToLabel[id])], idToLabel, left - {id})
  {
    var more := entries + [Entry(id, idToLabel[id])];
    assert more[|entries|].id == id;
    forall other | other in idToLabel && other !in left - {id}
      ensures exists i :: 0 <= i < |more| && more[i].id == other
    {
      if other != id {
        var i :| 0 <= i < |entries| && entries[i].id == other;
        assert more[i].id == other;
      }
    }
  }

  lemma ListsAll(entries: seq<Entry>, idToLabel: map<Id, nat>)
    requires ListsAllBut(entries, idToLabel, {})
    ensures Lists(entries, idToLabel)
  {
  }

  lemma {:induction false} EncodeEntriesConcat(a: seq<Entry>, b: seq<Entry>)
    ensures EncodeEntries(a + b) == EncodeEntries(a) + EncodeEntries(b)
  {
    if a == [] {
      assert a + b == b;
    } else {
      EncodeEntriesConcat(a[1..], b);
      Uncons(a, b);
      Assoc(EncodeEntry(a[0]), EncodeEntries(a[1..]), EncodeEntries(b));
    }
  }

  // ---------------------------------------------------------------------
  // Saving and loading
  // ---------------------------------------------------------------------

  /** The sizes a mapping file can hold and the loader can allocate. */
  ghost predicate Storable(e: Entry, capacity: nat) {
    |e.id| <= capacity && |e.id| < Pow256(WORD) && e.tag < Pow256(WORD)
  }

  lemma ReadPrefix(a: seq<byte>, rest: seq<byte>)
    ensures Taken(Stream(a + rest, true), |a|) == a
    ensures Advanced(Stream(a + rest, true), |a|) == Stream(rest, true)
  {
    assert (a + rest)[..|a|] == a && (a + rest)[|a|..] == rest;
  }

  lemma LoadEncodedEntry(l: Loading, e: Entry, rest: seq<byte>, capacity: nat)
    requires Storable(e, capacity) && l.stream == Stream(EncodeEntry(e) + rest, true)
    ensures LoadEntry(l, capacity) ==
            Loading(l.idToLabel[e.id := e.tag], l.labelToId[e.tag := e.id], Stream(rest, true), false)
  {
    hide LittleEndian, Value, Taken, Advanced;
    var size, tag := LittleEndian(|e.id|, WORD), LittleEndian(e.tag, WORD);
    ValueOfLittleEndian(|e.id|, WORD);
    ValueOfLittleEndian(e.tag, WORD);
    assert EncodeEntry(e) + rest == size + (e.id + (tag + rest));
    ReadPrefix(size, e.id + (tag + rest));
    ReadPrefix(e.id, tag + rest);
    ReadPrefix(tag, rest);
    assert Overwritten(Zeros(|e.id|), e.id) == e.id;
  }

  function IdOf(e: Entry): Id {
    e.id
  }

  function TagOf(e: Entry): nat {
    e.tag
  }

  function PutAll<K, V>(m: map<K, V>, entries: seq<Entry>, key: Entry -> K, value: Entry -> V): map<K, V>
    decreases |entries|
  {
    if entries == [] then m else PutAll(m[key(entries[0]) := value(entries[0])], entries[1..], key, value)
  }

  lemma {:induction false} LoadEncodedEntries(l: Loading, entries: seq<Entry>, rest: seq<byte>, capacity: nat)
    requires forall i :: 0 <= i < |entries| ==> Storable(entries[i], capacity)
    requires l.stream == Stream(EncodeEntries(entries) + rest, true) && !l.thrown
    ensures LoadEntries(l, |entries|, capacity) ==
            Loading(PutAll(l.idToLabel, entries, IdOf, TagOf), PutAll(l.labelToId, entries, TagOf, IdOf),
                    Stream(rest, true), false)
    decreases |entries|
  {
    hide EncodeEntry, LoadEntry, Storable;
    if entries == [] {
      assert EncodeEntries(entries) + rest == rest;
    } else {
      var e := entries[0];
      Assoc(EncodeEntry(e), EncodeEntries(entries[1..]), rest);
      LoadEncodedEntry(l, e, EncodeEntries(entries[1..]) + rest, capacity);
      LoadEncodedEntries(LoadEntry(l, capacity), entries[1..], rest, capacity);
    }
  }

  lemma {:induction false} PutAllAt<K, V>(m: map<K, V>, entries: seq<Entry>, key: Entry -> K, value: Entry -> V)
    requires forall i, j :: 0 <= i < j < |entries| ==> key(entries[i]) != key(entries[j])
    ensures var all := PutAll(m, entries, key, value);
            && (forall k :: k in all <==> k in m || exists i :: 0 <= i < |entries| && key(entries[i]) == k)
            && (forall i :: 0 <= i < |entries| ==> key(entries[i]) in all && all[key(entries[i])] == value(entries[i]))
            && (forall k :: k in m && (forall i :: 0 <= i < |entries| ==> key(entries[i]) != k) ==>
                  k in all && all[k] == m[k])
    decreases |entries|
  {
    if entries != [] {
      var e, rest := entries[0], entries[1..];
      assert forall i :: 0 < i < |entries| ==> entries[i] == rest[i - 1];
      assert forall i :: 0 <= i < |rest| ==> rest[i] == entries[i + 1];
      PutAllAt(m[key(e) := value(e)], rest, key, value);
    }
  }

  lemma TagsDistinct(x: Index, entries: seq<Entry>)
    requires Inverse(x.idToLabel, x.labelToId) && Lists(entries, x.idToLabel)
    ensures forall i, j :: 0 <= i < j < |entries| ==> entries[i].tag != entries[j].tag
  {
    forall i, j | 0 <= i < j < |entries| ensures entries[i].tag != entries[j].tag {
      assert x.labelToId[entries[i].tag] == entries[i].id && x.labelToId[entries[j].tag] == entries[j].id;
    }
  }

  lemma Rebuilds<K, V>(target: map<K, V>, entries: seq<Entry>, key: Entry -> K, value: Entry -> V)
    requires forall i, j :: 0 <= i < j < |entries| ==> key(entries[i]) != key(entries[j])
    requires forall i :: 0 <= i < |entries| ==>
               key(entries[i]) in target && target[key(entries[i])] == value(entries[i])
    requires forall k :: k in target ==> exists i :: 0 <= i < |entries| && key(entries[i]) == k
    ensures PutAll(map[], entries, key, value) == target
  {
    hide PutAll;
    PutAllAt(map[], entries, key, value);
    var all := PutAll(map[], entries, key, value);
    forall k ensures k in all <==> k in target {
      assert k in target ==> exists i :: 0 <= i < |entries| && key(entries[i]) == k;
    }
    forall k | k in target ensures all[k] == target[k] {
      var i :| 0 <= i < |entries| && key(entries[i]) == k;
    }
    SameMap(all, target);
  }

  /** Whatever order the entries are in, they rebuild both maps. */
  lemma EntriesRebuild(x: Index, entries: seq<Entry>)
    requires Inverse(x.idToLabel, x.labelToId) && Lists(entries, x.idToLabel)
    ensures PutAll(map[], entries, IdOf, TagOf) == x.idToLabel
    ensures PutAll(map[], entries, TagOf, IdOf) == x.labelToId
  {
    hide PutAll;
    TagsDistinct(x, entries);
    forall id | id in x.idToLabel ensures exists i :: 0 <= i < |entries| && IdOf(entries[i]) == id {
      var i :| 0 <= i < |entries| && entries[i].id == id;
      assert IdOf(entries[i]) == id;
    }
    Rebuilds(x.idToLabel, entries, IdOf, TagOf);
    forall tag | tag in x.labelToId ensures exists i :: 0 <= i < |entries| && TagOf(entries[i]) == tag {
      var i :| 0 <= i < |entries| && entries[i].id == x.labelToId[tag];
      assert TagOf(entries[i]) == tag;
    }
    Rebuilds(x.labelToId, entries, TagOf, IdOf);
  }

  /** The index is small enough for its mapping file. */
  ghost predicate Fits(x: Index, capacity: nat) {
    && (forall id :: id in x.idToLabel ==> |id| <= capacity && |id| < Pow256(WORD))
    && x.nextLabel < Pow256(WORD)
  }

  /** Saving and then loading, into a fresh index or over any initialized one, gives back both maps
      and the next label, for every order the hash map may be walked in. */
  lemma SaveThenLoad(x: Index, file: seq<byte>, into: Index, graph: set<nat>, capacity: nat)
    requires Consistent(x) && Fits(x, capacity) && IsSaved(x, file)
    requires into.initialized || into == Empty()
    ensures Loaded(into, file, graph, capacity) == x.(points := graph, initialized := true)
  {
    hide LittleEndian, Value, Taken, Advanced, EncodeEntries, PutAll, LoadEntries;
    var entries :| Lists(entries, x.idToLabel) && file == EncodeFile(entries, x.nextLabel);
    var head, body, tail := LittleEndian(|entries|, WORD), EncodeEntries(entries), LittleEndian(x.nextLabel, WORD);
    EntriesFit(x, entries, capacity);
    ValueOfLittleEndian(|entries|, WORD);
    ValueOfLittleEndian(x.nextLabel, WORD);
    ReadPrefix(head, body + tail);
    var l := Loading(map[], map[], Stream(body + tail, true), false);
    LoadEncodedEntries(l, entries, tail, capacity);
    EntriesRebuild(x, entries);
    Whole(tail);
    ReadPrefix(tail, []);
    assert Overwritten(LittleEndian(0, WORD), tail) == tail;
  }

  lemma EntriesFit(x: Index, entries: seq<Entry>, capacity: nat)
    requires Consistent(x) && Fits(x, capacity) && Lists(entries, x.idToLabel)
    ensures forall i :: 0 <= i < |entries| ==> Storable(entries[i], capacity)
    ensures |entries| < Pow256(WORD)
  {
    hide Pow256;
    TagsDistinct(x, entries);
    DistinctBelow(entries, x.nextLabel);
  }

  /** Distinct labels below n: there are at most n of them. */
  lemma {:induction false} DistinctBelow(entries: seq<Entry>, n: nat)
    requires forall i, j :: 0 <= i < j < |entries| ==> entries[i].tag != entries[j].tag
    requires forall i :: 0 <= i < |entries| ==> entries[i].tag < n
    ensures |entries| <= n
  {
    if entries != [] {
      assert 0 <= entries[0].tag < n;
      if forall i :: 0 <= i < |entries| ==> entries[i].tag < n - 1 {
        DistinctBelow(entries, n - 1);
      } else {
        var k :| 0 <= k < |entries| && entries[k].tag == n - 1;
        DistinctBelow(entries[..k] + entries[k + 1..], n - 1);
      }
    }
  }

  /** A file cut off after its count is loaded as success all the same, and the maps no longer agree
      with the next label. */
  lemma TruncatedFileAccepted(graph: set<nat>, capacity: nat)
    ensures var y := Loaded(Empty(), LittleEndian(1, WORD), graph, capacity);
            y.initialized && y.idToLabel == map[[] := 0] && y.nextLabel == 0 && !Consistent(y)
  {
    hide LittleEndian, Value;
    var file := LittleEndian(1, WORD);
    ValueOfLittleEndian(1, WORD);
    ValueOfLittleEndian(0, WORD);
    Whole(file);
    var s := Stream(file, true);
    assert Taken(s, WORD) == file && Advanced(s, WORD) == Stream([], true);
    assert Value([]) == 0 by { NoBytes(); }
    var l := Loading(map[], map[], Stream([], true), false);
    assert Overwritten(Zeros(0), []) == [];
    assert LoadEntry(l, capacity) == Loading(map[[] := 0], map[0 := []], Stream([], false), false);
    assert LoadEntries(l, 1, capacity) == LoadEntries(LoadEntry(l, capacity), 0, capacity);
    assert Overwritten(LittleEndian(0, WORD), []) == LittleEndian(0, WORD);
  }

  lemma NoBytes()
    ensures Value([]) == 0
  {
  }

  // ---------------------------------------------------------------------
  // Every sequence of operations
  // ---------------------------------------------------------------------

  datatype Action =
    | Initialize(metricKnown: bool, built: bool)
    | Add(v: Vector)
    | AddBatch(vectors: seq<Vector>)
    | Delete(id: Id)
    | Clear
    | SaveAndReload(entries: seq<Entry>, capacity: nat)

  /** A save and reload that walks the map in the order of `entries`; other orders do nothing here. */
  ghost function Step(x: Index, a: Action): Index {
    match a
    case Initialize(metricKnown, built) =>
      if x.initialized || !metricKnown || !built then x else x.(points := {}, initialized := true)
    case Add(v) => if x.initialized && Acceptable(v) then WithPoint(x, v) else x
    case AddBatch(vectors) => if x.initialized then WithVectors(x, vectors) else x
    case Delete(_) => x
    case Clear => Empty()
    case SaveAndReload(entries, capacity) =>
      if x.initialized && Lists(entries, x.idToLabel) && Fits(x, capacity)
      then Loaded(x, EncodeFile(entries, x.nextLabel), x.points, capacity) else x
  }

  ghost function Run(actions: seq<Action>): Index {
    if actions == [] then Empty() else Step(Run(actions[..|actions| - 1]), actions[|actions| - 1])
  }

  /** y has all of x's labels. */
  ghost predicate Extends(x: Index, y: Index) {
    && x.nextLabel <= y.nextLabel
    && forall id :: id in x.idToLabel ==> id in y.idToLabel && y.idToLabel[id] == x.idToLabel[id]
  }

  lemma WithPointKeeps(x: Index, v: Vector)
    requires Consistent(x) && v.id != []
    ensures Consistent(WithPoint(x, v)) && Extends(x, WithPoint(x, v))
  {
  }

  lemma {:induction false} WithVectorsKeeps(x: Index, vectors: seq<Vector>)
    requires Consistent(x)
    ensures Consistent(WithVectors(x, vectors)) && Extends(x, WithVectors(x, vectors))
  {
    hide Consistent, WithPoint;
    if vectors != [] {
      var n := |vectors| - 1;
      WithVectorsKeeps(x, vectors[..n]);
      if Acceptable(vectors[n]) {
        WithPointKeeps(WithVectors(x, vectors[..n]), vectors[n]);
      }
    }
  }

  /** A batch succeeds when one of its vectors is usable and taken. */
  lemma {:induction false} SuccessesIff(vectors: seq<Vector>)
    ensures Successes(vectors) > 0 <==>
            exists i :: 0 <= i < |vectors| && vectors[i].id != [] && vectors[i].fits && vectors[i].taken
  {
    if vectors != [] {
      var n := |vectors| - 1;
      SuccessesIff(vectors[..n]);
      assert forall i :: 0 <= i < n ==> vectors[..n][i] == vectors[i];
    }
  }

  /** Adding vectors puts a point under an id's label exactly for the usable vectors of that id which
      the graph takes, and removes none. */
  lemma {:induction false} PointsAre(x: Index, vectors: seq<Vector>, tag: nat)
    requires Consistent(x)
    ensures var y := WithVectors(x, vectors);
            tag in y.points <==>
            tag in x.points || exists i :: 0 <= i < |vectors| && TakenUnder(y, vectors[i], tag)
  {
    hide Consistent;
    if vectors != [] {
      var n := |vectors| - 1;
      var y, z := WithVectors(x, vectors[..n]), WithVectors(x, vectors);
      PointsAre(x, vectors[..n], tag);
      WithVectorsKeeps(x, vectors[..n]);
      if Acceptable(vectors[n]) {
        WithPointKeeps(y, vectors[n]);
      }
      forall i | 0 <= i < n ensures TakenUnder(y, vectors[i], tag) <==> TakenUnder(z, vectors[i], tag) {
        if Acceptable(vectors[i]) {
          assert vectors[..n][i] == vectors[i];
          AcceptedHaveLabels(x, vectors[..n], i);
        }
      }
      assert forall i :: 0 <= i < n ==> vectors[..n][i] == vectors[i];
    }
  }

  predicate TakenUnder(y: Index, v: Vector, tag: nat) {
    v.id != [] && v.fits && v.taken && v.id in y.idToLabel && y.idToLabel[v.id] == tag
  }

  lemma {:induction false} AcceptedHaveLabels(x: Index, vectors: seq<Vector>, i: nat)
    requires Consistent(x) && i < |vectors| && Acceptable(vectors[i])
    ensures vectors[i].id in WithVectors(x, vectors).idToLabel
  {
    hide Consistent;
    var n := |vectors| - 1;
    WithVectorsKeeps(x, vectors[..n]);
    if i < n {
      AcceptedHaveLabels(x, vectors[..n], i);
      if Acceptable(vectors[n]) {
        WithPointKeeps(WithVectors(x, vectors[..n]), vectors[n]);
      }
    }
  }

  lemma StepKeeps(x: Index, a: Action)
    requires Consistent(x)
    ensures Consistent(Step(x, a)) && (!a.Clear? ==> Extends(x, Step(x, a)))
  {
    hide Loaded, WithPoint, Lists, Fits, EncodeFile;
    match a
    case Add(v) =>
      if Acceptable(v) {
        WithPointKeeps(x, v);
      }
    case AddBatch(vectors) => WithVectorsKeeps(x, vectors);
    case SaveAndReload(entries, capacity) =>
      if x.initialized && Lists(entries, x.idToLabel) && Fits(x, capacity) {
        assert IsSaved(x, EncodeFile(entries, x.nextLabel));
        SaveThenLoad(x, EncodeFile(entries, x.nextLabel), x, x.points, capacity);
      }
    case _ =>
  }

  /** After any operations, saves and reloads included, the maps are inverses, all labels are below
      the next one, and every point of the graph has a name. */
  lemma {:induction false} AlwaysConsistent(actions: seq<Action>)
    ensures Consistent(Run(actions))
  {
    hide Step, Consistent;
    if actions == [] {
      EmptyConsistent();
    } else {
      AlwaysConsistent(actions[..|actions| - 1]);
      StepKeeps(Run(actions[..|actions| - 1]), actions[|actions| - 1]);
    }
  }

  lemma EmptyConsistent()
    ensures Consistent(Empty())
  {
  }

  /** Until the index is cleared an id keeps the label it got, so no label is given twice. */
  lemma {:induction false} LabelsAreStable(actions: seq<Action>, k: nat)
    requires k <= |actions| && forall i :: k <= i < |actions| ==> !actions[i].Clear?
    ensures Extends(Run(actions[..k]), Run(actions))
    decreases |actions|
  {
    hide Step, Consistent;
    if k == |actions| {
      Whole(actions);
    } else {
      var n := |actions| - 1;
      LabelsAreStable(actions[..n], k);
      assert actions[..n][..k] == actions[..k];
      AlwaysConsistent(actions[..n]);
      StepKeeps(Run(actions[..n]), actions[n]);
    }
  }
}
