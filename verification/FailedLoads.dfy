/** What a mapping file that stops loading midway leaves behind: the entries read before the failure
    stay in the maps, but the next label does not follow them. Ids that are added later then count up
    from 0 and may run into labels that are taken. */
module FailedLoads {
  import opened Seqs
  import opened Bytes
  import opened HnswIndexes

  /** The length that the file gives for its first id. */
  function FirstSize(file: seq<byte>): nat {
    Value(Taken(Advanced(Stream(file, true), WORD), WORD))
  }

  lemma {:induction false} KeysGrow(l: Loading, count: nat, capacity: nat)
    ensures l.labelToId.Keys <= LoadEntries(l, count, capacity).labelToId.Keys
    decreases count
  {
    if count > 0 && !l.thrown {
      hide Value, Taken, Advanced;
      KeysGrow(LoadEntry(l, capacity), count - 1, capacity);
    }
  }

  lemma FirstKept(l: Loading, capacity: nat) returns (tag: nat)
    requires !LoadEntry(l, capacity).thrown
    ensures tag in LoadEntry(l, capacity).labelToId
  {
    var size := Value(Taken(l.stream, WORD));
    tag := Value(Taken(Advanced(Advanced(l.stream, WORD), size), WORD));
  }

  ghost predicate LoadFails(x: Index, file: seq<byte>, graph: set<nat>, capacity: nat) {
    (x.initialized || x == Empty()) && !Loaded(x, file, graph, capacity).initialized
  }

  /** A load that fails leaves the maps consistent with the next label exactly when it already fails
      at the first id; there is then nothing in them. */
  lemma FailedLoadConsistentIff(x: Index, file: seq<byte>, graph: set<nat>, capacity: nat)
    requires LoadFails(x, file, graph, capacity)
    ensures Loaded(x, file, graph, capacity).nextLabel == 0
    ensures Consistent(Loaded(x, file, graph, capacity)) <==> FirstSize(file) > capacity
    ensures FirstSize(file) > capacity <==> Loaded(x, file, graph, capacity) == Empty()
  {
    hide Value, Taken, Advanced;
    var s := Stream(file, true);
    var l := Loading(map[], map[], Advanced(s, WORD), false);
    var count := Value(Taken(s, WORD));
    assert LoadEntries(l, count, capacity).thrown;
    var m := LoadEntry(l, capacity);
    assert LoadEntries(l, count, capacity) == LoadEntries(m, count - 1, capacity);
    if FirstSize(file) > capacity {
      assert m.thrown;
    } else {
      KeysGrow(m, count - 1, capacity);
      var tag := FirstKept(l, capacity);
      assert tag in Loaded(x, file, graph, capacity).labelToId;
    }
  }

  // ---------------------------------------------------------------------
  // Labels given twice
  // ---------------------------------------------------------------------

  /** Vectors that can be added, under different ids that have no label yet. */
  ghost predicate Newcomers(x: Index, vectors: seq<Vector>) {
    && (forall i :: 0 <= i < |vectors| ==> Acceptable(vectors[i]) && vectors[i].id !in x.idToLabel)
    && forall i, j :: 0 <= i < j < |vectors| ==> vectors[i].id != vectors[j].id
  }

  /** y has the labels of x, and the vectors the next ones. */
  ghost predicate Labelled(x: Index, vectors: seq<Vector>, y: Index) {
    && y.nextLabel == x.nextLabel + |vectors|
    && (forall id :: id in y.idToLabel ==> id in x.idToLabel || exists i :: 0 <= i < |vectors| && vectors[i].id == id)
    && (forall id :: id in x.idToLabel ==> id in y.idToLabel && y.idToLabel[id] == x.idToLabel[id])
    && forall i :: 0 <= i < |vectors| ==>
         vectors[i].id in y.idToLabel && y.idToLabel[vectors[i].id] == x.nextLabel + i
  }

  lemma {:induction false} LabelsGiven(x: Index, vectors: seq<Vector>)
    requires Newcomers(x, vectors)
    ensures Labelled(x, vectors, WithVectors(x, vectors))
  {
    if vectors != [] {
      var n := |vectors| - 1;
      assert forall i :: 0 <= i < n ==> vectors[..n][i] == vectors[i];
      LabelsGiven(x, vectors[..n]);
      LabelsOneMore(x, vectors, WithVectors(x, vectors[..n]));
    }
  }

  lemma LabelsOneMore(x: Index, vectors: seq<Vector>, y: Index)
    requires vectors != [] && Newcomers(x, vectors) && Labelled(x, vectors[..|vectors| - 1], y)
    ensures Labelled(x, vectors, WithPoint(y, vectors[|vectors| - 1]))
  {
    var n := |vectors| - 1;
    var z := WithPoint(y, vectors[n]);
    assert forall i :: 0 <= i < n ==> vectors[..n][i] == vectors[i];
    assert vectors[n].id !in y.idToLabel;
    assert z.idToLabel == y.idToLabel[vectors[n].id := y.nextLabel] && z.nextLabel == y.nextLabel + 1;
    forall id | id in z.idToLabel ensures id in x.idToLabel || exists i :: 0 <= i < |vectors| && vectors[i].id == id {
      if id in y.idToLabel && id !in x.idToLabel {
        var i :| 0 <= i < n && vectors[..n][i].id == id;
        assert vectors[i].id == id;
      }
    }
  }

  /** An id that x already has a label for shares it with one of the vectors added. */
  ghost predicate SharesLabel(x: Index, vectors: seq<Vector>) {
    exists id, i :: id in x.idToLabel && 0 <= i < |vectors| && HaveSameLabel(WithVectors(x, vectors), id, vectors[i].id)
  }

  predicate HaveSameLabel(x: Index, id: Id, other: Id) {
    id in x.idToLabel && other in x.idToLabel && x.idToLabel[id] == x.idToLabel[other]
  }

  lemma SharesLabelIff(x: Index, vectors: seq<Vector>)
    requires Newcomers(x, vectors)
    ensures SharesLabel(x, vectors) <==>
            exists id :: id in x.idToLabel && x.nextLabel <= x.idToLabel[id] < x.nextLabel + |vectors|
  {
    hide WithVectors;
    LabelsGiven(x, vectors);
    if id :| id in x.idToLabel && x.nextLabel <= x.idToLabel[id] < x.nextLabel + |vectors| {
      var i := x.idToLabel[id] - x.nextLabel;
      assert HaveSameLabel(WithVectors(x, vectors), id, vectors[i].id);
    }
  }

  /** The index after a failed load and a new initialization. */
  ghost function Recovered(x: Index, file: seq<byte>, graph: set<nat>, capacity: nat): Index {
    Step(Loaded(x, file, graph, capacity), Initialize(true, true))
  }

  lemma {:induction false} LoadEntriesSplit(l: Loading, i: nat, count: nat, capacity: nat)
    requires i <= count
    ensures LoadEntries(l, count, capacity) == LoadEntries(LoadEntries(l, i, capacity), count - i, capacity)
    decreases i
  {
    hide LoadEntry;
    if i > 0 && !l.thrown {
      LoadEntriesSplit(LoadEntry(l, capacity), i - 1, count - 1, capacity);
    }
  }

  /** Entry j of the file is the first whose id cannot be allocated. */
  ghost predicate FailsAt(entries: seq<Entry>, j: nat, capacity: nat) {
    && j < |entries| < Pow256(WORD)
    && (forall i :: 0 <= i < j ==> Storable(entries[i], capacity))
    && capacity < |entries[j].id| < Pow256(WORD)
  }

  lemma StopsAt(l: Loading, e: Entry, rest: seq<byte>, more: nat, capacity: nat)
    requires l.stream == Stream(EncodeEntry(e) + rest, true) && !l.thrown && more > 0
    requires capacity < |e.id| < Pow256(WORD)
    ensures var r := LoadEntries(l, more, capacity);
            r.thrown && r.idToLabel == l.idToLabel && r.labelToId == l.labelToId
  {
    hide LittleEndian, Value, Taken, Advanced, Pow256;
    ValueOfLittleEndian(|e.id|, WORD);
    var size := LittleEndian(|e.id|, WORD);
    assert EncodeEntry(e) + rest == size + (e.id + LittleEndian(e.tag, WORD) + rest);
    ReadPrefix(size, e.id + LittleEndian(e.tag, WORD) + rest);
    assert LoadEntry(l, capacity).thrown;
    assert LoadEntries(l, more, capacity) == LoadEntries(LoadEntry(l, capacity), more - 1, capacity);
  }

  /** What a saved file leaves when its j-th id cannot be allocated: the entries before it. */
  lemma FailedLoadKeeps(x: Index, entries: seq<Entry>, j: nat, nextLabel: nat, graph: set<nat>, capacity: nat)
    requires (x.initialized || x == Empty()) && FailsAt(entries, j, capacity)
    ensures var r := Loaded(x, EncodeFile(entries, nextLabel), graph, capacity);
            && !r.initialized && r.nextLabel == 0
            && r.idToLabel == PutAll(map[], entries[..j], IdOf, TagOf)
  {
    hide LittleEndian, Value, Taken, Advanced, EncodeEntries, EncodeEntry, PutAll, LoadEntries, Pow256, Storable;
    var head, tail := LittleEndian(|entries|, WORD), LittleEndian(nextLabel, WORD);
    var rest := EncodeEntries(entries[j + 1..]) + tail;
    ValueOfLittleEndian(|entries|, WORD);
    ReadPrefix(head, EncodeEntries(entries) + tail);
    var l := Loading(map[], map[], Stream(EncodeEntries(entries) + tail, true), false);
    EncodedSplit(entries, j, tail);
    LoadEncodedEntries(l, entries[..j], EncodeEntry(entries[j]) + rest, capacity);
    LoadEntriesSplit(l, j, |entries|, capacity);
    StopsAt(LoadEntries(l, j, capacity), entries[j], rest, |entries| - j, capacity);
  }

  lemma EncodeFirst(e: Entry, rest: seq<Entry>)
    ensures EncodeEntries([e] + rest) == EncodeEntry(e) + EncodeEntries(rest)
  {
    hide EncodeEntry;
    Cons(e, rest);
  }

  lemma EncodedSplit(entries: seq<Entry>, j: nat, tail: seq<byte>)
    requires j < |entries|
    ensures EncodeEntries(entries) + tail ==
            EncodeEntries(entries[..j]) + (EncodeEntry(entries[j]) + (EncodeEntries(entries[j + 1..]) + tail))
  {
    hide EncodeEntry;
    hide EncodeEntries;
    var e, more := EncodeEntry(entries[j]), EncodeEntries(entries[j + 1..]);
    SplitAt(entries, j);
    assert entries == entries[..j] + entries[j..];
    EncodeEntriesConcat(entries[..j], entries[j..]);
    assert EncodeEntries(entries[j..]) == e + more by { EncodeFirst(entries[j], entries[j + 1..]); }
    Assoc(EncodeEntries(entries[..j]), e + more, tail);
    Assoc(e, more, tail);
  }

  /** After such a load, adding n new ids gives one of them a label that a loaded id already has
      exactly when one of the entries before the failing one has a label below n. */
  lemma LabelTwiceIff(x: Index, entries: seq<Entry>, j: nat, nextLabel: nat, graph: set<nat>, capacity: nat,
                      vectors: seq<Vector>)
    requires (x.initialized || x == Empty()) && FailsAt(entries, j, capacity)
    requires forall i, k :: 0 <= i < k < |entries| ==> entries[i].id != entries[k].id
    requires Newcomers(Recovered(x, EncodeFile(entries, nextLabel), graph, capacity), vectors)
    ensures SharesLabel(Recovered(x, EncodeFile(entries, nextLabel), graph, capacity), vectors) <==>
            exists i :: 0 <= i < j && entries[i].tag < |vectors|
  {
    hide Loaded, EncodeFile, PutAll, Newcomers, SharesLabel, FailsAt;
    var r := Recovered(x, EncodeFile(entries, nextLabel), graph, capacity);
    FailedLoadKeeps(x, entries, j, nextLabel, graph, capacity);
    assert j < |entries| by { FailsBelow(entries, j, capacity); }
    SharesLabelIff(r, vectors);
    FrontLabels(entries, j, r.idToLabel, |vectors|);
  }

  /** Some entry before j has a label below n exactly when some id of the map has one. */
  lemma FrontLabels(entries: seq<Entry>, j: nat, idToLabel: map<Id, nat>, n: nat)
    requires j < |entries| && forall i, k :: 0 <= i < k < |entries| ==> entries[i].id != entries[k].id
    requires idToLabel == PutAll(map[], entries[..j], IdOf, TagOf)
    ensures (exists id :: id in idToLabel && idToLabel[id] < n) <==> exists i :: 0 <= i < j && entries[i].tag < n
  {
    hide PutAll;
    var front := entries[..j];
    PutAllAt(map[], front, IdOf, TagOf);
    if i :| 0 <= i < j && entries[i].tag < n {
      assert IdOf(front[i]) in idToLabel && idToLabel[IdOf(front[i])] == entries[i].tag;
    }
    if id :| id in idToLabel && idToLabel[id] < n {
      var i :| 0 <= i < j && IdOf(front[i]) == id;
      assert entries[i].tag < n;
    }
  }

  lemma FailsBelow(entries: seq<Entry>, j: nat, capacity: nat)
    requires FailsAt(entries, j, capacity)
    ensures j < |entries|
  {
  }
}
