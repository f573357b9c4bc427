/** Saved mapping files that have been cut off. A read past the end of the file stores nothing and
    sets no error that the loader looks at, so every such file loads; what it loads is what the file
    would give with its missing bytes read as zeros, which is the saved index exactly when they were
    zeros. */
module MappingCuts {
  import opened Bytes
  import opened Seqs
  import opened HnswIndexes

  // ---------------------------------------------------------------------
  // A file read past its end
  // ---------------------------------------------------------------------

  /** Bytes that are not there leave zeros in the variables read into. */
  function ByteAt(file: seq<byte>, i: nat): byte {
    if i < |file| then file[i] else 0
  }

  function Window(file: seq<byte>, pos: nat, width: nat): (r: seq<byte>)
    ensures |r| == width
  {
    seq(width, i requires 0 <= i < width => ByteAt(file, pos + i))
  }

  function WordAt(file: seq<byte>, pos: nat): nat {
    Value(Window(file, pos, WORD))
  }

  /** The stream reads what the file has from pos on, and zeros after its end. */
  ghost predicate Follows(s: Stream, file: seq<byte>, pos: nat) {
    forall i: nat :: StreamByte(s, i) == ByteAt(file, pos + i)
  }

  function StreamByte(s: Stream, i: nat): byte {
    if s.good then ByteAt(s.rest, i) else 0
  }

  lemma {:induction false} ValuePadded(bytes: seq<byte>, n: nat)
    ensures Value(bytes + Zeros(n)) == Value(bytes)
  {
    if bytes == [] {
      assert bytes + Zeros(n) == Zeros(n);
      ValueZeros(n);
    } else {
      Uncons(bytes, Zeros(n));
      ValuePadded(bytes[1..], n);
    }
  }

  lemma {:induction false} ValueZeros(n: nat)
    ensures Value(Zeros(n)) == 0
  {
    if n > 0 {
      assert Zeros(n)[1..] == Zeros(n - 1);
      ValueZeros(n - 1);
    }
  }

  lemma {:induction false} ValueInjective(a: seq<byte>, b: seq<byte>)
    requires |a| == |b| && Value(a) == Value(b)
    ensures a == b
  {
    if a != [] {
      ValueInjective(a[1..], b[1..]);
      assert a == [a[0]] + a[1..] && b == [b[0]] + b[1..];
    }
  }

  lemma {:induction false} ValueMonotone(a: seq<byte>, b: seq<byte>)
    requires |a| == |b| && forall i :: 0 <= i < |a| ==> a[i] <= b[i]
    ensures Value(a) <= Value(b)
  {
    if a != [] {
      ValueMonotone(a[1..], b[1..]);
    }
  }

  /** One read, seen from the file. */
  lemma ReadFollows(s: Stream, file: seq<byte>, pos: nat, width: nat)
    requires Follows(s, file, pos)
    ensures Value(Taken(s, width)) == Value(Window(file, pos, width))
    ensures Overwritten(Zeros(width), Taken(s, width)) == Window(file, pos, width)
    ensures Follows(Advanced(s, width), file, pos + width)
  {
    var taken := Taken(s, width);
    var padded := taken + Zeros(width - |taken|);
    forall i: nat | i < width ensures padded[i] == Window(file, pos, width)[i] {
      assert StreamByte(s, i) == ByteAt(file, pos + i);
    }
    assert padded == Window(file, pos, width);
    assert Zeros(width)[|taken|..] == Zeros(width - |taken|);
    ValuePadded(taken, width - |taken|);
    forall i: nat ensures StreamByte(Advanced(s, width), i) == ByteAt(file, pos + width + i) {
      assert StreamByte(s, width + i) == ByteAt(file, pos + (width + i));
    }
  }

  // ---------------------------------------------------------------------
  // The entries a file reads as
  // ---------------------------------------------------------------------

  function EntryAt(file: seq<byte>, pos: nat): Entry {
    var size := WordAt(file, pos);
    Entry(Window(file, pos + WORD, size), WordAt(file, pos + WORD + size))
  }

  function EntryEnd(file: seq<byte>, pos: nat): nat {
    pos + WORD + WordAt(file, pos) + WORD
  }

  function Decoded(file: seq<byte>, pos: nat, count: nat): (r: seq<Entry>)
    ensures |r| == count
    decreases count
  {
    if count == 0 then [] else [EntryAt(file, pos)] + Decoded(file, EntryEnd(file, pos), count - 1)
  }

  function EndOf(file: seq<byte>, pos: nat, count: nat): (end: nat)
    ensures end >= pos
    decreases count
  {
    if count == 0 then pos else EndOf(file, EntryEnd(file, pos), count - 1)
  }

  ghost predicate SizesFit(entries: seq<Entry>, capacity: nat) {
    forall i :: 0 <= i < |entries| ==> |entries[i].id| <= capacity
  }

  lemma LoadEntryFollows(l: Loading, file: seq<byte>, pos: nat, capacity: nat)
    requires Follows(l.stream, file, pos) && |EntryAt(file, pos).id| <= capacity
    ensures var next, e := LoadEntry(l, capacity), EntryAt(file, pos);
            && Follows(next.stream, file, EntryEnd(file, pos)) && !next.thrown
            && next.idToLabel == l.idToLabel[e.id := e.tag] && next.labelToId == l.labelToId[e.tag := e.id]
  {
    hide Follows, Taken, Advanced, Value, Window;
    var size := WordAt(file, pos);
    ReadFollows(l.stream, file, pos, WORD);
    var s := Advanced(l.stream, WORD);
    ReadFollows(s, file, pos + WORD, size);
    var t := Advanced(s, size);
    ReadFollows(t, file, pos + WORD + size, WORD);
  }

  lemma {:induction false} LoadFollows(l: Loading, file: seq<byte>, pos: nat, count: nat, capacity: nat)
    requires Follows(l.stream, file, pos) && !l.thrown && SizesFit(Decoded(file, pos, count), capacity)
    ensures var end, es := LoadEntries(l, count, capacity), Decoded(file, pos, count);
            && !end.thrown && Follows(end.stream, file, EndOf(file, pos, count))
            && end.idToLabel == PutAll(l.idToLabel, es, IdOf, TagOf)
            && end.labelToId == PutAll(l.labelToId, es, TagOf, IdOf)
    decreases count
  {
    hide Follows, LoadEntry, EntryAt, EntryEnd;
    if count > 0 {
      var es := Decoded(file, pos, count);
      assert es[0] == EntryAt(file, pos) && es[1..] == Decoded(file, EntryEnd(file, pos), count - 1);
      LoadEntryFollows(l, file, pos, capacity);
      LoadFollows(LoadEntry(l, capacity), file, EntryEnd(file, pos), count - 1, capacity);
    }
  }

  /** What a file that fits loads as, whether it is long enough or not. */
  lemma LoadedIs(file: seq<byte>, graph: set<nat>, capacity: nat)
    requires SizesFit(Decoded(file, WORD, WordAt(file, 0)), capacity)
    ensures var count := WordAt(file, 0);
            var es := Decoded(file, WORD, count);
            Loaded(Empty(), file, graph, capacity) ==
            Index(PutAll(map[], es, IdOf, TagOf), PutAll(map[], es, TagOf, IdOf),
                  WordAt(file, EndOf(file, WORD, count)), graph, true)
  {
    hide Follows, Taken, Advanced, Value, Window, LoadEntries, Decoded, EndOf, PutAll;
    var s := Stream(file, true);
    assert Follows(s, file, 0) by { FromStart(file); }
    ReadFollows(s, file, 0, WORD);
    var l := Loading(map[], map[], Advanced(s, WORD), false);
    LoadFollows(l, file, WORD, WordAt(file, 0), capacity);
    var end := LoadEntries(l, WordAt(file, 0), capacity);
    ReadFollows(end.stream, file, EndOf(file, WORD, WordAt(file, 0)), WORD);
    assert LittleEndian(0, WORD) == Zeros(WORD) by { ZeroWord(WORD); }
  }

  lemma FromStart(file: seq<byte>)
    ensures Follows(Stream(file, true), file, 0)
  {
  }

  lemma {:induction false} ZeroWord(width: nat)
    ensures LittleEndian(0, width) == Zeros(width)
  {
    if width > 0 {
      ZeroWord(width - 1);
    }
  }

  // ---------------------------------------------------------------------
  // A saved file reads as what was saved
  // ---------------------------------------------------------------------

  lemma WindowInside(file: seq<byte>, before: seq<byte>, part: seq<byte>, rest: seq<byte>)
    requires file == before + (part + rest)
    ensures Window(file, |before|, |part|) == part
  {
    forall i | 0 <= i < |part| ensures Window(file, |before|, |part|)[i] == part[i] {
      assert |before| + i < |file| && file[|before| + i] == (part + rest)[i] == part[i];
      assert ByteAt(file, |before| + i) == part[i];
    }
  }

  lemma EncodedEntryAt(file: seq<byte>, before: seq<byte>, e: Entry, rest: seq<byte>)
    requires file == before + (EncodeEntry(e) + rest)
    requires |e.id| < Pow256(WORD) && e.tag < Pow256(WORD)
    ensures EntryAt(file, |before|) == e && EntryEnd(file, |before|) == |before| + |EncodeEntry(e)|
  {
    hide Window, Value, LittleEndian;
    var size, tag := LittleEndian(|e.id|, WORD), LittleEndian(e.tag, WORD);
    ValueOfLittleEndian(|e.id|, WORD);
    ValueOfLittleEndian(e.tag, WORD);
    assert file == before + (size + (e.id + tag + rest));
    WindowInside(file, before, size, e.id + tag + rest);
    assert file == (before + size) + (e.id + (tag + rest));
    WindowInside(file, before + size, e.id, tag + rest);
    assert file == (before + size + e.id) + (tag + rest);
    WindowInside(file, before + size + e.id, tag, rest);
  }

  lemma {:induction false} EncodedEntriesAt(file: seq<byte>, before: seq<byte>, entries: seq<Entry>, rest: seq<byte>)
    requires file == before + (EncodeEntries(entries) + rest)
    requires forall i :: 0 <= i < |entries| ==> |entries[i].id| < Pow256(WORD) && entries[i].tag < Pow256(WORD)
    ensures Decoded(file, |before|, |entries|) == entries
    ensures EndOf(file, |before|, |entries|) == |before| + |EncodeEntries(entries)|
    decreases |entries|
  {
    hide EncodeEntry, EntryAt, EntryEnd, Pow256;
    if entries != [] {
      var e, more := entries[0], EncodeEntries(entries[1..]);
      Assoc(EncodeEntry(e), more, rest);
      EncodedEntryAt(file, before, e, more + rest);
      Assoc(before, EncodeEntry(e), more + rest);
      EncodedEntriesAt(file, before + EncodeEntry(e), entries[1..], rest);
    }
  }

  /** A saved file: its count, its entries, where they end, and the next label there. */
  lemma SavedReads(x: Index, entries: seq<Entry>, file: seq<byte>, capacity: nat)
    requires Consistent(x) && Fits(x, capacity) && Lists(entries, x.idToLabel)
    requires file == EncodeFile(entries, x.nextLabel)
    ensures WordAt(file, 0) == |entries| && Decoded(file, WORD, |entries|) == entries
    ensures EndOf(file, WORD, |entries|) + WORD == |file|
    ensures WordAt(file, EndOf(file, WORD, |entries|)) == x.nextLabel
    ensures SizesFit(entries, capacity)
    ensures x.nextLabel == 0 ==> entries == []
  {
    hide Window, Value, LittleEndian, EncodeEntries, Decoded, EndOf, Lists, Pow256;
    var head, body, tail := LittleEndian(|entries|, WORD), EncodeEntries(entries), LittleEndian(x.nextLabel, WORD);
    EntriesFit(x, entries, capacity);
    ValueOfLittleEndian(|entries|, WORD);
    ValueOfLittleEndian(x.nextLabel, WORD);
    assert file == [] + (head + (body + tail));
    WindowInside(file, [], head, body + tail);
    EncodedEntriesAt(file, head, entries, tail);
    assert file == (head + body) + (tail + []);
    WindowInside(file, head + body, tail, []);
    EntriesNeedLabels(x, entries);
  }

  lemma EntriesNeedLabels(x: Index, entries: seq<Entry>)
    requires Consistent(x) && Lists(entries, x.idToLabel)
    ensures x.nextLabel == 0 ==> entries == []
  {
    if entries != [] {
      assert x.labelToId[entries[0].tag] == entries[0].id;
    }
  }

  // ---------------------------------------------------------------------
  // A file cut at k
  // ---------------------------------------------------------------------

  lemma CutBytes(file: seq<byte>, k: nat)
    requires k <= |file|
    ensures forall i: nat :: ByteAt(file[..k], i) == if i < k then ByteAt(file, i) else 0
  {
  }

  /** What lies before the cut reads the same, what reaches past it reads no larger. */
  lemma CutWord(file: seq<byte>, k: nat, pos: nat)
    requires k <= |file|
    ensures WordAt(file[..k], pos) <= WordAt(file, pos)
    ensures pos + WORD <= k ==> WordAt(file[..k], pos) == WordAt(file, pos)
    ensures k <= pos ==> WordAt(file[..k], pos) == 0
  {
    hide Value;
    CutBytes(file, k);
    ValueMonotone(Window(file[..k], pos, WORD), Window(file, pos, WORD));
    if pos + WORD <= k {
      assert Window(file[..k], pos, WORD) == Window(file, pos, WORD);
    }
    if k <= pos {
      assert Window(file[..k], pos, WORD) == Zeros(WORD);
      ValueZeros(WORD);
    }
  }

  lemma CutEntry(file: seq<byte>, k: nat, pos: nat)
    requires k <= |file|
    ensures |EntryAt(file[..k], pos).id| <= |EntryAt(file, pos).id|
    ensures EntryEnd(file, pos) <= k ==>
              EntryAt(file[..k], pos) == EntryAt(file, pos) && EntryEnd(file[..k], pos) == EntryEnd(file, pos)
    ensures k < EntryEnd(file, pos) ==> k <= EntryEnd(file[..k], pos)
    ensures k <= pos ==> EntryAt(file[..k], pos).id == []
  {
    hide WordAt;
    var size := WordAt(file, pos);
    CutWord(file, k, pos);
    CutWord(file, k, pos + WORD + size);
    if EntryEnd(file, pos) <= k {
      CutBytes(file, k);
      assert Window(file[..k], pos + WORD, size) == Window(file, pos + WORD, size);
    }
  }

  /** Past the cut every entry is empty. */
  lemma {:induction false} DecodedPastCut(file: seq<byte>, k: nat, pos: nat, count: nat, capacity: nat)
    requires k <= |file| && k <= pos
    ensures SizesFit(Decoded(file[..k], pos, count), capacity)
    decreases count
  {
    hide EntryAt, EntryEnd;
    if count > 0 {
      var cut := file[..k];
      CutEntry(file, k, pos);
      assert EntryEnd(cut, pos) >= pos by { EndsLater(cut, pos); }
      DecodedPastCut(file, k, EntryEnd(cut, pos), count - 1, capacity);
    }
  }

  lemma EndsLater(file: seq<byte>, pos: nat)
    ensures EntryEnd(file, pos) >= pos
  {
  }

  /** The entries of a cut file fit as well; if they all lie before the cut they end where they
      did, and otherwise they end past it. */
  lemma {:induction false} CutDecoded(file: seq<byte>, k: nat, pos: nat, count: nat, capacity: nat)
    requires k <= |file| && pos <= k && SizesFit(Decoded(file, pos, count), capacity)
    ensures SizesFit(Decoded(file[..k], pos, count), capacity)
    ensures EndOf(file, pos, count) <= k ==> EndOf(file[..k], pos, count) == EndOf(file, pos, count)
    ensures k < EndOf(file, pos, count) ==> k <= EndOf(file[..k], pos, count)
    decreases count
  {
    hide EntryAt, EntryEnd;
    if count > 0 {
      var cut, end := file[..k], EntryEnd(file, pos);
      var es := Decoded(file, pos, count);
      assert es[0] == EntryAt(file, pos) && es[1..] == Decoded(file, end, count - 1);
      CutEntry(file, k, pos);
      if end <= k {
        CutDecoded(file, k, end, count - 1, capacity);
      } else {
        DecodedPastCut(file, k, EntryEnd(cut, pos), count - 1, capacity);
      }
    }
  }

  /** The entries of a cut saved file fit, so it is read to the end; and unless the cut is in its
      last word, the next label is read as zero. */
  lemma CutReads(x: Index, entries: seq<Entry>, file: seq<byte>, k: nat, capacity: nat)
    requires Consistent(x) && Fits(x, capacity) && Lists(entries, x.idToLabel)
    requires file == EncodeFile(entries, x.nextLabel) && k <= |file|
    ensures var cut := file[..k];
            var count := WordAt(cut, 0);
            && SizesFit(Decoded(cut, WORD, count), capacity)
            && (WORD <= k && |file| <= k + WORD ==>
                  count == |entries| && EndOf(cut, WORD, count) == |file| - WORD)
            && (k < WORD || k + WORD < |file| ==> WordAt(cut, EndOf(cut, WORD, count)) == 0)
  {
    hide WordAt, Decoded, EndOf;
    var cut := file[..k];
    SavedReads(x, entries, file, capacity);
    CutWord(file, k, 0);
    if k < WORD {
      DecodedPastCut(file, k, WORD, WordAt(cut, 0), capacity);
    } else {
      CutDecoded(file, k, WORD, |entries|, capacity);
    }
    CutWord(file, k, EndOf(cut, WORD, WordAt(cut, 0)));
  }

  /** A saved file cut off anywhere is accepted as a success. */
  lemma CutFileAccepted(x: Index, file: seq<byte>, k: nat, graph: set<nat>, capacity: nat)
    requires Consistent(x) && Fits(x, capacity) && IsSaved(x, file) && k <= |file|
    ensures Loaded(Empty(), file[..k], graph, capacity).initialized
  {
    hide WordAt, Decoded, EndOf, Loaded, Lists, EncodeFile;
    var entries :| Lists(entries, x.idToLabel) && file == EncodeFile(entries, x.nextLabel);
    CutReads(x, entries, file, k, capacity);
    LoadedIs(file[..k], graph, capacity);
  }

  lemma SameWords(a: seq<byte>, b: seq<byte>)
    requires forall i: nat :: ByteAt(a, i) == ByteAt(b, i)
    ensures forall pos: nat, width: nat :: Window(a, pos, width) == Window(b, pos, width)
  {
    forall pos: nat, width: nat ensures Window(a, pos, width) == Window(b, pos, width) {
      assert forall i: nat :: i < width ==> Window(a, pos, width)[i] == Window(b, pos, width)[i];
    }
  }

  lemma {:induction false} SameDecoded(a: seq<byte>, b: seq<byte>, pos: nat, count: nat)
    requires forall p: nat, width: nat :: Window(a, p, width) == Window(b, p, width)
    ensures Decoded(a, pos, count) == Decoded(b, pos, count) && EndOf(a, pos, count) == EndOf(b, pos, count)
    decreases count
  {
    if count > 0 {
      SameDecoded(a, b, EntryEnd(a, pos), count - 1);
    }
  }

  /** It restores the index exactly when all that was cut off is zero bytes. */
  lemma CutFileHarmlessIff(x: Index, file: seq<byte>, k: nat, graph: set<nat>, capacity: nat)
    requires Consistent(x) && Fits(x, capacity) && IsSaved(x, file) && k <= |file|
    ensures Loaded(Empty(), file[..k], graph, capacity) == x.(points := graph, initialized := true) <==>
            forall j :: k <= j < |file| ==> file[j] == 0
  {
    hide WordAt, Decoded, EndOf, Loaded, Lists, EncodeFile, Window, Fits, Consistent;
    var entries :| Lists(entries, x.idToLabel) && file == EncodeFile(entries, x.nextLabel);
    if forall j :: k <= j < |file| ==> file[j] == 0 {
      ZerosHarmless(x, entries, file, k, graph, capacity);
    }
    if Loaded(Empty(), file[..k], graph, capacity) == x.(points := graph, initialized := true) {
      HarmlessZeros(x, entries, file, k, graph, capacity);
    }
  }

  lemma ZerosHarmless(x: Index, entries: seq<Entry>, file: seq<byte>, k: nat, graph: set<nat>, capacity: nat)
    requires Consistent(x) && Fits(x, capacity) && Lists(entries, x.idToLabel)
    requires file == EncodeFile(entries, x.nextLabel) && k <= |file|
    requires forall j :: k <= j < |file| ==> file[j] == 0
    ensures Loaded(Empty(), file[..k], graph, capacity) == x.(points := graph, initialized := true)
  {
    hide Decoded, EndOf, Loaded, Lists, EncodeFile, Window, Fits, Consistent;
    var cut, count := file[..k], |entries|;
    SavedReads(x, entries, file, capacity);
    SaveThenLoad(x, file, Empty(), graph, capacity);
    CutBytes(file, k);
    SameWords(cut, file);
    SameDecoded(cut, file, WORD, count);
    LoadedIs(file, graph, capacity);
    LoadedIs(cut, graph, capacity);
  }

  lemma HarmlessZeros(x: Index, entries: seq<Entry>, file: seq<byte>, k: nat, graph: set<nat>, capacity: nat)
    requires Consistent(x) && Fits(x, capacity) && Lists(entries, x.idToLabel)
    requires file == EncodeFile(entries, x.nextLabel) && k <= |file|
    requires Loaded(Empty(), file[..k], graph, capacity).nextLabel == x.nextLabel
    ensures forall j :: k <= j < |file| ==> file[j] == 0
  {
    hide Decoded, EndOf, Loaded, Lists, EncodeFile, Fits, Consistent, Value;
    var cut := file[..k];
    var end := |file| - WORD;
    SavedReads(x, entries, file, capacity);
    CutReads(x, entries, file, k, capacity);
    LoadedIs(cut, graph, capacity);
    CutBytes(file, k);
    if WORD <= k && end <= k {
      ValueInjective(Window(cut, end, WORD), Window(file, end, WORD));
      forall j | k <= j < |file| ensures file[j] == 0 {
        var i := j - end;
        assert Window(cut, end, WORD)[i] == Window(file, end, WORD)[i];
        assert ByteAt(cut, end + i) == ByteAt(file, end + i) && end + i == j;
      }
    } else {
      EmptyFileZeros(x, file);
    }
  }

  /** An index without entries and labels saves as zeros. */
  lemma EmptyFileZeros(x: Index, file: seq<byte>)
    requires file == EncodeFile([], 0)
    ensures forall j :: 0 <= j < |file| ==> file[j] == 0
  {
    ZeroWord(WORD);
  }
}
