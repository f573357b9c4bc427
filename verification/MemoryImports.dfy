/** The indexes after any import, of an export or not. An import posts every element under its tags and
    dimensions and never takes a posting back, but an element whose id comes again is replaced, so the
    postings of all elements but the last of each id are stale. */
module MemoryImports {
  import opened Seqs
  import opened PostingLists
  import opened StructuredMemories

  /** How often an element posts its id under a tag, and under a place. */
  function UnderTag(tag: string): Exported -> nat {
    (x: Exported) => multiset(x.tags)[tag]
  }

  function UnderPlace(p: Place): Exported -> nat {
    (x: Exported) => var d := DimensionsFrom(x.dimensions); if p.0 in d && d[p.0] == p.1 then 1 else 0
  }

  /** The postings of an id by all elements that have it, and by all of them but the last. */
  function Total(under: Exported -> nat, xs: seq<Exported>, id: string): nat {
    if xs == [] then 0
    else
      var n := |xs| - 1;
      Total(under, xs[..n], id) + if xs[n].id == id then under(xs[n]) else 0
  }

  function Stale(under: Exported -> nat, xs: seq<Exported>, id: string): nat {
    if xs == [] then 0
    else
      var n := |xs| - 1;
      if xs[n].id == id then Total(under, xs[..n], id) else Stale(under, xs[..n], id)
  }

  lemma {:induction false} ImportTags(tokenize: string -> seq<string>, xs: seq<Exported>, m: Memory,
                                      tag: string, id: string)
    requires IsImport(tokenize, xs, m)
    ensures Count(m.tags, tag, id) == Total(UnderTag(tag), xs, id)
    ensures Total(UnderTag(tag), xs, id) ==
            Stale(UnderTag(tag), xs, id) + if id in m.entries then multiset(m.entries[id].metadata.tags)[tag] else 0
  {
    if xs != [] {
      var n := |xs| - 1;
      var x := xs[n];
      var before :| IsImport(tokenize, xs[..n], before) && IsStored(before, x.id, ImportedEntry(tokenize, x), m);
      hide IsImport, Count, DimensionsFrom, TokensOf;
      ImportTags(tokenize, xs[..n], before, tag, id);
      PostAllCount(before.tags, x.tags, x.id, tag, id);
    }
  }

  lemma {:induction false} ImportPlaces(tokenize: string -> seq<string>, xs: seq<Exported>, m: Memory,
                                        p: Place, id: string)
    requires IsImport(tokenize, xs, m)
    ensures Count(m.places, p, id) == Total(UnderPlace(p), xs, id)
    ensures Total(UnderPlace(p), xs, id) ==
            Stale(UnderPlace(p), xs, id) + if id in m.entries && HasPlace(m.entries[id], p) then 1 else 0
  {
    if xs != [] {
      var n := |xs| - 1;
      var x := xs[n];
      var e := ImportedEntry(tokenize, x);
      var before :| IsImport(tokenize, xs[..n], before) && IsStored(before, x.id, e, m);
      var walk :| IsWalk(walk, e.metadata.dimensions) && m.places == PostAll(before.places, walk, x.id);
      hide IsImport, Count, DimensionsFrom, TokensOf;
      ImportPlaces(tokenize, xs[..n], before, p, id);
      PostAllCount(before.places, walk, x.id, p, id);
      WalkCount(walk, e, p);
    }
  }

  predicate NothingStale(xs: seq<Exported>, id: string, under: Exported -> nat) {
    Stale(under, xs, id) == 0
  }

  lemma TagsAgreeIff(tokenize: string -> seq<string>, xs: seq<Exported>, m: Memory)
    requires IsImport(tokenize, xs, m)
    ensures TagsAgree(m) <==> forall tag, id :: NothingStale(xs, id, UnderTag(tag))
  {
    hide IsImport, Count, Total, UnderTag;
    if TagsAgree(m) {
      forall tag, id ensures NothingStale(xs, id, UnderTag(tag)) {
        ImportTags(tokenize, xs, m, tag, id);
      }
    }
    if forall tag, id :: NothingStale(xs, id, UnderTag(tag)) {
      forall tag, id
        ensures Count(m.tags, tag, id) == if id in m.entries then multiset(m.entries[id].metadata.tags)[tag] else 0
      {
        ImportTags(tokenize, xs, m, tag, id);
        assert NothingStale(xs, id, UnderTag(tag));
      }
    }
  }

  lemma PlacesAgreeIff(tokenize: string -> seq<string>, xs: seq<Exported>, m: Memory)
    requires IsImport(tokenize, xs, m)
    ensures PlacesAgree(m) <==> forall p, id :: NothingStale(xs, id, UnderPlace(p))
  {
    hide IsImport, Count, HasPlace, Total, UnderPlace;
    if PlacesAgree(m) {
      forall p, id ensures NothingStale(xs, id, UnderPlace(p)) {
        ImportPlaces(tokenize, xs, m, p, id);
      }
    }
    if forall p, id :: NothingStale(xs, id, UnderPlace(p)) {
      forall p, id
        ensures Count(m.places, p, id) == if id in m.entries && HasPlace(m.entries[id], p) then 1 else 0
      {
        ImportPlaces(tokenize, xs, m, p, id);
        assert NothingStale(xs, id, UnderPlace(p));
      }
    }
  }

  lemma {:induction false} TotalZeroIff(under: Exported -> nat, xs: seq<Exported>, id: string)
    ensures Total(under, xs, id) == 0 <==> forall i :: 0 <= i < |xs| && xs[i].id == id ==> under(xs[i]) == 0
  {
    if xs != [] {
      var n := |xs| - 1;
      TotalZeroIff(under, xs[..n], id);
      assert forall i :: 0 <= i < n ==> xs[..n][i] == xs[i];
    }
  }

  /** Every element that a later one with its id replaces posts nothing there. */
  predicate NoneLeft(under: Exported -> nat, xs: seq<Exported>, id: string) {
    forall i, j :: 0 <= i < j < |xs| && xs[i].id == id == xs[j].id ==> under(xs[i]) == 0
  }

  lemma {:induction false} StaleZeroIff(under: Exported -> nat, xs: seq<Exported>, id: string)
    ensures NothingStale(xs, id, under) <==> NoneLeft(under, xs, id)
  {
    if xs != [] {
      var n := |xs| - 1;
      StaleZeroIff(under, xs[..n], id);
      TotalZeroIff(under, xs[..n], id);
      assert forall i :: 0 <= i < n ==> xs[..n][i] == xs[i];
      if xs[n].id == id && NoneLeft(under, xs, id) {
        forall i | 0 <= i < n && xs[..n][i].id == id ensures under(xs[..n][i]) == 0 {
          assert xs[i].id == id == xs[n].id;
        }
      }
    }
  }

  predicate Bare(x: Exported) {
    x.tags == [] && x.dimensions == []
  }

  lemma BareIff(x: Exported)
    ensures Bare(x) <==> (forall tag :: UnderTag(tag)(x) == 0) && (forall p :: UnderPlace(p)(x) == 0)
  {
    if x.tags != [] {
      assert UnderTag(x.tags[0])(x) > 0;
    }
    if x.dimensions != [] {
      var last := x.dimensions[|x.dimensions| - 1];
      assert UnderPlace((StringToDimension(last.0), last.1))(x) == 1;
    }
  }

  /** Of the elements with one id, only the last has tags or dimensions. */
  predicate LastOnly(xs: seq<Exported>) {
    forall i, j :: 0 <= i < j < |xs| && xs[i].id == xs[j].id ==> Bare(xs[i])
  }

  lemma LastOnlyIff(xs: seq<Exported>)
    ensures LastOnly(xs) <==> (forall tag, id :: NothingStale(xs, id, UnderTag(tag))) &&
                              (forall p, id :: NothingStale(xs, id, UnderPlace(p)))
  {
    hide UnderTag, UnderPlace, Bare, NothingStale;
    if LastOnly(xs) {
      forall i | 0 <= i < |xs| && Bare(xs[i])
        ensures forall tag :: UnderTag(tag)(xs[i]) == 0
        ensures forall p :: UnderPlace(p)(xs[i]) == 0
      {
        BareIff(xs[i]);
      }
      forall tag, id ensures NothingStale(xs, id, UnderTag(tag)) {
        StaleZeroIff(UnderTag(tag), xs, id);
      }
      forall p, id ensures NothingStale(xs, id, UnderPlace(p)) {
        StaleZeroIff(UnderPlace(p), xs, id);
      }
    }
    if && (forall tag, id :: NothingStale(xs, id, UnderTag(tag)))
       && (forall p, id :: NothingStale(xs, id, UnderPlace(p)))
    {
      forall i, j | 0 <= i < j < |xs| && xs[i].id == xs[j].id ensures Bare(xs[i]) {
        forall tag ensures UnderTag(tag)(xs[i]) == 0 {
          StaleZeroIff(UnderTag(tag), xs, xs[i].id);
        }
        forall p ensures UnderPlace(p)(xs[i]) == 0 {
          StaleZeroIff(UnderPlace(p), xs, xs[i].id);
        }
        BareIff(xs[i]);
      }
    }
  }

  /** After any import the indexes are in step with the entries exactly when of the elements with the
      same id only the last has tags or dimensions. */
  lemma ImportValidIff(tokenize: string -> seq<string>, xs: seq<Exported>, m: Memory)
    requires IsImport(tokenize, xs, m)
    ensures Valid(m) <==> LastOnly(xs)
  {
    hide IsImport, PlacesAgree, TagsAgree, LastOnly;
    TagsAgreeIff(tokenize, xs, m);
    PlacesAgreeIff(tokenize, xs, m);
    LastOnlyIff(xs);
  }
}
