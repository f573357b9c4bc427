/** Dot-path updates of the configuration: split_dot_path, SetValue and UnsetValue. */
module ConfigPaths {
  import opened QueueText
  import opened Seqs

  type Path = seq<string>

  /** A JSON value; texts of numbers and booleans are not looked into. */
  datatype Json = Null | Scalar(text: string) | Array(items: seq<Json>) | Object(fields: map<string, Json>)

  // ---------------------------------------------------------------------
  // Splitting a path
  // ---------------------------------------------------------------------

  /** The segments between the dots; what follows the last dot counts only if it is not empty. */
  function Segments(path: string): Path {
    if path == "" then []
    else if '.' !in path then [path]
    else [path[..IndexOf(path, '.')]] + Segments(path[IndexOf(path, '.') + 1..])
  }

  function DotJoin(parts: Path): string {
    if parts == [] then ""
    else if |parts| == 1 then parts[0]
    else parts[0] + ("." + DotJoin(parts[1..]))
  }

  lemma SegmentsAt(path: string, start: nat)
    requires start < |path|
    ensures var rest := path[start..];
            if '.' in rest then
              var dot := start + IndexOf(rest, '.');
              Segments(rest) == [path[start..dot]] + Segments(path[dot + 1..])
            else Segments(rest) == [rest]
  {
    hide IndexOf;
    var rest := path[start..];
    if '.' in rest {
      var d := IndexOf(rest, '.');
      assert rest[..d] == path[start..start + d] && rest[d + 1..] == path[start + d + 1..];
    }
  }

  /** The first segment of a path that has a dot. */
  lemma SegmentsOf(first: string, rest: string)
    requires '.' !in first
    ensures Segments(first + ("." + rest)) == [first] + Segments(rest)
  {
    IndexOfFirst(first, '.', rest);
  }

  method SplitDotPath(path: string) returns (parts: Path)
    ensures parts == Segments(path)
  {
    hide Segments, IndexOf;
    parts := [];
    var start := 0;
    Whole(path);
    while start < |path|
      invariant 0 <= start <= |path|
      invariant parts + Segments(path[start..]) == Segments(path)
    {
      SegmentsAt(path, start);
      if '.' !in path[start..] {
        parts := parts + [path[start..]];
        return;
      }
      var dot := start + IndexOf(path[start..], '.');
      Assoc(parts, [path[start..dot]], Segments(path[dot + 1..]));
      parts := parts + [path[start..dot]];
      start := dot + 1;
    }
    Whole(path);
    Whole(parts);
    assert Segments("") == [] by { NoSegments(); }
  }

  lemma NoSegments()
    ensures Segments("") == []
  {
  }

  predicate DotFree(parts: Path) {
    forall i :: 0 <= i < |parts| ==> '.' !in parts[i]
  }

  predicate EndsProperly(parts: Path) {
    parts == [] || parts[|parts| - 1] != ""
  }

  lemma {:induction false} SegmentsShape(path: string)
    ensures DotFree(Segments(path)) && (path != "" ==> Segments(path) != [])
    decreases |path|
  {
    if '.' in path {
      var first, rest := SplitAtFirst(path, '.');
      SegmentsShape(rest);
    }
  }

  /** An empty last segment is lost. */
  lemma {:induction false} EmptyLastLost(parts: Path)
    requires DotFree(parts) && !EndsProperly(parts)
    ensures |Segments(DotJoin(parts))| == |parts| - 1
  {
    if |parts| > 1 {
      var rest := parts[1..];
      assert rest[|rest| - 1] == parts[|parts| - 1];
      EmptyLastLost(rest);
      SegmentsOf(parts[0], DotJoin(rest));
    }
  }

  lemma {:induction false} JoinedSegments(parts: Path)
    requires DotFree(parts) && EndsProperly(parts)
    ensures Segments(DotJoin(parts)) == parts
  {
    if |parts| > 1 {
      var rest := parts[1..];
      assert EndsProperly(rest) && rest[|rest| - 1] == parts[|parts| - 1];
      JoinedSegments(rest);
      hide Segments;
      SegmentsOf(parts[0], DotJoin(rest));
    }
  }

  /** Splitting undoes joining exactly for dot-free segments the last of which is not empty. */
  lemma SplitJoinIff(parts: Path)
    ensures Segments(DotJoin(parts)) == parts <==> DotFree(parts) && EndsProperly(parts)
  {
    SegmentsShape(DotJoin(parts));
    if DotFree(parts) && EndsProperly(parts) {
      JoinedSegments(parts);
    } else if DotFree(parts) {
      EmptyLastLost(parts);
    }
  }

  /** Joining undoes splitting exactly for paths that do not end in a dot. */
  lemma {:induction false} JoinSplitIff(path: string)
    ensures DotJoin(Segments(path)) == path <==> path == "" || path[|path| - 1] != '.'
    decreases |path|
  {
    if '.' in path {
      var first, rest := SplitAtFirst(path, '.');
      JoinSplitIff(rest);
      SegmentsShape(rest);
      if rest == "" {
        assert path == first + "." && DotJoin(Segments(path)) == first;
      } else {
        assert DotJoin(Segments(path)) == first + ("." + DotJoin(Segments(rest)));
        assert path[|path| - 1] == rest[|rest| - 1];
        Assoc(first, ".", DotJoin(Segments(rest)));
        Assoc(first, ".", rest);
        if DotJoin(Segments(path)) == path {
          SameFront(first + ".", DotJoin(Segments(rest)), rest);
        }
      }
    }
  }

  lemma SameFront(front: string, a: string, b: string)
    requires front + a == front + b
    ensures a == b
  {
    assert a == (front + a)[|front|..];
    assert b == (front + b)[|front|..];
  }

  // ---------------------------------------------------------------------
  // Updating the tree
  // ---------------------------------------------------------------------

  /** The value at a path. */
  function Lookup(j: Json, path: Path): Maybe<Json>
    decreases |path|
  {
    if path == [] then Just(j)
    else if j.Object? && path[0] in j.fields then Lookup(j.fields[path[0]], path[1..])
    else Nothing
  }

  /** The fields of an object; anything else counts as having none. */
  function FieldsOf(j: Json): map<string, Json> {
    if j.Object? then j.fields else map[]
  }

  /** The tree with a value put at a path, objects being made on the way where there are none. */
  function Put(j: Json, path: Path, value: Json): Json
    decreases |path|
  {
    if path == [] then value
    else
      var fields := FieldsOf(j);
      var child := if path[0] in fields then fields[path[0]] else Null;
      Object(fields[path[0] := Put(child, path[1..], value)])
  }

  predicate IsObjectAt(j: Json, path: Path) {
    Lookup(j, path).Just? && Lookup(j, path).value.Object?
  }

  /** The tree without the value at a path. */
  function Without(j: Json, path: Path): Json
    requires path != [] && IsObjectAt(j, path[..|path| - 1])
    decreases |path|
  {
    if |path| == 1 then Object(j.fields - {path[0]})
    else
      assert path[..|path| - 1][1..] == path[1..][..|path| - 2];
      Object(j.fields[path[0] := Without(j.fields[path[0]], path[1..])])
  }

  datatype Written = Written(root: Json) | Unwritten | EmptyPath | TypeError

  /** Assigning a key of a null value makes it an object; of any other non-object it throws. */
  predicate Assignable(j: Json) {
    j.Object? || j.Null?
  }

  /** Every step on the way is an object, the value at the end excepted. */
  predicate ObjectsAlong(j: Json, path: Path)
    decreases |path|
  {
    || |path| <= 1
    || (j.Object? && path[0] in j.fields && j.fields[path[0]].Object? && ObjectsAlong(j.fields[path[0]], path[1..]))
  }

  /** Walks down, making an object wherever there is none; a pointer into the tree is the path to it. */
  method SetValue(root: Json, dotPath: string, value: Json) returns (r: Written)
    ensures var parts := Segments(dotPath);
            r == if parts == [] then EmptyPath
                 else if root.Object? || root.Null? then Written(Put(root, parts, value))
                 else TypeError
  {
    var parts := SplitDotPath(dotPath);
    if parts == [] {
      return EmptyPath;
    }
    var tree, i := root, 0;
    while i + 1 < |parts|
      invariant 0 <= i < |parts|
      invariant ObjectsAlong(tree, parts[..i + 1])
      invariant if i == 0 then tree == root else Assignable(root)
      invariant Put(tree, parts, value) == Put(root, parts, value)
    {
      var child := Lookup(tree, parts[..i + 1]);
      if child.Nothing? || !child.value.Object? {
        if i == 0 && !Assignable(root) {
          return TypeError;
        }
        MakeObject(tree, parts, i + 1, value);
        tree := Put(tree, parts[..i + 1], Object(map[]));
      } else {
        FoundObject(tree, parts, i + 1);
      }
      i := i + 1;
    }
    if i == 0 && !Assignable(root) {
      return TypeError;
    }
    return Written(Put(tree, parts, value));
  }

  lemma {:induction false} MakeObject(j: Json, path: Path, k: nat, value: Json)
    requires 0 < k < |path| && ObjectsAlong(j, path[..k]) && !IsObjectAt(j, path[..k])
    ensures var made := Put(j, path[..k], Object(map[]));
            ObjectsAlong(made, path[..k + 1]) && Put(made, path, value) == Put(j, path, value)
    decreases k
  {
    Prefixes(path, k);
    Prefixes(path, k + 1);
    if k == 1 {
      assert Put(j, path[..1], Object(map[])) == Object(FieldsOf(j)[path[0] := Put(Null, [], Object(map[]))]);
      var made := Object(FieldsOf(j)[path[0] := Object(map[])]);
      assert Put(j, path[..1], Object(map[])) == made;
      OneStep(j, path);
      PutOverNothing(if path[0] in FieldsOf(j) then FieldsOf(j)[path[0]] else Null, path[1..], value);
      var fields := made.fields[path[0] := Put(Object(map[]), path[1..], value)];
      assert fields == FieldsOf(j)[path[0] := Put(Object(map[]), path[1..], value)];
    } else {
      var child := j.fields[path[0]];
      MakeObject(child, path[1..], k - 1, value);
      var made := Put(child, path[1..][..k - 1], Object(map[]));
      assert Put(j, path[..k], Object(map[])) == Object(j.fields[path[0] := made]);
      assert j.fields[path[0] := made][path[0] := Put(made, path[1..], value)] ==
             j.fields[path[0] := Put(made, path[1..], value)];
      MadeIsObject(child, path[1..][..k - 1]);
    }
  }

  lemma OneStep(j: Json, path: Path)
    requires path != []
    ensures IsObjectAt(j, path[..1]) <==> path[0] in FieldsOf(j) && FieldsOf(j)[path[0]].Object?
  {
    var step := path[..1];
    assert step[0] == path[0] && step[1..] == [];
    assert Lookup(j, step) == if j.Object? && path[0] in j.fields then Lookup(j.fields[path[0]], []) else Nothing;
  }

  lemma Prefixes(path: Path, k: nat)
    requires 0 < k <= |path|
    ensures path[..k] != [] && path[..k][0] == path[0] && path[..k][1..] == path[1..][..k - 1]
  {
  }

  /** What is not an object is put into like an empty one. */
  lemma PutOverNothing(j: Json, path: Path, value: Json)
    requires path != [] && !j.Object?
    ensures Put(j, path, value) == Put(Object(map[]), path, value)
  {
  }

  lemma MadeIsObject(j: Json, path: Path)
    ensures Put(j, path, Object(map[])).Object?
  {
  }

  lemma {:induction false} FoundObject(j: Json, path: Path, k: nat)
    requires 0 < k < |path| && ObjectsAlong(j, path[..k]) && IsObjectAt(j, path[..k])
    ensures ObjectsAlong(j, path[..k + 1])
    decreases k
  {
    Prefixes(path, k);
    Prefixes(path, k + 1);
    if k == 1 {
      assert Lookup(j, path[..1]) == Just(j.fields[path[0]]);
    } else {
      FoundObject(j.fields[path[0]], path[1..], k - 1);
    }
  }

  method UnsetValue(root: Json, dotPath: string) returns (r: Written)
    ensures var parts := Segments(dotPath);
            r == if parts == [] then EmptyPath
                 else if IsObjectAt(root, parts[..|parts| - 1]) then Written(Without(root, parts))
                 else if |parts| == 1 then TypeError else Unwritten
  {
    var parts := SplitDotPath(dotPath);
    if parts == [] {
      return EmptyPath;
    }
    var node, i := root, 0;
    while i + 1 < |parts|
      invariant 0 <= i < |parts| && Lookup(root, parts[..i]) == Just(node)
      invariant i > 0 ==> node.Object?
    {
      LookupSnoc(root, parts, i);
      if !node.Object? || parts[i] !in node.fields || !node.fields[parts[i]].Object? {
        NoObjectBelow(root, parts, i + 1);
        return Unwritten;
      }
      node := node.fields[parts[i]];
      i := i + 1;
    }
    if !node.Object? {
      return TypeError;
    }
    return Written(Without(root, parts));
  }

  lemma {:induction false} LookupSnoc(j: Json, path: Path, i: nat)
    requires i < |path| && Lookup(j, path[..i]).Just?
    ensures var node := Lookup(j, path[..i]).value;
            Lookup(j, path[..i + 1]) ==
            if node.Object? && path[i] in node.fields then Just(node.fields[path[i]]) else Nothing
    decreases i
  {
    LookupConcat(j, path[..i], [path[i]]);
    SplitAt(path, i);
  }

  /** Looking up a path is looking up its front and then its rest. */
  lemma {:induction false} LookupConcat(j: Json, a: Path, b: Path)
    ensures Lookup(j, a + b) == if Lookup(j, a).Just? then Lookup(Lookup(j, a).value, b) else Nothing
    decreases |a|
  {
    if a == [] {
      assert a + b == b;
    } else {
      Uncons(a, b);
      if j.Object? && a[0] in j.fields {
        LookupConcat(j.fields[a[0]], a[1..], b);
      }
    }
  }

  lemma NoObjectBelow(j: Json, path: Path, k: nat)
    requires k < |path| && !IsObjectAt(j, path[..k])
    ensures !IsObjectAt(j, path[..|path| - 1])
  {
    var n := |path| - 1;
    LookupConcat(j, path[..k], path[k..n]);
    assert path[..k] + path[k..n] == path[..n];
  }

  // ---------------------------------------------------------------------
  // Lens laws
  // ---------------------------------------------------------------------

  /** After a set, the path and everything below it read as the value. */
  lemma {:induction false} PutThenLookup(j: Json, path: Path, value: Json, below: Path)
    ensures Lookup(Put(j, path, value), path + below) == Lookup(value, below)
    decreases |path|
  {
    if path == [] {
      assert path + below == below;
    } else {
      Uncons(path, below);
      var child := if path[0] in FieldsOf(j) then FieldsOf(j)[path[0]] else Null;
      PutThenLookup(child, path[1..], value, below);
    }
  }

  /** The paths part ways: neither is a prefix of the other. */
  predicate Diverge(p: Path, q: Path)
    decreases |p|
  {
    p != [] && q != [] && (p[0] != q[0] || Diverge(p[1..], q[1..]))
  }

  lemma {:induction false} DivergeIff(p: Path, q: Path)
    ensures Diverge(p, q) <==> !(p <= q) && !(q <= p)
    decreases |p|
  {
    if p != [] && q != [] && p[0] == q[0] {
      DivergeIff(p[1..], q[1..]);
      Cons(p[0], p[1..]);
      assert p == [p[0]] + p[1..] && q == [q[0]] + q[1..];
      assert p <= q <==> p[1..] <= q[1..];
      assert q <= p <==> q[1..] <= p[1..];
    }
  }

  /** A set changes nothing at any path that parts ways with it, even where it made objects. */
  lemma {:induction false} PutFrame(j: Json, path: Path, value: Json, other: Path)
    requires Diverge(path, other)
    ensures Lookup(Put(j, path, value), other) == Lookup(j, other)
    decreases |path|
  {
    if path[0] == other[0] {
      var child := if path[0] in FieldsOf(j) then FieldsOf(j)[path[0]] else Null;
      PutFrame(child, path[1..], value, other[1..]);
      if path[0] !in FieldsOf(j) {
        NothingBelowNull(other[1..]);
      }
    }
  }

  lemma NothingBelowNull(path: Path)
    ensures path != [] ==> Lookup(Null, path).Nothing?
  {
  }

  /** The last of two sets at a path counts. */
  lemma {:induction false} PutTwice(j: Json, path: Path, first: Json, second: Json)
    ensures Put(Put(j, path, first), path, second) == Put(j, path, second)
    decreases |path|
  {
    if path != [] {
      var child := if path[0] in FieldsOf(j) then FieldsOf(j)[path[0]] else Null;
      PutTwice(child, path[1..], first, second);
      assert FieldsOf(j)[path[0] := Put(child, path[1..], first)][path[0] := Put(child, path[1..], second)] ==
             FieldsOf(j)[path[0] := Put(child, path[1..], second)];
    }
  }

  /** Setting a value changes nothing exactly where it was there before. */
  lemma {:induction false} PutUnchangedIff(j: Json, path: Path, value: Json)
    ensures Put(j, path, value) == j <==> Lookup(j, path) == Just(value)
    decreases |path|
  {
    if path != [] {
      if j.Object? && path[0] in j.fields {
        PutUnchangedIff(j.fields[path[0]], path[1..], value);
        assert j.fields[path[0] := j.fields[path[0]]] == j.fields;
      } else {
        assert path[0] in Put(j, path, value).fields;
      }
    }
  }

  /** After an unset the path and everything below it are absent. */
  lemma {:induction false} WithoutAbsent(j: Json, path: Path, below: Path)
    requires path != [] && IsObjectAt(j, path[..|path| - 1])
    ensures Lookup(Without(j, path), path + below).Nothing?
    decreases |path|
  {
    Uncons(path, below);
    if |path| > 1 {
      Prefixes(path, |path| - 1);
      WithoutAbsent(j.fields[path[0]], path[1..], below);
    }
  }

  /** An unset changes nothing at any path that parts ways with it. */
  lemma {:induction false} WithoutFrame(j: Json, path: Path, other: Path)
    requires path != [] && IsObjectAt(j, path[..|path| - 1]) && Diverge(path, other)
    ensures Lookup(Without(j, path), other) == Lookup(j, other)
    decreases |path|
  {
    if |path| > 1 {
      Prefixes(path, |path| - 1);
      if path[0] == other[0] {
        WithoutFrame(j.fields[path[0]], path[1..], other[1..]);
      }
    }
  }

  /** After a set the way to the path is there, so an unset of the same path writes. */
  lemma {:induction false} PutMakesTheWay(j: Json, path: Path, value: Json)
    requires path != []
    ensures IsObjectAt(Put(j, path, value), path[..|path| - 1])
    decreases |path|
  {
    if |path| > 1 {
      var child := if path[0] in FieldsOf(j) then FieldsOf(j)[path[0]] else Null;
      PutMakesTheWay(child, path[1..], value);
      Prefixes(path, |path| - 1);
    }
  }

  /** Unset undoes set exactly where the place was empty but the way to it was there. */
  lemma {:induction false} UnsetUndoesSetIff(j: Json, path: Path, value: Json)
    requires path != []
    ensures IsObjectAt(Put(j, path, value), path[..|path| - 1])
    ensures Without(Put(j, path, value), path) == j <==> IsObjectAt(j, path[..|path| - 1]) && Lookup(j, path).Nothing?
    decreases |path|
  {
    PutMakesTheWay(j, path, value);
    var fields := FieldsOf(j);
    var child := if path[0] in fields then fields[path[0]] else Null;
    if |path| == 1 {
      assert fields[path[0] := value] - {path[0]} == fields - {path[0]};
      assert path[0] !in fields ==> fields - {path[0]} == fields;
      assert path[0] in fields ==> path[0] !in (fields - {path[0]});
    } else {
      UnsetUndoesSetIff(child, path[1..], value);
      Prefixes(path, |path| - 1);
      var undone := Without(Put(child, path[1..], value), path[1..]);
      assert fields[path[0] := Put(child, path[1..], value)][path[0] := undone] == fields[path[0] := undone];
      if path[0] in fields {
        assert fields[path[0] := child] == fields;
        assert undone != child ==> fields[path[0] := undone][path[0]] != fields[path[0]];
      } else {
        assert path[0] in fields[path[0] := undone];
      }
    }
  }
}
