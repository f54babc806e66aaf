/** What a repacked model promises: at every path the same message, and from every external tensor the same bytes. */
module RepackPromise {
  import opened ByteStrings
  import opened Decimals
  import opened GraphMessages
  import opened MessagePaths
  import opened Repacking
  import opened WeightFiles
  import opened Wrappers

  /** The bytes an external tensor is read from. */
  function BytesOf(t: Tensor, dir: Directory, parse: Parse): Option<Bytes> {
    if IsExternal(t, dir, parse) then Some(DataOf(t, dir, parse)) else None
  }

  /** The same tensor: an inline one unchanged, an external one reading the same bytes from the weight files. */
  ghost predicate SameTensor(t: Tensor, u: Tensor, source: Directory, weights: Directory, parse: Parse) {
    && u.external == t.external && u.rest == t.rest
    && if t.external then BytesOf(t, source, parse).Some? && BytesOf(u, weights, parse) == BytesOf(t, source, parse) else u == t
  }

  /** At every path both trees have the same message, and where it is a tensor, the same tensor. */
  ghost predicate SameTree(original: Message, result: Message, source: Directory, weights: Directory, parse: Parse) {
    forall path :: SameAt(original, result, source, weights, parse, path)
  }

  ghost predicate SameAt(original: Message, result: Message, source: Directory, weights: Directory, parse: Parse, path: Path) {
    && SameBut(Under(original, path), Under(result, path))
    && (IsLeaf(original, path) ==>
          SameTensor(Under(original, path).value.tensor, Under(result, path).value.tensor, source, weights, parse))
  }

  lemma {:induction false} TensorCarried(t: Tensor, u: Tensor, files: seq<Bytes>, source: Directory, bound: nat, parse: Parse)
    requires ReadsNumerals(parse) && Movable(t, source, bound, parse) && ReadsBack(t, u, files, source, parse)
    ensures SameTensor(t, u, source, WeightsOf(files), parse)
  {
    BytesKept(t, u, files, source, parse);
    ExternalRead(t, source, parse);
  }

  lemma {:induction false} ExternalRead(t: Tensor, dir: Directory, parse: Parse)
    requires External(t, dir, parse).Success?
    ensures IsExternal(t, dir, parse) <==> t.external
  {
  }

  lemma {:induction false} TreeKept(original: Message, moved: seq<Tensor>, files: seq<Bytes>, source: Directory, bound: nat, parse: Parse)
    requires ReadsNumerals(parse) && AllMovable(Tensors(original), source, bound, parse)
    requires AllRead(Tensors(original), moved, files, source, parse)
    ensures SameTree(original, Replace(original, moved), source, WeightsOf(files), parse)
  {
    forall path
      ensures SameAt(original, Replace(original, moved), source, WeightsOf(files), parse, path)
    {
      ReplacedShape(original, moved, path);
      if IsLeaf(original, path) {
        var i := ReplacedAt(original, moved, path);
        assert Tensors(original)[i] in Tensors(original);
        TensorCarried(Tensors(original)[i], moved[i], files, source, bound, parse);
      }
    }
  }

  /** The paths of the external tensors among some paths and their tensors. */
  function ExternalPaths(paths: seq<Path>, tensors: seq<Tensor>): seq<Path>
    requires |paths| == |tensors|
  {
    if paths == [] then []
    else
      var k := |paths| - 1;
      ExternalPaths(paths[..k], tensors[..k]) + if tensors[k].external then [paths[k]] else []
  }

  ghost predicate Picked(paths: seq<Path>, tensors: seq<Tensor>, p: Path)
    requires |paths| == |tensors|
  {
    exists i :: 0 <= i < |paths| && paths[i] == p && tensors[i].external
  }

  ghost predicate Picks(chosen: seq<Path>, paths: seq<Path>, tensors: seq<Tensor>)
    requires |paths| == |tensors|
  {
    Ascending(chosen) && forall p :: p in chosen <==> Picked(paths, tensors, p)
  }

  lemma {:induction false} ExternalsChosen(paths: seq<Path>, tensors: seq<Tensor>)
    requires |paths| == |tensors| && Ascending(paths)
    ensures Picks(ExternalPaths(paths, tensors), paths, tensors)
    decreases |paths|
  {
    if paths != [] {
      var k := |paths| - 1;
      ExternalsChosen(paths[..k], tensors[..k]);
      ChosenNext(paths[..k], tensors[..k], paths[k], tensors[k], ExternalPaths(paths[..k], tensors[..k]));
      assert paths == paths[..k] + [paths[k]] && tensors == tensors[..k] + [tensors[k]];
    }
  }

  lemma {:induction false} PickedNext(paths: seq<Path>, tensors: seq<Tensor>, path: Path, t: Tensor, p: Path)
    requires |paths| == |tensors|
    ensures Picked(paths + [path], tensors + [t], p) <==> Picked(paths, tensors, p) || (t.external && p == path)
  {
    var n := |paths|;
    assert (paths + [path])[n] == path && (tensors + [t])[n] == t;
    if Picked(paths, tensors, p) {
      var i :| 0 <= i < n && paths[i] == p && tensors[i].external;
      assert (paths + [path])[i] == p && (tensors + [t])[i].external;
    }
  }

  lemma {:induction false} ChosenNext(paths: seq<Path>, tensors: seq<Tensor>, path: Path, t: Tensor, chosen: seq<Path>)
    requires |paths| == |tensors| && Ascending(paths + [path]) && Picks(chosen, paths, tensors)
    ensures Picks(chosen + if t.external then [path] else [], paths + [path], tensors + [t])
  {
    var next := chosen + if t.external then [path] else [];
    forall p
      ensures p in next <==> Picked(paths + [path], tensors + [t], p)
    {
      PickedNext(paths, tensors, path, t, p);
      assert p in next <==> p in chosen || (t.external && p == path);
    }
    forall j | 0 <= j < |chosen|
      ensures Before(chosen[j], path)
    {
      assert chosen[j] in chosen && Picked(paths, tensors, chosen[j]);
      var i :| 0 <= i < |paths| && paths[i] == chosen[j] && tensors[i].external;
      assert Before((paths + [path])[i], (paths + [path])[|paths|]);
    }
  }

  lemma {:induction false} ExternalsCounted(paths: seq<Path>, tensors: seq<Tensor>, source: Directory, bound: nat, parse: Parse)
    requires |paths| == |tensors| && AllMovable(tensors, source, bound, parse)
    ensures |ExternalPaths(paths, tensors)| == |Chunks(tensors, source, parse)|
    decreases |paths|
  {
    if paths != [] {
      var k := |paths| - 1;
      assert tensors[k] in tensors && Movable(tensors[k], source, bound, parse);
      assert forall t :: t in tensors[..k] ==> t in tensors;
      ExternalsCounted(paths[..k], tensors[..k], source, bound, parse);
      ExternalRead(tensors[k], source, parse);
    }
  }

  /** The reported number of tensors is the number of paths that end in an external tensor. */
  lemma {:induction false} EachExternalOnce(original: Message, source: Directory, bound: nat, parse: Parse) returns (paths: seq<Path>)
    requires AllMovable(Tensors(original), source, bound, parse)
    ensures |paths| == |Chunks(Tensors(original), source, parse)| && Ascending(paths)
    ensures forall path :: path in paths <==> IsLeaf(original, path) && Under(original, path).value.tensor.external
  {
    var all := VisitsAll(original);
    var tensors := Tensors(original);
    ExternalsChosen(all, tensors);
    ExternalsCounted(all, tensors, source, bound, parse);
    paths := ExternalPaths(all, tensors);
    forall path
      ensures path in paths <==> IsLeaf(original, path) && Under(original, path).value.tensor.external
    {
      assert path in paths <==> Picked(all, tensors, path);
      if path in all {
        var i :| 0 <= i < |all| && all[i] == path;
        assert Under(original, all[i]) == Some(Leaf(tensors[i]));
      }
    }
  }

  /** Entries as a set: each key's value, wherever it stands. */
  lemma {:induction false} LookupMeans(entries: seq<(string, string)>, key: string, value: string)
    requires WellKeyed(entries)
    ensures Lookup(entries, key) == Some(value) <==> (key, value) in entries
    ensures Lookup(entries, key).None? <==> forall i :: 0 <= i < |entries| ==> entries[i].0 != key
  {
    if entries != [] {
      var before, last := entries[..|entries| - 1], entries[|entries| - 1];
      assert forall i :: 0 <= i < |before| ==> before[i] == entries[i];
      assert entries == before + [last];
      LookupMeans(before, key, value);
      assert forall i :: 0 <= i < |before| ==> entries[i].0 != entries[|before|].0;
      assert last.0 == key ==> forall e :: e in before ==> e.0 != key;
    }
  }

  /** A tensor that names its file, its offset (none for the start) and its length (none for the rest) reads that slice. */
  lemma {:induction false} SliceRead(t: Tensor, dir: Directory, parse: Parse, location: string, offset: nat, length: nat)
    requires t.external && WellKeyed(t.entries) && ReadsNumerals(parse)
    requires ("location", location) in t.entries && location != "" && location in dir
    requires ("offset", Decimal(offset)) in t.entries || (offset == 0 && forall e :: e in t.entries ==> e.0 != "offset")
    requires ("length", Decimal(length)) in t.entries ||
             (offset + length == |dir[location]| && forall e :: e in t.entries ==> e.0 != "length")
    requires 0 < length && offset + length <= |dir[location]|
    ensures BytesOf(t, dir, parse) == Some(dir[location][offset..offset + length])
  {
    LookupMeans(t.entries, "location", location);
    LookupMeans(t.entries, "offset", Decimal(offset));
    LookupMeans(t.entries, "length", Decimal(length));
    assert parse(Decimal(offset)) == Some(offset) && parse(Decimal(length)) == Some(length);
  }

  /** The whole promise: same tree but for locations, same bytes, exact and bounded files, and at most about twice the fewest. */
  lemma {:induction false} RepackKeeps(original: Message, source: Directory, bound: nat, parse: Parse)
    requires ReadsNumerals(parse) && 0 < bound && AllMovable(Tensors(original), source, bound, parse)
    ensures var tensors := Tensors(original);
            var (chunks, moved) := (Chunks(tensors, source, parse), Moved(tensors, source, parse, bound));
            var p := Pack(chunks, bound);
            AllRead(tensors, moved, p.files, source, parse) && Tensors(Replace(original, moved)) == moved &&
            SameTree(original, Replace(original, moved), source, WeightsOf(p.files), parse) &&
            Replace(Replace(original, moved), tensors) == original &&
            Located(tensors, moved, p.extents, source, parse) &&
            (forall i, j :: 0 <= i < j < |p.extents| ==> Precedes(p.extents[i], p.extents[j])) &&
            Concat(p.files) == Concat(chunks) && Tiled(p) && Tight(p.files, bound) &&
            (|p.files| >= 2 ==> (|p.files| / 2) * bound < |Concat(chunks)|)
  {
    var tensors := Tensors(original);
    var chunks := Chunks(tensors, source, parse);
    AllReadBack(tensors, source, parse, bound);
    TreeKept(original, Moved(tensors, source, parse, bound), Pack(chunks, bound).files, source, bound, parse);
    ReplacedTensors(original, Moved(tensors, source, parse, bound));
    ReplacedTwice(original, Moved(tensors, source, parse, bound), tensors);
    ReplacedSame(original);
    ChunksFit(tensors, source, parse, bound);
    PackTiles(chunks, bound);
    PackTiled(chunks, bound);
    PackTight(chunks, bound);
    FileCount(chunks, bound);
    MovedLocated(tensors, source, parse, bound);
    forall i, j | 0 <= i < j < |Pack(chunks, bound).extents|
      ensures Precedes(Pack(chunks, bound).extents[i], Pack(chunks, bound).extents[j])
    {
      TiledApart(Pack(chunks, bound), i, j);
    }
  }
}
