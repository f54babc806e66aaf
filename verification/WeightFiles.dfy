/** Next-fit packing of tensor bytes into bounded weight files. */
module WeightFiles {
  import opened ByteStrings
  import opened Decimals
  import opened Wrappers

  /** Where a tensor's bytes are put: file number, offset and length. */
  datatype Extent = Extent(file: nat, offset: nat, length: nat)

  datatype Packed = Packed(files: seq<Bytes>, extents: seq<Extent>)

  /** One more tensor: into the open file if it fits, into a new one otherwise. */
  function Place(p: Packed, data: Bytes, bound: nat): Packed {
    if p.files == [] || |p.files[|p.files| - 1]| + |data| > bound then
      Packed(p.files + [data], p.extents + [Extent(|p.files|, 0, |data|)])
    else
      var (k, open) := (|p.files| - 1, p.files[|p.files| - 1]);
      Packed(p.files[k := open + data], p.extents + [Extent(k, |open|, |data|)])
  }

  function Pack(chunks: seq<Bytes>, bound: nat): Packed {
    if chunks == [] then Packed([], []) else Place(Pack(chunks[..|chunks| - 1], bound), chunks[|chunks| - 1], bound)
  }

  predicate Fitting(chunks: seq<Bytes>, bound: nat) {
    forall c :: c in chunks ==> 0 < |c| <= bound
  }

  function Concat(parts: seq<Bytes>): Bytes {
    if parts == [] then [] else Concat(parts[..|parts| - 1]) + parts[|parts| - 1]
  }

  lemma ConcatSnoc(parts: seq<Bytes>, last: Bytes)
    ensures Concat(parts + [last]) == Concat(parts) + last
  {
    assert (parts + [last])[..|parts|] == parts;
  }

  /** An extent reads its tensor back from its file. */
  predicate Holds(files: seq<Bytes>, e: Extent, data: Bytes) {
    e.file < |files| && e.length == |data| && e.offset + e.length <= |files[e.file]| &&
    files[e.file][e.offset..e.offset + e.length] == data
  }

  /** Every tensor is read back from its extent. */
  lemma {:induction false} PackHolds(chunks: seq<Bytes>, bound: nat)
    ensures var p := Pack(chunks, bound);
            |p.extents| == |chunks| && forall i :: 0 <= i < |chunks| ==> Holds(p.files, p.extents[i], chunks[i])
    decreases |chunks|
  {
    if chunks != [] {
      var before, last := chunks[..|chunks| - 1], chunks[|chunks| - 1];
      PackHolds(before, bound);
      PlaceHolds(Pack(before, bound), before, last, bound);
      assert chunks == before + [last];
    }
  }

  lemma {:induction false} PlaceHolds(p: Packed, chunks: seq<Bytes>, data: Bytes, bound: nat)
    requires |p.extents| == |chunks| && forall i :: 0 <= i < |chunks| ==> Holds(p.files, p.extents[i], chunks[i])
    ensures var q := Place(p, data, bound);
            |q.extents| == |chunks| + 1 && Holds(q.files, q.extents[|chunks|], data) &&
            forall i :: 0 <= i < |chunks| ==> q.extents[i] == p.extents[i] && Holds(q.files, q.extents[i], chunks[i])
  {
    var q := Place(p, data, bound);
    forall i | 0 <= i < |chunks|
      ensures Holds(q.files, q.extents[i], chunks[i])
    {
      var e := p.extents[i];
      assert Holds(p.files, e, chunks[i]);
      assert p.files[e.file] <= q.files[e.file];
      assert q.files[e.file][e.offset..e.offset + e.length] == p.files[e.file][e.offset..e.offset + e.length];
    }
  }

  /** The files together are the tensors' bytes in order: nothing is lost, added or overlaid. */
  lemma {:induction false} PackTiles(chunks: seq<Bytes>, bound: nat)
    ensures Concat(Pack(chunks, bound).files) == Concat(chunks)
    decreases |chunks|
  {
    if chunks != [] {
      PackTiles(chunks[..|chunks| - 1], bound);
      PlaceTiles(Pack(chunks[..|chunks| - 1], bound), chunks[|chunks| - 1], bound);
    }
  }

  lemma {:induction false} PlaceTiles(p: Packed, data: Bytes, bound: nat)
    ensures Concat(Place(p, data, bound).files) == Concat(p.files) + data
  {
    if p.files == [] || |p.files[|p.files| - 1]| + |data| > bound {
      ConcatSnoc(p.files, data);
    } else {
      LengthenedLast(p.files, data);
    }
  }

  lemma {:induction false} LengthenedLast(files: seq<Bytes>, data: Bytes)
    requires files != []
    ensures var k := |files| - 1; Concat(files[k := files[k] + data]) == Concat(files) + data
  {
    var k := |files| - 1;
    assert files[k := files[k] + data][..k] == files[..k];
  }

  /** Each extent starts where the one before it ends, or opens the next file after the one before fills its own. */
  predicate Follows(files: seq<Bytes>, e: Extent, next: Extent) {
    e.file < |files| &&
    (next == Extent(e.file, e.offset + e.length, next.length) ||
     (next == Extent(e.file + 1, 0, next.length) && e.offset + e.length == |files[e.file]|))
  }

  ghost predicate Tiled(p: Packed) {
    && (p.extents == [] <==> p.files == [])
    && (p.extents != [] ==> p.extents[0].file == 0 && p.extents[0].offset == 0)
    && (p.extents != [] ==>
          var last := p.extents[|p.extents| - 1];
          last.file == |p.files| - 1 && last.offset + last.length == |p.files[last.file]|)
    && (forall i :: 0 <= i < |p.extents| ==> p.extents[i].file < |p.files|)
    && forall i :: 0 <= i < |p.extents| - 1 ==> Follows(p.files, p.extents[i], p.extents[i + 1])
  }

  lemma {:induction false} PlaceTiled(p: Packed, data: Bytes, bound: nat)
    requires Tiled(p) && forall i :: 0 <= i < |p.extents| - 1 ==> Ends(p, i)
    requires |data| > 0 && forall i :: 0 <= i < |p.extents| ==> p.extents[i].length > 0
    ensures Tiled(Place(p, data, bound))
    ensures forall i :: 0 <= i < |p.extents| ==> Ends(Place(p, data, bound), i)
    ensures forall i :: 0 <= i <= |p.extents| ==> Place(p, data, bound).extents[i].length > 0
  {
    var q := Place(p, data, bound);
    forall i | 0 <= i < |q.extents| - 1
      ensures Follows(q.files, q.extents[i], q.extents[i + 1]) && Ends(q, i)
    {
      if i < |p.extents| - 1 {
        assert Follows(p.files, p.extents[i], p.extents[i + 1]) && Ends(p, i);
      }
    }
  }

  /** An extent followed by one in the next file fills its own, which is not the last. */
  predicate Ends(p: Packed, i: nat)
    requires i + 1 < |p.extents|
  {
    p.extents[i + 1].file > p.extents[i].file ==> p.extents[i].file < |p.files| - 1
  }

  lemma {:induction false} PackTiled(chunks: seq<Bytes>, bound: nat)
    requires Fitting(chunks, bound)
    ensures var p := Pack(chunks, bound);
            Tiled(p) && |p.extents| == |chunks| && (forall i :: 0 <= i < |p.extents| - 1 ==> Ends(p, i)) &&
            forall i :: 0 <= i < |p.extents| ==> p.extents[i].length > 0
    decreases |chunks|
  {
    if chunks != [] {
      var before, last := chunks[..|chunks| - 1], chunks[|chunks| - 1];
      assert last in chunks && forall c :: c in before ==> c in chunks;
      PackTiled(before, bound);
      PlaceTiled(Pack(before, bound), last, bound);
    }
  }

  /** The one extent ends, in file order, before the other begins. */
  predicate Precedes(e: Extent, f: Extent) {
    e.file < f.file || (e.file == f.file && e.offset + e.length <= f.offset)
  }

  /** Tiled extents never overlap. */
  lemma {:induction false} TiledApart(p: Packed, i: nat, j: nat)
    requires Tiled(p) && i < j < |p.extents|
    ensures Precedes(p.extents[i], p.extents[j])
    decreases j
  {
    assert Follows(p.files, p.extents[j - 1], p.extents[j]);
    if i < j - 1 {
      TiledApart(p, i, j - 1);
    }
  }

  /** No file exceeds the bound, and any two neighbours together do. */
  ghost predicate Tight(files: seq<Bytes>, bound: nat) {
    && (forall k :: 0 <= k < |files| ==> 0 < |files[k]| <= bound)
    && forall k :: 0 <= k < |files| - 1 ==> |files[k]| + |files[k + 1]| > bound
  }

  lemma {:induction false} PackTight(chunks: seq<Bytes>, bound: nat)
    requires Fitting(chunks, bound)
    ensures Tight(Pack(chunks, bound).files, bound)
    decreases |chunks|
  {
    if chunks != [] {
      var before, last := chunks[..|chunks| - 1], chunks[|chunks| - 1];
      assert last in chunks && forall c :: c in before ==> c in chunks;
      PackTight(before, bound);
    }
  }

  lemma {:induction false} LastTwo(files: seq<Bytes>)
    requires |files| >= 2
    ensures var k := |files| - 2; |Concat(files)| == |Concat(files[..k])| + |files[k]| + |files[k + 1]|
  {
    var k := |files| - 2;
    assert files[..k + 1][..k] == files[..k];
  }

  /** Next fit never uses more than about twice the files: each pair of neighbours holds more than one bound. */
  lemma {:induction false} HalfFull(files: seq<Bytes>, bound: nat)
    requires Tight(files, bound)
    ensures |files| >= 2 ==> (|files| / 2) * bound < |Concat(files)|
    decreases |files|
  {
    if |files| >= 2 {
      var k := |files| - 2;
      LastTwo(files);
      assert |files[k]| + |files[k + 1]| > bound;
      if k >= 2 {
        HalfFull(files[..k], bound);
        assert (k / 2 + 1) * bound == (k / 2) * bound + bound;
      }
    }
  }

  lemma {:induction false} FileCount(chunks: seq<Bytes>, bound: nat)
    requires Fitting(chunks, bound)
    ensures var k := |Pack(chunks, bound).files|;
            (k >= 2 ==> (k / 2) * bound < |Concat(chunks)|) && |Concat(chunks)| <= k * bound
  {
    PackTight(chunks, bound);
    PackTiles(chunks, bound);
    HalfFull(Pack(chunks, bound).files, bound);
    AtMostBound(Pack(chunks, bound).files, bound);
  }

  lemma {:induction false} AtMostBound(files: seq<Bytes>, bound: nat)
    requires forall k :: 0 <= k < |files| ==> |files[k]| <= bound
    ensures |Concat(files)| <= |files| * bound
    decreases |files|
  {
    if files != [] {
      AtMostBound(files[..|files| - 1], bound);
    }
  }

  // ----- File names

  /** At least three digits. */
  function Padded(n: nat): string {
    (if n < 10 then "00" else if n < 100 then "0" else "") + Decimal(n)
  }

  function FileName(n: nat): string {
    "weights-" + Padded(n) + ".bin"
  }

  lemma ZeroNumeral(s: string)
    requires s != "" && Numeral(s).Some?
    ensures Numeral("0" + s) == Numeral(s)
    decreases |s|
  {
    var t := "0" + s;
    assert t[..|t| - 1] == "0" + s[..|s| - 1] && t[|t| - 1] == s[|s| - 1];
    if |s| > 1 {
      ZeroNumeral(s[..|s| - 1]);
    } else {
      assert t[..1] == "0";
    }
  }

  lemma {:induction false} PaddedNumeral(n: nat)
    ensures Numeral(Padded(n)) == Some(n)
  {
    NumeralOfDecimal(n);
    ZeroNumeral(Decimal(n));
    ZeroNumeral("0" + Decimal(n));
    assert "0" + ("0" + Decimal(n)) == "00" + Decimal(n);
    assert "" + Decimal(n) == Decimal(n);
  }

  /** No two files have one name, so opening each exclusively never fails. */
  lemma {:induction false} NamesDiffer(m: nat, n: nat)
    requires FileName(m) == FileName(n)
    ensures m == n
  {
    PaddedNumeral(m);
    PaddedNumeral(n);
    var a, b := FileName(m), FileName(n);
    assert a[8..|a| - 4] == Padded(m) && b[8..|b| - 4] == Padded(n);
  }
}
