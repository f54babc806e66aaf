/**
 Repacking a graph's external tensors into bounded weight files, and the re-read that checks it.
 Directories map the locations they contain to bytes; int() and the digest are parameters.
 */
module Repacking {
  import opened ByteStrings
  import opened Decimals
  import opened GraphMessages
  import opened Sequences
  import opened WeightFiles
  import opened Wrappers

  type Directory = map<string, Bytes>

  type Digest = Bytes -> string

  type Parse = string -> Option<int>

  const CHUNK_BYTES: nat := 536870912

  ghost predicate ReadsNumerals(parse: Parse) {
    forall n: nat :: parse(Decimal(n)) == Some(n)
  }

  datatype Refusal = InvalidBound | UnknownFields | NotContained | NotANumber | ExtentDiffers | TooLarge | CheckFailed

  /** A contained extent of a file. */
  datatype Slice = Slice(file: Bytes, offset: nat, length: nat) {
    predicate Valid() {
      0 < length && offset + length <= |file|
    }

    function Data(): Bytes
      requires Valid()
    {
      file[offset..offset + length]
    }
  }

  // ----- Looking up an external tensor

  function Lookup(entries: seq<(string, string)>, key: string): Option<string> {
    if entries == [] then None
    else if entries[|entries| - 1].0 == key then Some(entries[|entries| - 1].1)
    else Lookup(entries[..|entries| - 1], key)
  }

  predicate KnownKey(key: string) {
    key == "location" || key == "offset" || key == "length" || key == "checksum"
  }

  predicate WellKeyed(entries: seq<(string, string)>) {
    && (forall i :: 0 <= i < |entries| ==> KnownKey(entries[i].0))
    && forall i, j :: 0 <= i < j < |entries| ==> entries[i].0 != entries[j].0
  }

  function NumberOr(text: Option<string>, default: int, parse: Parse): Option<int> {
    if text.None? then Some(default) else parse(text.value)
  }

  /** The extent of an external tensor, none for an inline one. */
  function External(t: Tensor, dir: Directory, parse: Parse): (r: Result<Option<Slice>, Refusal>)
    ensures r.Success? && r.value.Some? ==> t.external && r.value.value.Valid()
  {
    if !t.external then Success(None)
    else if !WellKeyed(t.entries) then Failure(UnknownFields)
    else
      var name := Lookup(t.entries, "location");
      if name.None? || name.value == "" || name.value !in dir then Failure(NotContained)
      else
        var file := dir[name.value];
        var offset := NumberOr(Lookup(t.entries, "offset"), 0, parse);
        if offset.None? then Failure(NotANumber)
        else
          var length := NumberOr(Lookup(t.entries, "length"), |file| - offset.value, parse);
          if length.None? then Failure(NotANumber)
          else if offset.value < 0 || length.value <= 0 || offset.value + length.value > |file| then Failure(ExtentDiffers)
          else Success(Some(Slice(file, offset.value, length.value)))
  }

  predicate IsExternal(t: Tensor, dir: Directory, parse: Parse) {
    External(t, dir, parse).Success? && External(t, dir, parse).value.Some?
  }

  /** The bytes of an external tensor. */
  function DataOf(t: Tensor, dir: Directory, parse: Parse): Bytes
    requires IsExternal(t, dir, parse)
  {
    External(t, dir, parse).value.value.Data()
  }

  function Relocated(t: Tensor, e: Extent): Tensor {
    t.(entries := [("location", FileName(e.file)), ("offset", Decimal(e.offset)), ("length", Decimal(e.length))])
  }

  lemma {:induction false} RelocatedKeys(location: string, offset: string, length: string)
    ensures var entries := [("location", location), ("offset", offset), ("length", length)];
            WellKeyed(entries) && Lookup(entries, "location") == Some(location) &&
            Lookup(entries, "offset") == Some(offset) && Lookup(entries, "length") == Some(length)
  {
    var entries := [("location", location), ("offset", offset), ("length", length)];
    KeysDiffer();
    var two, one := [("location", location), ("offset", offset)], [("location", location)];
    assert entries[..2] == two && two[..1] == one;
    assert Lookup(one, "location") == Some(location) && Lookup(two, "location") == Lookup(one, "location");
  }

  lemma KeysDiffer()
    ensures "location" != "offset" && "location" != "length" && "offset" != "length"
  {
    assert |"location"| != |"offset"| && |"location"| != |"length"|;
    assert "offset"[0] != "length"[0];
  }

  /** A relocated tensor is found at its extent. */
  lemma {:induction false} RelocatedFound(t: Tensor, e: Extent, dir: Directory, parse: Parse)
    requires t.external && ReadsNumerals(parse) && FileName(e.file) in dir
    requires 0 < e.length && e.offset + e.length <= |dir[FileName(e.file)]|
    ensures External(Relocated(t, e), dir, parse) == Success(Some(Slice(dir[FileName(e.file)], e.offset, e.length)))
  {
    RelocatedKeys(FileName(e.file), Decimal(e.offset), Decimal(e.length));
    assert parse(Decimal(e.offset)) == Some(e.offset) && parse(Decimal(e.length)) == Some(e.length);
  }

  // ----- The specification

  function WeightsOf(files: seq<Bytes>): Directory {
    if files == [] then map[]
    else WeightsOf(files[..|files| - 1])[FileName(|files| - 1) := files[|files| - 1]]
  }

  lemma {:induction false} WeightsAt(files: seq<Bytes>, k: nat)
    ensures FileName(k) in WeightsOf(files) <==> k < |files|
    ensures k < |files| ==> WeightsOf(files)[FileName(k)] == files[k]
    decreases |files|
  {
    if files != [] {
      WeightsAt(files[..|files| - 1], k);
      if FileName(k) == FileName(|files| - 1) {
        NamesDiffer(k, |files| - 1);
      }
    }
  }

  predicate Movable(t: Tensor, source: Directory, bound: int, parse: Parse) {
    var extent := External(t, source, parse);
    extent.Success? && (extent.value.Some? ==> extent.value.value.length <= bound)
  }

  predicate AllMovable(tensors: seq<Tensor>, source: Directory, bound: int, parse: Parse) {
    forall t :: t in tensors ==> Movable(t, source, bound, parse)
  }

  /** The bytes of the external tensors, in order. */
  function Chunks(tensors: seq<Tensor>, source: Directory, parse: Parse): seq<Bytes> {
    if tensors == [] then []
    else
      var last := tensors[|tensors| - 1];
      Chunks(tensors[..|tensors| - 1], source, parse) +
      if IsExternal(last, source, parse) then [DataOf(last, source, parse)] else []
  }

  /** The tensors after the move, each external one at its next-fit extent. */
  function Moved(tensors: seq<Tensor>, source: Directory, parse: Parse, bound: nat): seq<Tensor> {
    if tensors == [] then []
    else
      var (before, last) := (tensors[..|tensors| - 1], tensors[|tensors| - 1]);
      Moved(before, source, parse, bound) +
      [if IsExternal(last, source, parse) then
         Relocated(last, NextExtent(Pack(Chunks(before, source, parse), bound), |DataOf(last, source, parse)|, bound))
       else last]
  }

  function NextExtent(p: Packed, length: nat, bound: nat): Extent {
    if p.files == [] || |p.files[|p.files| - 1]| + length > bound then Extent(|p.files|, 0, length)
    else Extent(|p.files| - 1, |p.files[|p.files| - 1]|, length)
  }

  // ----- What the move keeps

  lemma {:induction false} ChunksFit(tensors: seq<Tensor>, source: Directory, parse: Parse, bound: nat)
    requires AllMovable(tensors, source, bound, parse)
    ensures Fitting(Chunks(tensors, source, parse), bound)
    decreases |tensors|
  {
    if tensors != [] {
      var before, last := tensors[..|tensors| - 1], tensors[|tensors| - 1];
      assert last in tensors && forall t :: t in before ==> t in tensors;
      ChunksFit(before, source, parse, bound);
    }
  }

  lemma {:induction false} MovedLength(tensors: seq<Tensor>, source: Directory, parse: Parse, bound: nat)
    ensures |Moved(tensors, source, parse, bound)| == |tensors|
    decreases |tensors|
  {
    if tensors != [] {
      MovedLength(tensors[..|tensors| - 1], source, parse, bound);
    }
  }

  /** Later tensors only lengthen the files. */
  lemma {:induction false} PlaceKeeps(p: Packed, data: Bytes, bound: nat, k: nat)
    requires k < |p.files|
    ensures k < |Place(p, data, bound).files| && p.files[k] <= Place(p, data, bound).files[k]
  {
  }

  /** Where a moved tensor reads: its own bytes at its extent, the same in any longer files. */
  ghost predicate ReadsBack(t: Tensor, u: Tensor, files: seq<Bytes>, source: Directory, parse: Parse) {
    if IsExternal(t, source, parse) then
      exists e :: u == Relocated(t, e) && Holds(files, e, DataOf(t, source, parse))
    else u == t
  }

  lemma {:induction false} ReadsLonger(t: Tensor, u: Tensor, p: Packed, data: Bytes, bound: nat, source: Directory, parse: Parse)
    requires ReadsBack(t, u, p.files, source, parse)
    ensures ReadsBack(t, u, Place(p, data, bound).files, source, parse)
  {
    if IsExternal(t, source, parse) {
      var e :| u == Relocated(t, e) && Holds(p.files, e, DataOf(t, source, parse));
      PlaceKeeps(p, data, bound, e.file);
      var longer := Place(p, data, bound).files[e.file];
      assert longer[e.offset..e.offset + e.length] == p.files[e.file][e.offset..e.offset + e.length];
      assert Holds(Place(p, data, bound).files, e, DataOf(t, source, parse));
    }
  }

  lemma {:induction false} NextHolds(p: Packed, data: Bytes, bound: nat)
    ensures Holds(Place(p, data, bound).files, NextExtent(p, |data|, bound), data)
  {
  }

  ghost predicate AllRead(tensors: seq<Tensor>, moved: seq<Tensor>, files: seq<Bytes>, source: Directory, parse: Parse) {
    |moved| == |tensors| && forall i :: 0 <= i < |tensors| ==> ReadsBack(tensors[i], moved[i], files, source, parse)
  }

  lemma {:induction false} ReadNext(tensors: seq<Tensor>, moved: seq<Tensor>, p: Packed, t: Tensor, u: Tensor, source: Directory,
                                    parse: Parse, bound: nat)
    requires AllRead(tensors, moved, p.files, source, parse) && IsExternal(t, source, parse)
    requires u == Relocated(t, NextExtent(p, |DataOf(t, source, parse)|, bound))
    ensures AllRead(tensors + [t], moved + [u], Place(p, DataOf(t, source, parse), bound).files, source, parse)
  {
    var data := DataOf(t, source, parse);
    NextHolds(p, data, bound);
    forall i | 0 <= i < |tensors|
      ensures ReadsBack(tensors[i], moved[i], Place(p, data, bound).files, source, parse)
    {
      ReadsLonger(tensors[i], moved[i], p, data, bound, source, parse);
    }
  }

  lemma {:induction false} ChunksNext(tensors: seq<Tensor>, t: Tensor, source: Directory, parse: Parse, bound: nat)
    ensures IsExternal(t, source, parse) ==>
              Chunks(tensors + [t], source, parse) == Chunks(tensors, source, parse) + [DataOf(t, source, parse)] &&
              Pack(Chunks(tensors + [t], source, parse), bound) ==
              Place(Pack(Chunks(tensors, source, parse), bound), DataOf(t, source, parse), bound)
    ensures !IsExternal(t, source, parse) ==> Chunks(tensors + [t], source, parse) == Chunks(tensors, source, parse)
  {
    assert (tensors + [t])[..|tensors|] == tensors;
    var chunks := Chunks(tensors, source, parse);
    if IsExternal(t, source, parse) {
      assert (chunks + [DataOf(t, source, parse)])[..|chunks|] == chunks;
    } else {
      assert chunks + [] == chunks;
    }
  }

  lemma {:induction false} AllReadBack(tensors: seq<Tensor>, source: Directory, parse: Parse, bound: nat)
    ensures AllRead(tensors, Moved(tensors, source, parse, bound), Pack(Chunks(tensors, source, parse), bound).files, source, parse)
    decreases |tensors|
  {
    if tensors != [] {
      var n := |tensors| - 1;
      var before, last := tensors[..n], tensors[n];
      AllReadBack(before, source, parse, bound);
      TakeNext(tensors, n);
      assert tensors[..n + 1] == tensors;
      ChunksNext(before, last, source, parse, bound);
      if IsExternal(last, source, parse) {
        var p := Pack(Chunks(before, source, parse), bound);
        ReadNext(before, Moved(before, source, parse, bound), p, last,
                 Relocated(last, NextExtent(p, |DataOf(last, source, parse)|, bound)), source, parse, bound);
      }
    }
  }

  /** The extent written into each external tensor is the packing's own, in order and each once. */
  ghost predicate Located(tensors: seq<Tensor>, moved: seq<Tensor>, extents: seq<Extent>, source: Directory, parse: Parse) {
    && |moved| == |tensors| && |extents| == |Chunks(tensors, source, parse)|
    && forall i :: 0 <= i < |tensors| && IsExternal(tensors[i], source, parse) ==> LocatedAt(tensors, moved, extents, source, parse, i)
  }

  ghost predicate LocatedAt(tensors: seq<Tensor>, moved: seq<Tensor>, extents: seq<Extent>, source: Directory, parse: Parse, i: nat)
    requires i < |tensors| == |moved|
  {
    var k := |Chunks(tensors[..i], source, parse)|;
    k < |extents| && moved[i] == Relocated(tensors[i], extents[k])
  }

  lemma {:induction false} NextPlaced(p: Packed, data: Bytes, bound: nat)
    ensures Place(p, data, bound).extents == p.extents + [NextExtent(p, |data|, bound)]
  {
  }

  lemma {:induction false} LocatedNext(tensors: seq<Tensor>, moved: seq<Tensor>, p: Packed, t: Tensor, u: Tensor, source: Directory,
                                       parse: Parse, more: seq<Extent>)
    requires Located(tensors, moved, p.extents, source, parse)
    requires p.extents <= more && |more| == |Chunks(tensors + [t], source, parse)|
    requires IsExternal(t, source, parse) ==> |more| == |p.extents| + 1 && u == Relocated(t, more[|p.extents|])
    ensures Located(tensors + [t], moved + [u], more, source, parse)
  {
    forall i | 0 <= i < |tensors| + 1 && IsExternal((tensors + [t])[i], source, parse)
      ensures LocatedAt(tensors + [t], moved + [u], more, source, parse, i)
    {
      if i < |tensors| {
        assert (tensors + [t])[..i] == tensors[..i];
        assert LocatedAt(tensors, moved, p.extents, source, parse, i);
      } else {
        assert (tensors + [t])[..i] == tensors;
      }
    }
  }

  lemma {:induction false} MovedLocated(tensors: seq<Tensor>, source: Directory, parse: Parse, bound: nat)
    ensures Located(tensors, Moved(tensors, source, parse, bound), Pack(Chunks(tensors, source, parse), bound).extents, source, parse)
    decreases |tensors|
  {
    if tensors != [] {
      var n := |tensors| - 1;
      var before, last := tensors[..n], tensors[n];
      MovedLocated(before, source, parse, bound);
      TakeNext(tensors, n);
      assert tensors[..n + 1] == tensors;
      ChunksNext(before, last, source, parse, bound);
      var p := Pack(Chunks(before, source, parse), bound);
      if IsExternal(last, source, parse) {
        NextPlaced(p, DataOf(last, source, parse), bound);
      }
      LocatedNext(before, Moved(before, source, parse, bound), p, last, Moved(tensors, source, parse, bound)[n], source, parse,
                  Pack(Chunks(tensors, source, parse), bound).extents);
    }
  }

  /** The i-th tensor after the move has the bytes it had before it. */
  lemma {:induction false} BytesKept(t: Tensor, u: Tensor, files: seq<Bytes>, source: Directory, parse: Parse)
    requires ReadsBack(t, u, files, source, parse) && ReadsNumerals(parse) && External(t, source, parse).Success?
    ensures u.external == t.external && u.rest == t.rest && External(u, WeightsOf(files), parse).Success?
    ensures IsExternal(u, WeightsOf(files), parse) <==> IsExternal(t, source, parse)
    ensures IsExternal(t, source, parse) ==> DataOf(u, WeightsOf(files), parse) == DataOf(t, source, parse)
    ensures !IsExternal(t, source, parse) ==> u == t
  {
    if IsExternal(t, source, parse) {
      var e :| u == Relocated(t, e) && Holds(files, e, DataOf(t, source, parse));
      WeightsAt(files, e.file);
      RelocatedFound(t, e, WeightsOf(files), parse);
    }
  }

  // ----- The re-read

  type Binding = (nat, string)

  function Bindings(chunks: seq<Bytes>, digest: Digest): (b: seq<Binding>)
    ensures |b| == |chunks| && forall i :: 0 <= i < |b| ==> b[i] == (|chunks[i]|, digest(chunks[i]))
  {
    seq(|chunks|, i requires 0 <= i < |chunks| => (|chunks[i]|, digest(chunks[i])))
  }

  /** One pair compared: inline tensors whole, external ones by length and digest of their bytes. */
  function CheckedPair(t: Tensor, u: Tensor, dir: Directory, parse: Parse, digest: Digest, bindings: seq<Binding>, checked: nat)
    : Option<nat>
  {
    var extent := External(u, dir, parse);
    if extent.Failure? then None
    else if extent.value.None? then (if t == u then Some(checked) else None)
    else if checked < |bindings| && (extent.value.value.length, digest(extent.value.value.Data())) == bindings[checked] then
      Some(checked + 1)
    else None
  }

  /** Tensors whose inline fields and external bytes agree with the record so far; their external count. */
  function Checked(before: seq<Tensor>, after: seq<Tensor>, dir: Directory, parse: Parse, digest: Digest,
                   bindings: seq<Binding>): Option<nat>
    requires |before| == |after|
  {
    if after == [] then Some(0)
    else
      var n := |after| - 1;
      var checked :- Checked(before[..n], after[..n], dir, parse, digest, bindings);
      CheckedPair(before[n], after[n], dir, parse, digest, bindings, checked)
  }

  /** The restored tensors with their external entries put back. */
  function PutBack(before: seq<Tensor>, after: seq<Tensor>): (r: seq<Tensor>)
    requires |before| == |after|
    ensures |r| == |after|
  {
    seq(|after|, i requires 0 <= i < |after| => if after[i].external then after[i].(entries := before[i].entries) else after[i])
  }

  /** One more moved tensor passes the check. */
  lemma {:induction false} NextChecked(t: Tensor, u: Tensor, files: seq<Bytes>, source: Directory, parse: Parse, digest: Digest,
                                       bindings: seq<Binding>, checked: nat)
    requires ReadsNumerals(parse) && ReadsBack(t, u, files, source, parse) && External(t, source, parse).Success?
    requires IsExternal(t, source, parse) ==>
               var data := DataOf(t, source, parse); checked < |bindings| && bindings[checked] == (|data|, digest(data))
    ensures CheckedPair(t, u, WeightsOf(files), parse, digest, bindings, checked) ==
            Some(if IsExternal(t, source, parse) then checked + 1 else checked)
  {
    BytesKept(t, u, files, source, parse);
  }

  lemma {:induction false} CheckedSnoc(before: seq<Tensor>, after: seq<Tensor>, t: Tensor, u: Tensor, dir: Directory, parse: Parse,
                                       digest: Digest, bindings: seq<Binding>, checked: nat)
    requires |before| == |after| && Checked(before, after, dir, parse, digest, bindings) == Some(checked)
    ensures Checked(before + [t], after + [u], dir, parse, digest, bindings) ==
            CheckedPair(t, u, dir, parse, digest, bindings, checked)
  {
    assert (before + [t])[..|before|] == before && (after + [u])[..|after|] == after;
  }

  /** The count of external tensors read back for the first n tensors. */
  lemma {:induction false} MovedChecked(tensors: seq<Tensor>, moved: seq<Tensor>, files: seq<Bytes>, source: Directory,
                                        parse: Parse, digest: Digest, bindings: seq<Binding>, n: nat)
    requires ReadsNumerals(parse) && AllRead(tensors, moved, files, source, parse) && n <= |tensors|
    requires forall i :: 0 <= i < |tensors| ==> External(tensors[i], source, parse).Success?
    requires bindings == Bindings(Chunks(tensors, source, parse), digest)
    ensures Checked(tensors[..n], moved[..n], WeightsOf(files), parse, digest, bindings) == Some(|Chunks(tensors[..n], source, parse)|)
  {
    if n != 0 {
      var k := n - 1;
      var checked := |Chunks(tensors[..k], source, parse)|;
      MovedChecked(tensors, moved, files, source, parse, digest, bindings, k);
      TakeNext(tensors, k);
      TakeNext(moved, k);
      ChunksNext(tensors[..k], tensors[k], source, parse, 0);
      ChunksPrefix(tensors, n, source, parse);
      NextChecked(tensors[k], moved[k], files, source, parse, digest, bindings, checked);
      CheckedSnoc(tensors[..k], moved[..k], tensors[k], moved[k], WeightsOf(files), parse, digest, bindings, checked);
    }
  }

  lemma {:induction false} ChunksPrefix(tensors: seq<Tensor>, n: nat, source: Directory, parse: Parse)
    requires n <= |tensors|
    ensures Chunks(tensors[..n], source, parse) <= Chunks(tensors, source, parse)
    decreases |tensors|
  {
    if n == |tensors| {
      assert tensors[..n] == tensors;
    } else {
      var before := tensors[..|tensors| - 1];
      assert before[..n] == tensors[..n];
      ChunksPrefix(before, n, source, parse);
    }
  }

  lemma {:induction false} MovedPutBack(tensors: seq<Tensor>, moved: seq<Tensor>, files: seq<Bytes>, source: Directory, parse: Parse)
    requires AllRead(tensors, moved, files, source, parse)
    requires forall i :: 0 <= i < |tensors| ==> External(tensors[i], source, parse).Success?
    ensures PutBack(tensors, moved) == tensors
  {
    forall i | 0 <= i < |tensors|
      ensures PutBack(tensors, moved)[i] == tensors[i]
    {
      assert ReadsBack(tensors[i], moved[i], files, source, parse);
    }
  }

  predicate RecheckPasses(original: Message, restored: Message, dir: Directory, parse: Parse, digest: Digest, bindings: seq<Binding>)
  {
    var (before, after) := (Tensors(original), Tensors(restored));
    && |before| == |after|
    && Checked(before, after, dir, parse, digest, bindings) == Some(|bindings|)
    && Replace(restored, PutBack(before, after)) == original
  }

  lemma {:induction false} AllChecked(tensors: seq<Tensor>, source: Directory, parse: Parse, digest: Digest, bound: nat)
    requires ReadsNumerals(parse) && AllMovable(tensors, source, bound, parse)
    ensures var chunks := Chunks(tensors, source, parse);
            var (moved, files) := (Moved(tensors, source, parse, bound), Pack(chunks, bound).files);
            |moved| == |tensors| && PutBack(tensors, moved) == tensors &&
            Checked(tensors, moved, WeightsOf(files), parse, digest, Bindings(chunks, digest)) == Some(|chunks|)
  {
    var chunks, moved := Chunks(tensors, source, parse), Moved(tensors, source, parse, bound);
    AllReadBack(tensors, source, parse, bound);
    forall i | 0 <= i < |tensors|
      ensures External(tensors[i], source, parse).Success?
    {
      assert tensors[i] in tensors;
    }
    MovedChecked(tensors, moved, Pack(chunks, bound).files, source, parse, digest, Bindings(chunks, digest), |tensors|);
    assert tensors[..|tensors|] == tensors && moved[..|tensors|] == moved;
    MovedPutBack(tensors, moved, Pack(chunks, bound).files, source, parse);
  }

  /** The re-read accepts every graph the packing loop produces. */
  lemma {:induction false} RecheckAccepts(original: Message, source: Directory, parse: Parse, digest: Digest, bound: nat)
    requires ReadsNumerals(parse) && AllMovable(Tensors(original), source, bound, parse)
    ensures var tensors := Tensors(original);
            var chunks := Chunks(tensors, source, parse);
            |Moved(tensors, source, parse, bound)| == |tensors| &&
            RecheckPasses(original, Replace(original, Moved(tensors, source, parse, bound)), WeightsOf(Pack(chunks, bound).files),
                          parse, digest, Bindings(chunks, digest))
  {
    var tensors := Tensors(original);
    var moved := Moved(tensors, source, parse, bound);
    AllChecked(tensors, source, parse, digest, bound);
    ReplacedTensors(original, moved);
    ReplacedTwice(original, moved, tensors);
    ReplacedSame(original);
  }

  // ----- The program

  datatype Summary = Summary(graph: Message, weights: Directory, tensorCount: nat, weightFiles: nat)

  /** Copies an extent a megabyte at a time. */
  method Transfer(s: Slice) returns (copied: Bytes)
    requires s.Valid()
    ensures copied == s.Data()
  {
    copied := [];
    var count := s.length;
    while count != 0
      invariant 0 <= count <= s.length && copied == s.file[s.offset..s.offset + (s.length - count)]
    {
      var at := s.offset + (s.length - count);
      var size := if count < 1048576 then count else 1048576;
      copied := copied + s.file[at..at + size];
      count := count - size;
    }
  }

  method Recheck(original: Message, restored: Message, dir: Directory, parse: Parse, digest: Digest, bindings: seq<Binding>)
    returns (ok: bool)
    ensures ok <==> RecheckPasses(original, restored, dir, parse, digest, bindings)
  {
    var before, after := Tensors(original), Tensors(restored);
    if |before| != |after| {
      return false;
    }
    var checked := CheckTensors(before, after, dir, parse, digest, bindings);
    return checked == Some(|bindings|) && Replace(restored, PutBack(before, after)) == original;
  }

  /** The loop over the pairs of tensors; empty at the first that differs. */
  method CheckTensors(before: seq<Tensor>, after: seq<Tensor>, dir: Directory, parse: Parse, digest: Digest, bindings: seq<Binding>)
    returns (r: Option<nat>)
    requires |before| == |after|
    ensures r == Checked(before, after, dir, parse, digest, bindings)
  {
    var checked := 0;
    for i := 0 to |after|
      invariant Checked(before[..i], after[..i], dir, parse, digest, bindings) == Some(checked)
    {
      TakeNext(before, i);
      TakeNext(after, i);
      CheckedSnoc(before[..i], after[..i], before[i], after[i], dir, parse, digest, bindings, checked);
      CheckedPrefix(before, after, dir, parse, digest, bindings, i + 1);
      var next := CheckPair(before[i], after[i], dir, parse, digest, bindings, checked);
      if next.None? {
        return None;
      }
      checked := next.value;
    }
    assert before[..|after|] == before && after[..|after|] == after;
    return Some(checked);
  }

  method CheckPair(left: Tensor, right: Tensor, dir: Directory, parse: Parse, digest: Digest, bindings: seq<Binding>, checked: nat)
    returns (r: Option<nat>)
    ensures r == CheckedPair(left, right, dir, parse, digest, bindings, checked)
  {
    var extent := External(right, dir, parse);
    if extent.Failure? {
      return None;
    }
    if extent.value.None? {
      return if left == right then Some(checked) else None;
    }
    var copied := Transfer(extent.value.value);
    if checked >= |bindings| || (extent.value.value.length, digest(copied)) != bindings[checked] {
      return None;
    }
    return Some(checked + 1);
  }

  lemma {:induction false} CheckedPrefix(before: seq<Tensor>, after: seq<Tensor>, dir: Directory, parse: Parse, digest: Digest,
                                         bindings: seq<Binding>, i: nat)
    requires |before| == |after| && i <= |after|
    ensures Checked(before[..i], after[..i], dir, parse, digest, bindings).None? ==>
              Checked(before, after, dir, parse, digest, bindings).None?
    decreases |after|
  {
    if i == |after| {
      assert before[..i] == before && after[..i] == after;
    } else {
      var n := |after| - 1;
      assert before[..n][..i] == before[..i] && after[..n][..i] == after[..i];
      CheckedPrefix(before[..n], after[..n], dir, parse, digest, bindings, i);
    }
  }

  /** Where the packing loop is: the tensors rewritten, the files written and what it recorded. */
  datatype State = State(changed: seq<Tensor>, weights: Directory, index: nat, used: nat, bindings: seq<Binding>)

  /** The files and the record agree with a packing. */
  ghost predicate Written(st: State, files: seq<Bytes>, chunks: seq<Bytes>, digest: Digest) {
    && st.bindings == Bindings(chunks, digest) && st.weights == WeightsOf(files) && st.index == |files|
    && (st.index != 0 ==> st.used == |files[st.index - 1]|)
  }

  /** The state after some tensors. */
  ghost predicate At(st: State, tensors: seq<Tensor>, source: Directory, parse: Parse, digest: Digest, bound: nat) {
    var chunks := Chunks(tensors, source, parse);
    Written(st, Pack(chunks, bound).files, chunks, digest) && st.changed == Moved(tensors, source, parse, bound)
  }

  lemma {:induction false} WeightsPlaced(p: Packed, data: Bytes, bound: nat)
    ensures var (w, e) := (WeightsOf(p.files), NextExtent(p, |data|, bound));
            WeightsOf(Place(p, data, bound).files) ==
            w[FileName(e.file) := if e.file == |p.files| then data else p.files[e.file] + data]
  {
    var q, k := Place(p, data, bound).files, |p.files|;
    if q == p.files + [data] {
      assert q[..k] == p.files;
    } else {
      assert q[..k - 1] == p.files[..k - 1];
    }
  }

  lemma {:induction false} CarriedWritten(st: State, p: Packed, chunks: seq<Bytes>, t: Tensor, data: Bytes, digest: Digest, bound: nat)
    requires Written(st, p.files, chunks, digest)
    ensures st.index != 0 ==> FileName(st.index - 1) in st.weights
    ensures Written(Carried(st, t, data, digest, bound), Place(p, data, bound).files, chunks + [data], digest)
    ensures Carried(st, t, data, digest, bound).changed == st.changed + [Relocated(t, NextExtent(p, |data|, bound))]
  {
    WeightsPlaced(p, data, bound);
    if p.files != [] {
      WeightsAt(p.files, |p.files| - 1);
    }
    assert [] + data == data;
    assert Bindings(chunks + [data], digest) == Bindings(chunks, digest) + [(|data|, digest(data))];
  }

  lemma {:induction false} NextInline(st: State, tensors: seq<Tensor>, t: Tensor, source: Directory, parse: Parse, digest: Digest,
                                      bound: nat)
    requires At(st, tensors, source, parse, digest, bound) && !IsExternal(t, source, parse)
    ensures At(st.(changed := st.changed + [t]), tensors + [t], source, parse, digest, bound)
  {
    assert (tensors + [t])[..|tensors|] == tensors;
    ChunksNext(tensors, t, source, parse, bound);
  }

  lemma {:induction false} NextExternal(st: State, tensors: seq<Tensor>, t: Tensor, source: Directory, parse: Parse, digest: Digest,
                                        bound: nat, data: Bytes)
    requires At(st, tensors, source, parse, digest, bound) && IsExternal(t, source, parse) && data == DataOf(t, source, parse)
    requires st.index != 0 ==> FileName(st.index - 1) in st.weights
    ensures At(Carried(st, t, data, digest, bound), tensors + [t], source, parse, digest, bound)
  {
    assert (tensors + [t])[..|tensors|] == tensors;
    ChunksNext(tensors, t, source, parse, bound);
    CarriedWritten(st, Pack(Chunks(tensors, source, parse), bound), Chunks(tensors, source, parse), t, data, digest, bound);
  }

  /** A new empty file. */
  function Opened(st: State): State {
    st.(weights := st.weights[FileName(st.index) := []], index := st.index + 1, used := 0)
  }

  /** A tensor's bytes at the end of the open file. */
  function Appended(st: State, t: Tensor, data: Bytes, digest: Digest): State
    requires st.index != 0 && FileName(st.index - 1) in st.weights
  {
    var name := FileName(st.index - 1);
    State(st.changed + [Relocated(t, Extent(st.index - 1, st.used, |data|))], st.weights[name := st.weights[name] + data],
          st.index, st.used + |data|, st.bindings + [(|data|, digest(data))])
  }

  predicate Opens(st: State, length: nat, bound: nat) {
    st.index == 0 || st.used + length > bound
  }

  /** One external tensor carried over. */
  function Carried(st: State, t: Tensor, data: Bytes, digest: Digest, bound: nat): State
    requires Opens(st, |data|, bound) || FileName(st.index - 1) in st.weights
  {
    Appended(if Opens(st, |data|, bound) then Opened(st) else st, t, data, digest)
  }

  /** The loop's variables: the rewritten tensors, the files, the open one's name, its size, and the record. */
  class Packer {
    var changed: seq<Tensor>
    var weights: Directory
    var name: string
    var index: nat
    var used: nat
    var bindings: seq<Binding>

    constructor ()
      ensures Now() == State([], map[], 0, 0, [])
    {
      changed, weights, name, index, used, bindings := [], map[], "", 0, 0, [];
    }

    ghost function Now(): State
      reads this
    {
      State(changed, weights, index, used, bindings)
    }

    predicate Named()
      reads this
    {
      index != 0 ==> name == FileName(index - 1) && name in weights
    }

    method Open()
      requires FileName(index) !in weights
      modifies this
      ensures Now() == Opened(old(Now())) && Named()
    {
      name := FileName(index);
      weights := weights[name := []];
      index, used := index + 1, 0;
    }

    method Carry(tensor: Tensor, extent: Slice, digest: Digest, bound: nat)
      requires extent.Valid() && Named() && FileName(index) !in weights
      modifies this
      ensures Named() && Now() == Carried(old(Now()), tensor, extent.Data(), digest, bound)
    {
      var count := extent.length;
      if index == 0 || used + count > bound {
        Open();
      }
      var copied := Transfer(extent);
      weights := weights[name := weights[name] + copied];
      changed := changed + [tensor.(entries := [("location", name), ("offset", Decimal(used)), ("length", Decimal(count))])];
      bindings := bindings + [(count, digest(copied))];
      used := used + count;
    }

    /** One tensor moved, left alone if it is inline, or refused. */
    method Take(tensor: Tensor, source: Directory, parse: Parse, digest: Digest, bound: nat) returns (problem: Option<Refusal>)
      requires Named() && FileName(index) !in weights
      modifies this
      ensures problem.None? <==> Movable(tensor, source, bound, parse)
      ensures problem.None? ==> Named() && Now() == NextState(old(Now()), tensor, source, parse, digest, bound)
    {
      var extent := External(tensor, source, parse);
      if extent.Failure? {
        return Some(extent.error);
      }
      if extent.value.None? {
        changed := changed + [tensor];
        return None;
      }
      if extent.value.value.length > bound {
        return Some(TooLarge);
      }
      Carry(tensor, extent.value.value, digest, bound);
      return None;
    }
  }

  /** The next tensor, moved if it is external. */
  function NextState(st: State, t: Tensor, source: Directory, parse: Parse, digest: Digest, bound: nat): State
    requires st.index == 0 || FileName(st.index - 1) in st.weights
  {
    if IsExternal(t, source, parse) then Carried(st, t, DataOf(t, source, parse), digest, bound)
    else st.(changed := st.changed + [t])
  }

  lemma {:induction false} AtNext(st: State, tensors: seq<Tensor>, t: Tensor, source: Directory, parse: Parse, digest: Digest,
                                  bound: nat)
    requires At(st, tensors, source, parse, digest, bound)
    ensures FileName(st.index) !in st.weights && (st.index != 0 ==> FileName(st.index - 1) in st.weights)
    ensures At(NextState(st, t, source, parse, digest, bound), tensors + [t], source, parse, digest, bound)
  {
    StateFiles(st, tensors, source, parse, digest, bound);
    if IsExternal(t, source, parse) {
      NextExternal(st, tensors, t, source, parse, digest, bound, DataOf(t, source, parse));
    } else {
      NextInline(st, tensors, t, source, parse, digest, bound);
    }
  }

  method RepackGraph(original: Message, source: Directory, bound: int, parse: Parse, digest: Digest)
    returns (r: Result<Summary, Refusal>)
    requires ReadsNumerals(parse)
    ensures r.Success? <==> 0 < bound <= CHUNK_BYTES && AllMovable(Tensors(original), source, bound, parse)
    ensures r.Success? ==> r.value == RepackedGraph(original, source, parse, bound)
  {
    if bound <= 0 || bound > CHUNK_BYTES {
      return Failure(InvalidBound);
    }
    var tensors := Tensors(original);
    var packer := new Packer();
    var problem := PackAll(packer, tensors, source, bound, parse, digest);
    if problem.Some? {
      return Failure(problem.value);
    }
    RecheckAccepts(original, source, parse, digest, bound);
    MovedLength(tensors, source, parse, bound);
    var restored := Replace(original, packer.changed);
    var passed := Recheck(original, restored, packer.weights, parse, digest, packer.bindings);
    assert passed;
    return Success(Summary(restored, packer.weights, |packer.bindings|, packer.index));
  }

  /** The loop over the tensors; the first one it cannot move stops it. */
  method PackAll(packer: Packer, tensors: seq<Tensor>, source: Directory, bound: nat, parse: Parse, digest: Digest)
    returns (problem: Option<Refusal>)
    requires packer.Now() == State([], map[], 0, 0, [])
    modifies packer
    ensures problem.None? <==> AllMovable(tensors, source, bound, parse)
    ensures problem.None? ==> At(packer.Now(), tensors, source, parse, digest, bound)
  {
    for i := 0 to |tensors|
      invariant AllMovable(tensors[..i], source, bound, parse) && packer.Named()
      invariant At(packer.Now(), tensors[..i], source, parse, digest, bound)
    {
      Prefix(tensors, i);
      MovableNext(tensors, i, source, bound, parse);
      AtNext(packer.Now(), tensors[..i], tensors[i], source, parse, digest, bound);
      problem := packer.Take(tensors[i], source, parse, digest, bound);
      if problem.Some? {
        return;
      }
    }
    assert tensors[..|tensors|] == tensors;
    return None;
  }

  lemma {:induction false} MovableNext(tensors: seq<Tensor>, i: nat, source: Directory, bound: int, parse: Parse)
    requires i < |tensors| && AllMovable(tensors[..i], source, bound, parse)
    ensures AllMovable(tensors[..i + 1], source, bound, parse) <==> Movable(tensors[i], source, bound, parse)
    ensures AllMovable(tensors, source, bound, parse) ==> Movable(tensors[i], source, bound, parse)
  {
    Prefix(tensors, i);
  }

  /** The rewritten graph and its weight files, with their counts. */
  function RepackedGraph(original: Message, source: Directory, parse: Parse, bound: nat): Summary {
    var tensors := Tensors(original);
    var (chunks, moved) := (Chunks(tensors, source, parse), Moved(tensors, source, parse, bound));
    MovedLength(tensors, source, parse, bound);
    Summary(Replace(original, moved), WeightsOf(Pack(chunks, bound).files), |chunks|, |Pack(chunks, bound).files|)
  }

  /** The next file's name is free, the open one's is there. */
  lemma {:induction false} StateFiles(st: State, tensors: seq<Tensor>, source: Directory, parse: Parse, digest: Digest, bound: nat)
    requires At(st, tensors, source, parse, digest, bound)
    ensures FileName(st.index) !in st.weights && (st.index != 0 ==> FileName(st.index - 1) in st.weights)
  {
    var files := Pack(Chunks(tensors, source, parse), bound).files;
    WeightsAt(files, st.index);
    if st.index != 0 {
      WeightsAt(files, st.index - 1);
    }
  }

  lemma Prefix(tensors: seq<Tensor>, i: nat)
    requires i < |tensors|
    ensures tensors[..i + 1] == tensors[..i] + [tensors[i]] && tensors[i] in tensors
  {
  }
}
