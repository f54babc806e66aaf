/** Uploading in pages, publishing and reading back in pages, whatever other clients do to other names. */
module RegistryPaging {
  import opened ByteStrings
  import opened CasStore
  import opened RegistryBroker
  import opened RegistryNames
  import opened Wrappers

  ghost predicate Spares(requests: seq<Request>, name: string) {
    forall q :: q in requests ==> name !in Touched(q)
  }

  lemma {:induction false} ReachAppend(d: Digest, s: Storage, first: seq<Request>, second: seq<Request>)
    ensures Reach(d, s, first + second) ==
            if Reach(d, s, first).running then Reach(d, Reach(d, s, first).storage, second) else Reach(d, s, first)
    decreases |second|
  {
    if second == [] {
      assert first + second == first;
    } else {
      assert (first + second)[..|first + second| - 1] == first + second[..|second| - 1];
      ReachAppend(d, s, first, second[..|second| - 1]);
    }
  }

  lemma {:induction false} ReachOne(d: Digest, s: Storage, q: Request)
    ensures Reach(d, s, [q]) == Machine(Respond(d, s, q).0, !Respond(d, s, q).1.Halted?)
  {
    assert [q][..0] == [];
  }

  lemma {:induction false} Spared(d: Digest, s: Storage, requests: seq<Request>, name: string)
    requires Spares(requests, name)
    ensures Get(Reach(d, s, requests).storage, name) == Get(s, name)
    decreases |requests|
  {
    if requests != [] {
      var before, last := requests[..|requests| - 1], requests[|requests| - 1];
      assert last in requests && forall q :: q in before ==> q in requests;
      Spared(d, s, before, name);
      Frame(d, Reach(d, s, before).storage, last, name);
    }
  }

  // ----- Uploads

  function Concat(pages: seq<Bytes>): Bytes {
    if pages == [] then [] else Concat(pages[..|pages| - 1]) + pages[|pages| - 1]
  }

  ghost predicate Pages(pages: seq<Bytes>) {
    forall k :: 0 <= k < |pages| ==> 0 < |pages[k]| <= PAGE
  }

  /** The first page replaces, the others append. */
  function WriteOf(stage: string, page: Bytes, k: nat): Request {
    Request(true, stage, Write(Some(page), k > 0))
  }

  /** The uploading client's writes, each after some requests of others. */
  function Upload(stage: string, pages: seq<Bytes>, noise: seq<seq<Request>>): seq<Request>
    requires |noise| == |pages|
  {
    if pages == [] then []
    else
      var k := |pages| - 1;
      Upload(stage, pages[..k], noise[..k]) + noise[k] + [WriteOf(stage, pages[k], k)]
  }

  lemma {:induction false} WriteStages(d: Digest, s: Storage, stage: string, page: Bytes, k: nat, before: Bytes)
    requires StagedKind(stage).Some? && 0 < |page| <= PAGE
    requires k > 0 ==> Get(s, stage) == Some(before)
    requires k == 0 ==> before == []
    ensures var q := WriteOf(stage, page, k);
            Get(Respond(d, s, q).0, stage) == Some(before + page) &&
            (|before + page| <= Limit(StagedKind(stage).value) ==>
               Respond(d, s, q).1 == Succeeded(Wrote(|page|, |before + page|, k > 0)))
  {
    assert k == 0 ==> [] + page == before + page;
  }

  /** An upload that is not interrupted leaves its pages, joined, in the staged file. */
  lemma {:induction false} UploadStages(d: Digest, s: Storage, stage: string, pages: seq<Bytes>, noise: seq<seq<Request>>)
    requires StagedKind(stage).Some? && Pages(pages) && |noise| == |pages|
    requires forall k :: 0 <= k < |noise| ==> Spares(noise[k], stage)
    ensures var m := Reach(d, s, Upload(stage, pages, noise));
            m.running && pages != [] ==> Get(m.storage, stage) == Some(Concat(pages))
    decreases |pages|
  {
    if pages != [] {
      var k := |pages| - 1;
      var first, q := Upload(stage, pages[..k], noise[..k]), WriteOf(stage, pages[k], k);
      UploadStages(d, s, stage, pages[..k], noise[..k]);
      ReachAppend(d, s, first, noise[k]);
      ReachAppend(d, s, first + noise[k], [q]);
      var m := Reach(d, s, first + noise[k]);
      if m.running {
        Spared(d, Reach(d, s, first).storage, noise[k], stage);
        ReachOne(d, m.storage, q);
        WriteStages(d, m.storage, stage, pages[k], k, Concat(pages[..k]));
      }
    }
  }

  /** The client's own writes never stop the broker while the file stays within its limit. */
  lemma {:induction false} UploadRuns(d: Digest, s: Storage, stage: string, pages: seq<Bytes>, noise: seq<seq<Request>>)
    requires StagedKind(stage).Some? && Pages(pages) && |noise| == |pages| != 0
    requires forall k :: 0 <= k < |noise| ==> Spares(noise[k], stage)
    requires |Concat(pages)| <= Limit(StagedKind(stage).value)
    ensures var k := |pages| - 1;
            Reach(d, s, Upload(stage, pages, noise)).running <==>
            Reach(d, s, Upload(stage, pages[..k], noise[..k]) + noise[k]).running
  {
    var k := |pages| - 1;
    var first, q := Upload(stage, pages[..k], noise[..k]), WriteOf(stage, pages[k], k);
    UploadStages(d, s, stage, pages[..k], noise[..k]);
    ReachAppend(d, s, first, noise[k]);
    ReachAppend(d, s, first + noise[k], [q]);
    var m := Reach(d, s, first + noise[k]);
    if m.running {
      Spared(d, Reach(d, s, first).storage, noise[k], stage);
      ReachOne(d, m.storage, q);
      WriteStages(d, m.storage, stage, pages[k], k, Concat(pages[..k]));
    }
  }

  // ----- Downloads

  /** Bytes and the number of reads, or that the broker stopped or the requests of others ran out first. */
  datatype Got = Data(bytes: Bytes, pages: nat) | Interrupted | Refused

  function ReadOf(name: string, offset: nat): Request {
    Request(true, name, Read(offset, PAGE, false))
  }

  /** The reading client: page after page until the end, each read after some requests of others. */
  function Download(d: Digest, s: Storage, name: string, offset: nat, noise: seq<seq<Request>>): Got
    decreases |noise|
  {
    if noise == [] then Interrupted
    else
      var m := Reach(d, s, noise[0]);
      if !m.running then Interrupted
      else
        match Respond(d, m.storage, ReadOf(name, offset)).1
        case Succeeded(Page(_, _, data, eof, _)) =>
          if eof then Data(data, 1)
          else
            (match Download(d, m.storage, name, offset + |data|, noise[1..])
             case Data(rest, n) => Data(data + rest, n + 1)
             case other => other)
        case _ => Refused
  }

  /** Reads needed for some remaining bytes; even an empty rest takes one. */
  function ReadsFor(size: nat): nat {
    if size <= PAGE then 1 else 1 + ReadsFor(size - PAGE)
  }

  /** One read for every started page. */
  function Reads(size: nat): nat {
    (size + 65535) / 65536
  }

  lemma {:induction false} ReadsCeiling(size: nat)
    ensures size > 0 ==> ReadsFor(size) == Reads(size)
  {
    if size > PAGE {
      ReadsCeiling(size - PAGE);
    }
  }

  function Prepended(data: Bytes, got: Got): Got {
    match got
    case Data(rest, n) => Data(data + rest, n + 1)
    case other => other
  }

  /** One read of a file the requests of others leave alone. */
  lemma {:induction false} DownloadStep(d: Digest, s: Storage, name: string, offset: nat, noise: seq<seq<Request>>, raw: Bytes)
    requires Regular(name) && Get(s, name) == Some(raw) && offset <= |raw| && noise != [] && Spares(noise[0], name)
    ensures var m, page := Reach(d, s, noise[0]), PageOf(d, raw, offset, false);
            Get(m.storage, name) == Some(raw) &&
            Download(d, s, name, offset, noise) ==
            if !m.running then Interrupted
            else if page.eof then Data(page.data, 1)
            else Prepended(page.data, Download(d, m.storage, name, offset + |page.data|, noise[1..]))
  {
    Spared(d, s, noise[0], name);
    var m, page := Reach(d, s, noise[0]), PageOf(d, raw, offset, false);
    assert Respond(d, m.storage, ReadOf(name, offset)).1 == Succeeded(page);
  }

  function Flat(noise: seq<seq<Request>>): seq<Request> {
    if noise == [] then [] else noise[0] + Flat(noise[1..])
  }

  lemma {:induction false} FlatNext(d: Digest, s: Storage, noise: seq<seq<Request>>, n: nat)
    requires 0 < n <= |noise|
    ensures var m := Reach(d, s, noise[0]);
            Reach(d, s, Flat(noise[..n])).running <==> m.running && Reach(d, m.storage, Flat(noise[1..][..n - 1])).running
  {
    assert noise[..n][0] == noise[0] && noise[..n][1..] == noise[1..][..n - 1];
    ReachAppend(d, s, noise[0], Flat(noise[1..][..n - 1]));
  }

  /**
   The remaining bytes, in the reads that takes, when there are that many and the broker survives
   the requests before each of them; otherwise the reading is interrupted.
   */
  function Ending(d: Digest, s: Storage, rest: Bytes, noise: seq<seq<Request>>): Got {
    var count := ReadsFor(|rest|);
    if count <= |noise| && Reach(d, s, Flat(noise[..count])).running then Data(rest, count) else Interrupted
  }

  lemma ReadsSome(size: nat)
    ensures ReadsFor(size) >= 1
  {
  }

  lemma {:induction false} EndingNext(d: Digest, s: Storage, rest: Bytes, noise: seq<seq<Request>>)
    requires noise != []
    ensures var m := Reach(d, s, noise[0]);
            Ending(d, s, rest, noise) ==
            if !m.running then Interrupted
            else if |rest| <= PAGE then Data(rest, 1)
            else Prepended(rest[..PAGE], Ending(d, m.storage, rest[PAGE..], noise[1..]))
  {
    var count := ReadsFor(|rest|);
    ReadsSome(|rest|);
    if count <= |noise| {
      FlatNext(d, s, noise, count);
      assert noise[1..][..0] == [];
    }
    assert |rest| > PAGE ==> rest[..PAGE] + rest[PAGE..] == rest;
  }

  /** Whatever happens to other names meanwhile, reading page after page returns exactly the remaining bytes. */
  lemma {:induction false} DownloadEnds(d: Digest, s: Storage, name: string, offset: nat, noise: seq<seq<Request>>, raw: Bytes)
    requires Regular(name) && Get(s, name) == Some(raw) && offset <= |raw|
    requires forall k :: 0 <= k < |noise| ==> Spares(noise[k], name)
    ensures Download(d, s, name, offset, noise) == Ending(d, s, raw[offset..], noise)
    decreases |noise|
  {
    ReadsSome(|raw| - offset);
    if noise != [] {
      var m := Reach(d, s, noise[0]);
      DownloadStep(d, s, name, offset, noise, raw);
      EndingNext(d, s, raw[offset..], noise);
      PageBytes(d, raw, offset);
      if m.running && !PageOf(d, raw, offset, false).eof {
        DownloadEnds(d, m.storage, name, offset + PAGE, noise[1..], raw);
      }
    }
  }

  /** A page is the first of the remaining bytes, and the last page all of them. */
  lemma {:induction false} PageBytes(d: Digest, raw: Bytes, offset: nat)
    requires offset <= |raw|
    ensures var (page, rest) := (PageOf(d, raw, offset, false), raw[offset..]);
            (page.eof <==> |rest| <= PAGE) && (page.eof ==> page.data == rest) &&
            (!page.eof ==> page.data == rest[..PAGE] && raw[offset + PAGE..] == rest[PAGE..])
  {
  }

  // ----- The round trip

  /** A publish whose predecessor is as named puts the staged bytes at its name. */
  lemma {:induction false} PublishPuts(d: Digest, s: Storage, publish: Request, whole: Bytes)
    requires publish.private && Regular(publish.name) && Destined(publish)
    requires Get(s, publish.action.from) == Some(whole) && publish.action.sha == d(whole)
    requires Conflict(d, Get(s, publish.name), publish.action.naming) == Some(false)
    ensures Respond(d, s, publish).1.Succeeded? && Get(Respond(d, s, publish).0, publish.name) == Some(whole)
  {
    assert Respond(d, s, publish).1.Succeeded?;
    PublishMeans(d, s, publish);
  }

  lemma {:induction false} DownloadWhole(d: Digest, s: Storage, name: string, later: seq<seq<Request>>, whole: Bytes)
    requires Regular(name) && Get(s, name) == Some(whole) && |whole| > 0
    requires forall k :: 0 <= k < |later| ==> Spares(later[k], name)
    ensures var count := Reads(|whole|);
            Download(d, s, name, 0, later) ==
            if count <= |later| && Reach(d, s, Flat(later[..count])).running then Data(whole, count) else Interrupted
  {
    DownloadEnds(d, s, name, 0, later, whole);
    ReadsCeiling(|whole|);
    assert whole[0..] == whole;
  }

  /** The staged file when the upload and what follows it have not been interrupted. */
  lemma {:induction false} UploadedStays(d: Digest, s: Storage, stage: string, pages: seq<Bytes>, noise: seq<seq<Request>>,
                                         between: seq<Request>)
    requires StagedKind(stage).Some? && Pages(pages) && |noise| == |pages| != 0
    requires forall k :: 0 <= k < |noise| ==> Spares(noise[k], stage)
    requires Spares(between, stage) && Reach(d, s, Upload(stage, pages, noise) + between).running
    ensures Get(Reach(d, s, Upload(stage, pages, noise) + between).storage, stage) == Some(Concat(pages))
  {
    var first := Upload(stage, pages, noise);
    UploadStages(d, s, stage, pages, noise);
    ReachAppend(d, s, first, between);
    Spared(d, Reach(d, s, first).storage, between, stage);
  }

  /**
   What is uploaded in pages, published at its named predecessor and read back until the end is
   what was uploaded, in one read for every started 65536 bytes, as long as the broker survives what
   others ask of it in between.
   */
  lemma {:induction false} RoundTrip(d: Digest, s: Storage, stage: string, pages: seq<Bytes>, noise: seq<seq<Request>>,
                                     between: seq<Request>, publish: Request, later: seq<seq<Request>>)
    requires StagedKind(stage).Some? && Pages(pages) && |noise| == |pages| != 0
    requires forall k :: 0 <= k < |noise| ==> Spares(noise[k], stage)
    requires Spares(between, stage) && Regular(publish.name) && Destined(publish) && publish.private
    requires publish.action.from == stage && publish.action.sha == d(Concat(pages))
    requires forall k :: 0 <= k < |later| ==> Spares(later[k], publish.name)
    ensures var m := Reach(d, s, Upload(stage, pages, noise) + between);
            var (after, reply) := Respond(d, m.storage, publish);
            m.running && Conflict(d, Get(m.storage, publish.name), publish.action.naming) == Some(false) ==>
              reply.Succeeded? &&
              var count := Reads(|Concat(pages)|);
              Download(d, after, publish.name, 0, later) ==
              if count <= |later| && Reach(d, after, Flat(later[..count])).running then Data(Concat(pages), count) else Interrupted
  {
    var m := Reach(d, s, Upload(stage, pages, noise) + between);
    if m.running && Conflict(d, Get(m.storage, publish.name), publish.action.naming) == Some(false) {
      UploadedStays(d, s, stage, pages, noise, between);
      PublishPuts(d, m.storage, publish, Concat(pages));
      ConcatSome(pages);
      DownloadWhole(d, Respond(d, m.storage, publish).0, publish.name, later, Concat(pages));
    }
  }

  lemma ConcatSome(pages: seq<Bytes>)
    requires Pages(pages) && pages != []
    ensures |Concat(pages)| > 0
  {
    assert |pages[|pages| - 1]| > 0;
  }
}
