/**
 The private-store broker's pages, byte by byte, and its round trip: whatever is uploaded in writes,
 published and read back is what was uploaded, whatever is served for other names meanwhile.
 */
module PrivatePaging {
  import opened BrokerReplies
  import opened ByteStrings
  import opened CasStore
  import opened PrivateBroker
  import opened Wrappers
  import P = RegistryPaging
  import R = RegistryBroker

  type Served = seq<(Request, Switches)>

  /** A page: the bytes from the offset on, at most so many; a negative length counts from the end of the file. */
  lemma {:induction false} ReadMeans(d: R.Digest, f: Files, q: Request, w: Switches)
    requires q.action.Read?
    ensures var (after, reply) := Respond(d, f, q, w);
            var Read(offset, length, digest) := q.action;
            var addressed := q.private && PermanentKind(q.name).Some?;
            after == f &&
            (reply == Failed(R.NotFound) <==> addressed && q.name !in f) &&
            (reply.Succeeded? <==> addressed && q.name in f && 0 <= offset <= |f[q.name]|) &&
            (!reply.Succeeded? && reply != Failed(R.NotFound) ==> reply.Halted?) &&
            (reply.Succeeded? ==>
               var (raw, page) := (f[q.name], reply.value);
               page.Page? && page.offset == offset && page.size == |raw| &&
               From(page.data, raw, offset, if length >= 0 then length else Tail(|raw|, offset, length)) &&
               (page.eof <==> offset + |page.data| == |raw|) && page.sha == if digest then Some(d(raw)) else None)
  {
  }

  /** How many bytes a slice with a negative length has. */
  function Tail(size: nat, offset: nat, length: int): nat {
    var stop := offset + length;
    var end := if stop >= 0 then stop else size + stop;
    if end <= offset then 0 else end - offset
  }

  /** A write appends to what is staged or replaces it, and nothing limits it; a malformed one halts and changes nothing. */
  lemma {:induction false} WriteMeans(d: R.Digest, f: Files, q: Request, w: Switches)
    requires q.action.Write?
    ensures var (after, reply) := Respond(d, f, q, w);
            var Write(data, append) := q.action;
            var taken := q.private && PermanentKind(q.name).None? && Staged(q.name) && data.Some? && 0 < |data.value| <= 65536;
            (taken ==>
               q.name in after && after - {q.name} == f - {q.name} &&
               Joined(after[q.name], if append && q.name in f then f[q.name] else [], data.value) &&
               reply == Succeeded(Wrote(|data.value|, |after[q.name]|, append))) &&
            (!taken ==> after == f && reply.Halted?)
  {
  }

  // ----- Requests for other names

  function Touched(q: Request): set<string> {
    match q.action
    case Write(_, _) => {q.name}
    case Publish(from, _, _) => {q.name, from}
    case _ => {}
  }

  ghost predicate Spares(served: Served, name: string) {
    forall x :: x in served ==> name !in Touched(x.0)
  }

  lemma {:induction false} Frame(d: R.Digest, f: Files, q: Request, w: Switches, name: string)
    requires name !in Touched(q)
    ensures Get(Respond(d, f, q, w).0, name) == Get(f, name)
  {
  }

  lemma {:induction false} ReachAppend(d: R.Digest, f: Files, a: Served, b: Served)
    ensures Reach(d, f, a + b) == if Reach(d, f, a).1 then Reach(d, Reach(d, f, a).0, b) else Reach(d, f, a)
    decreases |b|
  {
    if b == [] {
      assert a + b == a;
    } else {
      assert (a + b)[..|a + b| - 1] == a + b[..|b| - 1];
      ReachAppend(d, f, a, b[..|b| - 1]);
    }
  }

  lemma {:induction false} Spared(d: R.Digest, f: Files, served: Served, name: string)
    requires Spares(served, name)
    ensures Get(Reach(d, f, served).0, name) == Get(f, name)
    decreases |served|
  {
    if served != [] {
      var before, last := served[..|served| - 1], served[|served| - 1];
      assert last in served && forall x :: x in before ==> x in served;
      Spared(d, f, before, name);
      Frame(d, Reach(d, f, before).0, last.0, last.1, name);
    }
  }

  lemma {:induction false} ReachOne(d: R.Digest, f: Files, q: Request, w: Switches)
    ensures Reach(d, f, [(q, w)]) == (Respond(d, f, q, w).0, !Respond(d, f, q, w).1.Halted?)
  {
    assert [(q, w)][..0] == [];
  }

  // ----- The round trip

  /** The first page replaces what is staged, the others append. */
  function WriteOf(stage: string, page: Bytes, k: nat): Request {
    Request(true, stage, Write(Some(page), k > 0))
  }

  /** The uploading client's writes, each after some requests of others, under any switches. */
  function Upload(stage: string, pages: seq<Bytes>, noise: seq<Served>, w: seq<Switches>): Served
    requires |noise| == |pages| == |w|
  {
    if pages == [] then []
    else
      var k := |pages| - 1;
      Upload(stage, pages[..k], noise[..k], w[..k]) + noise[k] + [(WriteOf(stage, pages[k], k), w[k])]
  }

  lemma {:induction false} WriteStages(d: R.Digest, f: Files, stage: string, page: Bytes, k: nat, before: Bytes, w: Switches)
    requires PermanentKind(stage).None? && Staged(stage) && 0 < |page| <= R.PAGE
    requires k > 0 ==> Get(f, stage) == Some(before)
    requires k == 0 ==> before == []
    ensures Get(Respond(d, f, WriteOf(stage, page, k), w).0, stage) == Some(before + page)
  {
    assert k == 0 ==> [] + page == before + page;
  }

  /** An upload that is not interrupted leaves its pages, joined, in the staged file. */
  lemma {:induction false} UploadStages(d: R.Digest, f: Files, stage: string, pages: seq<Bytes>, noise: seq<Served>, w: seq<Switches>)
    requires PermanentKind(stage).None? && Staged(stage) && P.Pages(pages) && |noise| == |pages| == |w|
    requires forall k :: 0 <= k < |noise| ==> Spares(noise[k], stage)
    ensures var m := Reach(d, f, Upload(stage, pages, noise, w));
            m.1 && pages != [] ==> Get(m.0, stage) == Some(P.Concat(pages))
    decreases |pages|
  {
    if pages != [] {
      var k := |pages| - 1;
      var first := Upload(stage, pages[..k], noise[..k], w[..k]);
      UploadStages(d, f, stage, pages[..k], noise[..k], w[..k]);
      ReachAppend(d, f, first, noise[k]);
      ReachAppend(d, f, first + noise[k], [(WriteOf(stage, pages[k], k), w[k])]);
      var m := Reach(d, f, first + noise[k]);
      if m.1 {
        Spared(d, Reach(d, f, first).0, noise[k], stage);
        ReachOne(d, m.0, WriteOf(stage, pages[k], k), w[k]);
        WriteStages(d, m.0, stage, pages[k], k, P.Concat(pages[..k]), w[k]);
      }
    }
  }

  /** A publish at its named predecessor, with the conflict switch off. */
  ghost predicate Publishes(d: R.Digest, f: Files, publish: Request, w: Switches, whole: Bytes) {
    && publish.private && publish.action.Publish? && PermanentKind(publish.name).Some?
    && IsPending(publish.action.from, PermanentKind(publish.name).value) && publish.action.sha == d(whole)
    && R.Conflict(d, Get(f, publish.name), publish.action.naming) == Some(false) && !w.conflict
  }

  lemma {:induction false} PublishPuts(d: R.Digest, f: Files, publish: Request, w: Switches, whole: Bytes)
    requires Publishes(d, f, publish, w, whole) && Get(f, publish.action.from) == Some(whole)
    ensures Respond(d, f, publish, w).1.Succeeded? && Get(Respond(d, f, publish, w).0, publish.name) == Some(whole)
  {
    KindsApart(publish.action.from, PermanentKind(publish.name).value);
  }

  /**
   After an upload in pages and a publish, every page read is that part of what was uploaded, however
   many requests for other names are served in between.
   */
  lemma {:induction false} RoundTrip(d: R.Digest, f: Files, pages: seq<Bytes>, noise: seq<Served>, w: seq<Switches>, between: Served,
                                     publish: Request, u: Switches, later: Served, offset: nat, length: nat, digest: bool, v: Switches)
    requires P.Pages(pages) && |noise| == |pages| == |w| && pages != [] && publish.action.Publish?
    requires var stage := publish.action.from;
             PermanentKind(stage).None? && Staged(stage) && Spares(between, stage) &&
             forall k :: 0 <= k < |noise| ==> Spares(noise[k], stage)
    requires Spares(later, publish.name) && offset <= |P.Concat(pages)|
    ensures var (m, whole) := (Reach(d, f, Upload(publish.action.from, pages, noise, w) + between), P.Concat(pages));
            m.1 && Publishes(d, m.0, publish, u, whole) ==>
              var (after, reply) := Respond(d, m.0, publish, u);
              reply.Succeeded? &&
              var page := Respond(d, Reach(d, after, later).0, Request(true, publish.name, Read(offset, length, digest)), v).1;
              page.Succeeded? && page.value.Page? && From(page.value.data, whole, offset, length) &&
              (page.value.eof <==> offset + length >= |whole|)
  {
    var stage, whole := publish.action.from, P.Concat(pages);
    var first := Upload(stage, pages, noise, w);
    var m := Reach(d, f, first + between);
    ReachAppend(d, f, first, between);
    if m.1 && Publishes(d, m.0, publish, u, whole) {
      UploadStages(d, f, stage, pages, noise, w);
      Spared(d, Reach(d, f, first).0, between, stage);
      PublishPuts(d, m.0, publish, u, whole);
      var after := Respond(d, m.0, publish, u).0;
      Spared(d, after, later, publish.name);
      ReadMeans(d, Reach(d, after, later).0, Request(true, publish.name, Read(offset, length, digest)), v);
    }
  }
}
