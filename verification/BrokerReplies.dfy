/**
 What the registry broker's replies say, byte by byte: the page a read returns, what a write leaves,
 the sizes and flags reported, and exactly when a request is refused or halts the broker.
 */
module BrokerReplies {
  import opened ByteStrings
  import opened CasStore
  import opened RegistryBroker
  import opened RegistryNames
  import opened Wrappers

  /** The bytes from an offset on, so many of them, or all that is left. */
  ghost predicate From(data: Bytes, raw: Bytes, offset: nat, most: nat) {
    && offset <= |raw| && |data| <= most && |data| <= |raw| - offset
    && (|data| == most || |data| == |raw| - offset)
    && forall k :: 0 <= k < |data| ==> data[k] == raw[offset + k]
  }

  /** A page of at most 65536 bytes, its place in the file, whether it is the last, and the file's digest if asked for. */
  lemma {:induction false} ReadMeans(d: Digest, s: Storage, q: Request)
    requires q.action.Read?
    ensures var (after, reply) := Respond(d, s, q);
            var Read(offset, length, digest) := q.action;
            var addressed := q.private && Regular(q.name) && length == 65536;
            after == s &&
            (reply == Failed(NotFound) <==> addressed && q.name !in s) &&
            (reply.Succeeded? <==> addressed && q.name in s && 0 <= offset <= |s[q.name]|) &&
            (!reply.Succeeded? && reply != Failed(NotFound) ==> reply.Halted?) &&
            (reply.Succeeded? ==>
               reply.value.Page? && reply.value.offset == offset && reply.value.size == |s[q.name]| &&
               From(reply.value.data, s[q.name], offset, 65536) &&
               (reply.value.eof <==> offset + |reply.value.data| == |s[q.name]|) &&
               reply.value.sha == if digest then Some(d(s[q.name])) else None)
  {
  }

  /** Earlier bytes, if any are kept, and then the new ones. */
  ghost predicate Joined(whole: Bytes, kept: Bytes, data: Bytes) {
    && |whole| == |kept| + |data|
    && (forall k :: 0 <= k < |kept| ==> whole[k] == kept[k])
    && forall k :: 0 <= k < |data| ==> whole[|kept| + k] == data[k]
  }

  /**
   A write appends to what is staged or replaces it. Beyond the limit of its kind the file is stored
   and the broker halts; a malformed write halts and stores nothing.
   */
  lemma {:induction false} WriteMeans(d: Digest, s: Storage, q: Request)
    requires q.action.Write?
    ensures var (after, reply) := Respond(d, s, q);
            var Write(data, append) := q.action;
            var taken := q.private && StagedKind(q.name).Some? && data.Some? && 0 < |data.value| <= 65536;
            (taken ==>
               q.name in after && after - {q.name} == s - {q.name} &&
               Joined(after[q.name], if append && q.name in s then s[q.name] else [], data.value) &&
               (reply.Succeeded? <==> |after[q.name]| <= Limit(StagedKind(q.name).value)) &&
               (reply.Succeeded? ==> reply.value == Wrote(|data.value|, |after[q.name]|, append))) &&
            (!taken ==> after == s) && (reply.Succeeded? ==> taken) && (!reply.Succeeded? ==> reply.Halted?)
  {
  }

  /** A publish reports the size and digest of what it moved, and whether the name was there before. */
  lemma {:induction false} MovedMeans(d: Digest, s: Storage, q: Request)
    requires q.action.Publish? && Respond(d, s, q).1.Succeeded?
    ensures var (after, reply) := Respond(d, s, q);
            q.name in after && q.action.from !in after && q.action.from in s && after[q.name] == s[q.action.from] &&
            after - {q.name} == s - {q.name, q.action.from} &&
            reply.value.Moved? && reply.value.size == |after[q.name]| && reply.value.fingerprint == d(after[q.name]) &&
            (reply.value.replaced <==> q.name in s)
  {
    PublishMeans(d, s, q);
    assert q.name != q.action.from;
  }

  /** When a well-formed publish succeeds, is refused, or halts the broker. */
  lemma {:induction false} PublishDecided(d: Digest, s: Storage, q: Request)
    requires q.action.Publish? && q.private && Destined(q) && q.action.from in s && d(s[q.action.from]) == q.action.sha
    ensures var (reply, before) := (Respond(d, s, q).1, Get(s, q.name));
            match q.action.naming
            case Current(sha) =>
              (reply.Succeeded? <==> before.Some? && d(before.value) == sha) && (!reply.Succeeded? <==> reply == Failed(GenerationMismatch))
            case Absent(flag) =>
              (reply.Succeeded? <==> flag && before.None?) && (reply == Failed(GenerationMismatch) <==> (flag <==> before.Some?)) &&
              (reply.Halted? <==> !flag && before.Some?)
  {
  }
}
