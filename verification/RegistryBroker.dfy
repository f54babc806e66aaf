/**
 The speaker registry's private-store broker: staged appends, digest-checked compare-and-swap
 publishes and paged reads. A failed assertion halts it, with whatever it had stored by then.
 */
module RegistryBroker {
  import opened ByteStrings
  import opened CasStore
  import opened RegistryNames
  import opened Wrappers

  type Digest = Bytes -> string

  ghost predicate Injective(d: Digest) {
    forall a, b :: d(a) == d(b) ==> a == b
  }

  /** The predecessor a publish names; an absence flag may also be given as false. */
  datatype Expectation = Absent(flag: bool) | Current(sha: string)

  /** Other stands for every operation or argument set the broker does not expect. */
  datatype Action =
    | Read(offset: int, length: int, digest: bool)
    | Write(data: Option<Bytes>, append: bool)
    | Publish(from: string, sha: string, naming: Expectation)
    | Other

  datatype Request = Request(private: bool, name: string, action: Action)

  datatype Value =
    | Page(offset: int, size: nat, data: Bytes, eof: bool, sha: Option<string>)
    | Wrote(bytes: nat, size: nat, appended: bool)
    | Moved(size: nat, fingerprint: string, replaced: bool)

  datatype Reason = NotFound | GenerationMismatch

  datatype Reply = Succeeded(value: Value) | Failed(reason: Reason) | Halted

  type Storage = map<string, Bytes>

  const PAGE: nat := 65536

  // ----- The specification

  predicate Destined(q: Request) {
    q.action.Publish? && StagedKind(q.action.from).Some? && Destination(StagedKind(q.action.from).value, q.action.sha) == q.name
  }

  predicate Addressed(q: Request) {
    q.private && (Regular(q.name) || StagedKind(q.name).Some? || Destined(q))
  }

  function RespondRead(d: Digest, s: Storage, name: string, offset: int, length: int, digest: bool): Reply {
    if !Regular(name) || length != PAGE then Halted
    else if name !in s then Failed(NotFound)
    else if !(0 <= offset <= |s[name]|) then Halted
    else Succeeded(PageOf(d, s[name], offset, digest))
  }

  function PageOf(d: Digest, raw: Bytes, offset: nat, digest: bool): Value
    requires offset <= |raw|
  {
    var end := if offset + PAGE <= |raw| then offset + PAGE else |raw|;
    Page(offset, |raw|, raw[offset..end], end == |raw|, if digest then Some(d(raw)) else None)
  }

  function Staged(s: Storage, name: string, raw: Bytes, append: bool): Bytes {
    (if append && name in s then s[name] else []) + raw
  }

  function RespondWrite(s: Storage, name: string, data: Option<Bytes>, append: bool): (Storage, Reply) {
    if StagedKind(name).None? || data.None? || !(0 < |data.value| <= PAGE) then (s, Halted)
    else
      var whole := Staged(s, name, data.value, append);
      (s[name := whole],
       if |whole| > Limit(StagedKind(name).value) then Halted else Succeeded(Wrote(|data.value|, |whole|, append)))
  }

  /** Whether the named predecessor is missing; empty when the broker halts instead of deciding. */
  function Conflict(d: Digest, before: Option<Bytes>, naming: Expectation): Option<bool> {
    match naming
    case Absent(flag) => if flag then Some(before.Some?) else if before.None? then Some(true) else None
    case Current(sha) => Some(before.None? || d(before.value) != sha)
  }

  function RespondPublish(d: Digest, s: Storage, q: Request): (Storage, Reply)
    requires q.action.Publish?
  {
    var Publish(from, sha, naming) := q.action;
    if !Destined(q) || from !in s || d(s[from]) != sha then (s, Halted)
    else
      match Conflict(d, Get(s, q.name), naming)
      case None => (s, Halted)
      case Some(true) => (s, Failed(GenerationMismatch))
      case Some(false) => (s[q.name := s[from]] - {from}, Succeeded(Moved(|s[from]|, sha, q.name in s)))
  }

  function Respond(d: Digest, s: Storage, q: Request): (Storage, Reply) {
    if !Addressed(q) then (s, Halted)
    else
      match q.action
      case Read(offset, length, digest) => (s, RespondRead(d, s, q.name, offset, length, digest))
      case Write(data, append) => RespondWrite(s, q.name, data, append)
      case Publish(from, sha, naming) => RespondPublish(d, s, q)
      case Other => (s, Halted)
  }

  // ----- The broker

  datatype Call = Call(action: Action, path: string, bytes: Option<nat>, sha: Option<string>)

  function CallOf(q: Request, v: Value): Call {
    match v
    case Page(_, _, data, _, sha) => Call(q.action, q.name, Some(|data|), sha)
    case Wrote(bytes, _, _) => Call(q.action, q.name, Some(bytes), None)
    case Moved(_, sha, _) => Call(q.action, q.name, None, Some(sha))
  }

  class Broker {
    var storage: Storage
    var calls: seq<Call>
    const digest: Digest

    constructor (digest: Digest, storage: Storage)
      ensures this.digest == digest && this.storage == storage && calls == []
    {
      this.digest, this.storage, calls := digest, storage, [];
    }

    method Answer(q: Request) returns (r: Reply)
      modifies this
      ensures (storage, r) == Respond(digest, old(storage), q)
      ensures calls == if r.Succeeded? then old(calls) + [CallOf(q, r.value)] else old(calls)
    {
      var name := q.name;
      if !q.private {
        return Halted;
      }
      var regular, stage := Regular(name), StagedKind(name);
      var source := if q.action.Publish? then StagedKind(q.action.from) else None;
      var destination := source.Some? && Destination(source.value, q.action.sha) == name;
      if !(regular || stage.Some? || destination) {
        return Halted;
      }
      match q.action {
        case Read(offset, length, wanted) =>
          if !regular || length != 65536 {
            return Halted;
          }
          if name !in storage {
            return Failed(NotFound);
          }
          var raw := storage[name];
          if !(0 <= offset <= |raw|) {
            return Halted;
          }
          var data := raw[offset..if offset + 65536 < |raw| then offset + 65536 else |raw|];
          r := Succeeded(Page(offset, |raw|, data, offset + |data| == |raw|, if wanted then Some(digest(raw)) else None));
        case Write(data, append) =>
          if stage.None? || data.None? || |data.value| == 0 || |data.value| > 65536 {
            return Halted;
          }
          storage := storage[name := (if append && name in storage then storage[name] else []) + data.value];
          if |storage[name]| > Limit(stage.value) {
            return Halted;
          }
          r := Succeeded(Wrote(|data.value|, |storage[name]|, append));
        case Publish(from, sha, naming) =>
          if !destination || from !in storage {
            return Halted;
          }
          var raw, before := storage[from], Get(storage, name);
          if digest(raw) != sha {
            return Halted;
          }
          if naming.Absent? {
            if naming.flag && before.Some? {
              return Failed(GenerationMismatch);
            }
            if !naming.flag {
              return if before.None? then Failed(GenerationMismatch) else Halted;
            }
          } else if before.None? || digest(before.value) != naming.sha {
            return Failed(GenerationMismatch);
          }
          storage := storage[name := raw];
          storage := storage - {from};
          r := Succeeded(Moved(|raw|, digest(raw), before.Some?));
        case Other => return Halted;
      }
      calls := calls + [CallOf(q, r.value)];
    }
  }

  // ----- One compare-and-swap store

  function Published(s: Storage): View {
    map name | name in s && !Hidden(name) :: s[name]
  }

  function ChangeOf(d: Digest, s: Storage, q: Request): Change {
    if q.action.Publish? && q.action.from in s && Respond(d, s, q).1.Succeeded? then
      Change.Published(q.name, Get(Published(s), q.name), s[q.action.from])
    else Same
  }

  /** What a name a request writes to or publishes from or to. */
  function Touched(q: Request): set<string> {
    match q.action
    case Write(_, _) => {q.name}
    case Publish(from, _, _) => {q.name, from}
    case _ => {}
  }

  lemma {:induction false} Frame(d: Digest, s: Storage, q: Request, name: string)
    requires name !in Touched(q)
    ensures Get(Respond(d, s, q).0, name) == Get(s, name)
  {
  }

  /** A successful publish moves the staged bytes, which have the digest it gave, to a name at its named predecessor. */
  lemma {:induction false} PublishMeans(d: Digest, s: Storage, q: Request)
    requires q.action.Publish? && Respond(d, s, q).1.Succeeded?
    ensures q.action.from in s && Hidden(q.action.from) && !Hidden(q.name)
    ensures Respond(d, s, q).0 == s[q.name := s[q.action.from]] - {q.action.from} && d(s[q.action.from]) == q.action.sha
    ensures q.action.naming.Absent? ==> q.name !in s
    ensures q.action.naming.Current? ==> q.name in s && d(s[q.name]) == q.action.naming.sha
  {
    StagedHidden(q.action.from);
    PublishedPlain(q.name);
  }

  /** Every request is one step of the store, and a refusal is none. */
  lemma {:induction false} StepRefines(d: Digest, s: Storage, q: Request)
    ensures Allowed(Published(s), ChangeOf(d, s, q))
    ensures Published(Respond(d, s, q).0) == After(Published(s), ChangeOf(d, s, q))
    ensures Respond(d, s, q).1.Failed? ==> Respond(d, s, q).0 == s
  {
    if q.action.Write? && StagedKind(q.name).Some? {
      StagedHidden(q.name);
    }
    if q.action.Publish? && Respond(d, s, q).1.Succeeded? {
      PublishMeans(d, s, q);
    }
  }

  /** Two successful publishes naming the same predecessor found the same bytes. */
  lemma {:induction false} SamePredecessor(d: Digest, s: Storage, q: Request, t: Storage, p: Request)
    requires Injective(d) && q.action.Publish? && p.action.Publish? && q.name == p.name
    requires Respond(d, s, q).1.Succeeded? && Respond(d, t, p).1.Succeeded?
    requires q.action.naming.Current? ==> p.action.naming == q.action.naming
    requires q.action.naming.Absent? ==> p.action.naming.Absent?
    ensures ChangeOf(d, s, q).Published? && ChangeOf(d, t, p).Published?
    ensures ChangeOf(d, s, q).before == ChangeOf(d, t, p).before
  {
    PublishMeans(d, s, q);
    PublishMeans(d, t, p);
  }

  // ----- Runs

  /** The broker after some requests, which it no longer answers once halted. */
  datatype Machine = Machine(storage: Storage, running: bool)

  function Reach(d: Digest, s: Storage, requests: seq<Request>): Machine {
    if requests == [] then Machine(s, true)
    else
      var m := Reach(d, s, requests[..|requests| - 1]);
      if !m.running then m
      else
        var (next, reply) := Respond(d, m.storage, requests[|requests| - 1]);
        Machine(next, !reply.Halted?)
  }

  function Changes(d: Digest, s: Storage, requests: seq<Request>): (c: seq<Change>)
    ensures |c| == |requests|
  {
    if requests == [] then []
    else
      var m := Reach(d, s, requests[..|requests| - 1]);
      Changes(d, s, requests[..|requests| - 1]) +
      [if m.running then ChangeOf(d, m.storage, requests[|requests| - 1]) else Same]
  }

  /** Any requests from any clients, in any order, make one run of the store. */
  lemma {:induction false} RunRefines(d: Digest, s: Storage, requests: seq<Request>)
    ensures Trace(Published(s), Changes(d, s, requests))
    ensures Published(Reach(d, s, requests).storage) == Final(Published(s), Changes(d, s, requests))
    decreases |requests|
  {
    if requests != [] {
      var before := requests[..|requests| - 1];
      RunRefines(d, s, before);
      StepRefines(d, Reach(d, s, before).storage, requests[|requests| - 1]);
      assert Changes(d, s, requests)[..|before|] == Changes(d, s, before);
    }
  }

  lemma {:induction false} ChangesAt(d: Digest, s: Storage, requests: seq<Request>, i: nat)
    requires i < |requests|
    ensures var m := Reach(d, s, requests[..i]);
            Changes(d, s, requests)[i] == if m.running then ChangeOf(d, m.storage, requests[i]) else Same
    decreases |requests|
  {
    if i != |requests| - 1 {
      ChangesAt(d, s, requests[..|requests| - 1], i);
      assert requests[..|requests| - 1][..i] == requests[..i];
    }
  }

  ghost predicate PublishesAt(d: Digest, s: Storage, requests: seq<Request>, i: nat)
    requires i < |requests|
  {
    var m := Reach(d, s, requests[..i]);
    requests[i].action.Publish? && m.running && Respond(d, m.storage, requests[i]).1.Succeeded?
  }

  /**
   A second publish naming the same predecessor succeeds only if a third one in between put back
   the predecessor's bytes.
   */
  lemma {:induction false} SecondPublish(d: Digest, s: Storage, requests: seq<Request>, i: nat, j: nat) returns (k: nat)
    requires Injective(d) && i < j < |requests| && PublishesAt(d, s, requests, i) && PublishesAt(d, s, requests, j)
    requires requests[i].name == requests[j].name && requests[i].action.naming == requests[j].action.naming
    requires var c := Changes(d, s, requests)[i]; c.Published? ==> c.before != Some(c.after)
    ensures i < k < j && Sets(Changes(d, s, requests)[k], requests[i].name)
    ensures Some(Changes(d, s, requests)[k].after) == Get(Published(Reach(d, s, requests[..i]).storage), requests[i].name)
  {
    RunRefines(d, s, requests);
    ChangesAt(d, s, requests, i);
    ChangesAt(d, s, requests, j);
    SamePredecessor(d, Reach(d, s, requests[..i]).storage, requests[i], Reach(d, s, requests[..j]).storage, requests[j]);
    k := SecondNeedsReturn(Published(s), Changes(d, s, requests), i, j);
  }

  // ----- Recovery files

  /** Every recovery file holds bytes of the digest in its name. */
  ghost predicate RecoveriesMatch(d: Digest, s: Storage) {
    forall name, sha :: name in s && IsRecovery(name, sha) ==> d(s[name]) == sha
  }

  lemma {:induction false} RecoveryStep(d: Digest, s: Storage, q: Request)
    requires RecoveriesMatch(d, s)
    ensures RecoveriesMatch(d, Respond(d, s, q).0)
  {
    var t := Respond(d, s, q).0;
    forall name, sha | name in t && IsRecovery(name, sha)
      ensures d(t[name]) == sha
    {
      PublishedPlain(name);
      if q.action.Write? && StagedKind(q.name).Some? {
        StagedHidden(q.name);
      }
      if q.action.Publish? && Respond(d, s, q).1.Succeeded? {
        PublishMeans(d, s, q);
        if name == q.name {
          RecoveryPublished(q, sha);
        }
      }
    }
  }

  lemma {:induction false} RecoveryPublished(q: Request, sha: string)
    requires Destined(q) && IsRecovery(q.name, sha)
    ensures q.action.sha == sha
  {
    RecoveryApart(sha);
    var kind := StagedKind(q.action.from).value;
    if kind.Recovery? {
      RecoveryParts(q.name, sha, q.action.sha);
    }
  }

  lemma {:induction false} RecoveriesKept(d: Digest, s: Storage, requests: seq<Request>)
    requires RecoveriesMatch(d, s)
    ensures RecoveriesMatch(d, Reach(d, s, requests).storage)
    decreases |requests|
  {
    if requests != [] {
      RecoveriesKept(d, s, requests[..|requests| - 1]);
      RecoveryStep(d, Reach(d, s, requests[..|requests| - 1]).storage, requests[|requests| - 1]);
    }
  }
}
