/**
 The private-store broker over files: the same compare-and-swap store as the registry broker, with
 reads of any length and two switches its owner sets.
 */
module PrivateBroker {
  import opened ByteStrings
  import opened CasStore
  import opened Wrappers
  import N = RegistryNames
  import R = RegistryBroker

  datatype Kind = Enrollment | Captures

  function KindText(k: Kind): string {
    match k
    case Enrollment => "enrollment"
    case Captures => "captures"
  }

  function Permanent(k: Kind): string {
    "uid/" + KindText(k) + ".json"
  }

  function PermanentKind(name: string): Option<Kind> {
    if name == Permanent(Enrollment) then Some(Enrollment) else if name == Permanent(Captures) then Some(Captures) else None
  }

  function Head(k: Kind): string {
    N.HeadOf(KindText(k))
  }

  predicate IsPending(name: string, k: Kind) {
    N.PendingAfter(name, Head(k))
  }

  predicate Staged(name: string) {
    IsPending(name, Enrollment) || IsPending(name, Captures)
  }

  lemma {:induction false} KindsApart(name: string, k: Kind)
    ensures IsPending(name, k) ==> N.Hidden(name) && PermanentKind(name).None?
    ensures !N.Hidden(Permanent(k)) && PermanentKind(Permanent(k)) == Some(k)
  {
    assert Permanent(k)[4] == KindText(k)[0];
    assert forall j :: Permanent(j)[4] == KindText(j)[0];
    if IsPending(name, k) {
      assert name[4] == name[..|Head(k)|][4] == Head(k)[4] == '.';
    }
  }

  datatype Action =
    | Read(offset: int, length: int, digest: bool)
    | Write(data: Option<Bytes>, append: bool)
    | Publish(from: string, sha: string, naming: R.Expectation)
    | Other

  datatype Request = Request(private: bool, name: string, action: Action)

  /** What the owner has set when a request is answered. */
  datatype Switches = Switches(durable: bool, conflict: bool)

  datatype Value =
    | Page(offset: int, size: nat, data: Bytes, eof: bool, sha: Option<string>)
    | Wrote(bytes: nat, size: nat, appended: bool)
    | Moved(size: nat, fingerprint: string, replaced: bool, durable: bool)

  datatype Reply = Succeeded(value: Value) | Failed(reason: R.Reason) | Halted

  type Files = map<string, Bytes>

  // ----- The specification

  /** A slice from an index inside the bytes to any stop, one below zero counted from the end. */
  function Slice(raw: Bytes, start: nat, stop: int): Bytes
    requires start <= |raw|
  {
    var end := if stop < 0 then (if stop + |raw| < 0 then 0 else stop + |raw|) else if stop > |raw| then |raw| else stop;
    if end <= start then [] else raw[start..end]
  }

  function RespondRead(d: R.Digest, f: Files, q: Request): Reply
    requires q.action.Read?
  {
    var Read(offset, length, digest) := q.action;
    if PermanentKind(q.name).None? then Halted
    else if q.name !in f then Failed(R.NotFound)
    else
      var raw := f[q.name];
      if !(0 <= offset <= |raw|) then Halted
      else
        var data := Slice(raw, offset, offset + length);
        Succeeded(Page(offset, |raw|, data, offset + |data| == |raw|, if digest then Some(d(raw)) else None))
  }

  function RespondPublish(d: R.Digest, f: Files, q: Request, w: Switches): (Files, Reply)
    requires q.action.Publish?
  {
    var Publish(from, sha, naming) := q.action;
    if PermanentKind(q.name).None? || !IsPending(from, PermanentKind(q.name).value) || from !in f || d(f[from]) != sha then (f, Halted)
    else
      match R.Conflict(d, Get(f, q.name), naming)
      case None => (f, Halted)
      case Some(mismatch) =>
        if mismatch || w.conflict then (f, Failed(R.GenerationMismatch))
        else (f[q.name := f[from]] - {from}, Succeeded(Moved(|f[from]|, sha, q.name in f, w.durable)))
  }

  function Respond(d: R.Digest, f: Files, q: Request, w: Switches): (Files, Reply) {
    if !q.private || (PermanentKind(q.name).None? && !Staged(q.name)) then (f, Halted)
    else
      match q.action
      case Read(_, _, _) => (f, RespondRead(d, f, q))
      case Write(data, append) =>
        if PermanentKind(q.name).Some? || data.None? || !(0 < |data.value| <= R.PAGE) then (f, Halted)
        else
          var whole := R.Staged(f, q.name, data.value, append);
          (f[q.name := whole], Succeeded(Wrote(|data.value|, |whole|, append)))
      case Publish(_, _, _) => RespondPublish(d, f, q, w)
      case Other => (f, Halted)
  }

  // ----- The broker

  datatype Call = Call(action: Action, path: string, succeeded: bool)

  class Broker {
    var files: Files
    var calls: seq<Call>
    var durable: bool
    var conflict: bool
    const digest: R.Digest

    constructor (digest: R.Digest, files: Files)
      ensures this.digest == digest && this.files == files && calls == [] && durable && !conflict
    {
      this.digest, this.files, calls, durable, conflict := digest, files, [], true, false;
    }

    method Serve(q: Request) returns (r: Reply)
      modifies this`files, this`calls
      ensures (files, r) == Respond(digest, old(files), q, Switches(durable, conflict))
      ensures calls == if r.Halted? then old(calls) else old(calls) + [Call(q.action, q.name, r.Succeeded?)]
    {
      var name := q.name;
      if !q.private {
        return Halted;
      }
      var permanent := name == Permanent(Enrollment) || name == Permanent(Captures);
      if !permanent && !Staged(name) {
        return Halted;
      }
      match q.action {
        case Read(offset, length, wanted) =>
          if !permanent {
            return Halted;
          }
          if name !in files {
            r := Failed(R.NotFound);
          } else {
            var raw := files[name];
            if !(0 <= offset <= |raw|) {
              return Halted;
            }
            var data := Slice(raw, offset, offset + length);
            r := Succeeded(Page(offset, |raw|, data, offset + |data| == |raw|, if wanted then Some(digest(raw)) else None));
          }
        case Write(data, append) =>
          if permanent || data.None? || |data.value| == 0 || |data.value| > 65536 {
            return Halted;
          }
          files := files[name := (if append && name in files then files[name] else []) + data.value];
          r := Succeeded(Wrote(|data.value|, |files[name]|, append));
        case Publish(from, sha, naming) =>
          if !permanent || !IsPending(from, if name == Permanent(Captures) then Captures else Enrollment) || from !in files {
            return Halted;
          }
          var raw, before := files[from], Get(files, name);
          if digest(raw) != sha {
            return Halted;
          }
          var mismatch := R.Conflict(digest, before, naming);
          if mismatch.None? {
            return Halted;
          }
          if mismatch.value || conflict {
            r := Failed(R.GenerationMismatch);
          } else {
            files := files[name := raw] - {from};
            r := Succeeded(Moved(|raw|, digest(raw), before.Some?, durable));
          }
        case Other => return Halted;
      }
      calls := calls + [Call(q.action, name, r.Succeeded?)];
    }
  }

  // ----- One compare-and-swap store

  function Published(f: Files): View {
    map name | name in f && PermanentKind(name).Some? :: f[name]
  }

  function ChangeOf(d: R.Digest, f: Files, q: Request, w: Switches): Change {
    if q.action.Publish? && q.action.from in f && Respond(d, f, q, w).1.Succeeded? then
      Change.Published(q.name, Get(Published(f), q.name), f[q.action.from])
    else Same
  }

  /** Every request is one step of the store; neither a refusal nor a halt changes a file. */
  lemma {:induction false} StepRefines(d: R.Digest, f: Files, q: Request, w: Switches)
    ensures Allowed(Published(f), ChangeOf(d, f, q, w))
    ensures Published(Respond(d, f, q, w).0) == After(Published(f), ChangeOf(d, f, q, w))
    ensures !Respond(d, f, q, w).1.Succeeded? ==> Respond(d, f, q, w).0 == f
  {
    if q.action.Publish? && PermanentKind(q.name).Some? && IsPending(q.action.from, PermanentKind(q.name).value) {
      KindsApart(q.action.from, PermanentKind(q.name).value);
    }
  }

  lemma {:induction false} PublishMeans(d: R.Digest, f: Files, q: Request, w: Switches)
    requires q.action.Publish? && Respond(d, f, q, w).1.Succeeded?
    ensures q.action.from in f && ChangeOf(d, f, q, w) == Change.Published(q.name, Get(f, q.name), f[q.action.from])
    ensures d(f[q.action.from]) == q.action.sha && !w.conflict
    ensures q.action.naming.Absent? ==> q.name !in f
    ensures q.action.naming.Current? ==> q.name in f && d(f[q.name]) == q.action.naming.sha
  {
  }

  /** Requests in the order they are served, with the switches each one met. */
  function Reach(d: R.Digest, f: Files, served: seq<(Request, Switches)>): (Files, bool) {
    if served == [] then (f, true)
    else
      var m := Reach(d, f, served[..|served| - 1]);
      var (q, w) := served[|served| - 1];
      if m.1 then (Respond(d, m.0, q, w).0, !Respond(d, m.0, q, w).1.Halted?) else m
  }

  function Changes(d: R.Digest, f: Files, served: seq<(Request, Switches)>): (c: seq<Change>)
    ensures |c| == |served|
  {
    if served == [] then []
    else
      var m := Reach(d, f, served[..|served| - 1]);
      Changes(d, f, served[..|served| - 1]) +
      [if m.1 then ChangeOf(d, m.0, served[|served| - 1].0, served[|served| - 1].1) else Same]
  }

  lemma {:induction false} RunRefines(d: R.Digest, f: Files, served: seq<(Request, Switches)>)
    ensures Trace(Published(f), Changes(d, f, served))
    ensures Published(Reach(d, f, served).0) == Final(Published(f), Changes(d, f, served))
    decreases |served|
  {
    if served != [] {
      var before := served[..|served| - 1];
      RunRefines(d, f, before);
      StepRefines(d, Reach(d, f, before).0, served[|served| - 1].0, served[|served| - 1].1);
      assert Changes(d, f, served)[..|before|] == Changes(d, f, before);
    }
  }

  lemma {:induction false} ChangesAt(d: R.Digest, f: Files, served: seq<(Request, Switches)>, i: nat)
    requires i < |served|
    ensures var m := Reach(d, f, served[..i]);
            Changes(d, f, served)[i] == if m.1 then ChangeOf(d, m.0, served[i].0, served[i].1) else Same
    decreases |served|
  {
    if i != |served| - 1 {
      ChangesAt(d, f, served[..|served| - 1], i);
      assert served[..|served| - 1][..i] == served[..i];
    }
  }

  ghost predicate PublishesAt(d: R.Digest, f: Files, served: seq<(Request, Switches)>, i: nat)
    requires i < |served|
  {
    var m := Reach(d, f, served[..i]);
    served[i].0.action.Publish? && m.1 && Respond(d, m.0, served[i].0, served[i].1).1.Succeeded?
  }

  /** A second publish naming the same predecessor needs one in between that put its bytes back. */
  lemma {:induction false} SecondPublish(d: R.Digest, f: Files, served: seq<(Request, Switches)>, i: nat, j: nat) returns (k: nat)
    requires R.Injective(d) && i < j < |served| && PublishesAt(d, f, served, i) && PublishesAt(d, f, served, j)
    requires served[i].0.name == served[j].0.name && served[i].0.action.naming == served[j].0.action.naming
    requires Changes(d, f, served)[i].Published? ==>
               Changes(d, f, served)[i].before != Some(Changes(d, f, served)[i].after)
    ensures i < k < j && Sets(Changes(d, f, served)[k], served[i].0.name)
    ensures Some(Changes(d, f, served)[k].after) == Get(Reach(d, f, served[..i]).0, served[i].0.name)
  {
    RunRefines(d, f, served);
    ChangesAt(d, f, served, i);
    ChangesAt(d, f, served, j);
    PublishMeans(d, Reach(d, f, served[..i]).0, served[i].0, served[i].1);
    PublishMeans(d, Reach(d, f, served[..j]).0, served[j].0, served[j].1);
    k := SecondNeedsReturn(Published(f), Changes(d, f, served), i, j);
  }
}
