/** A compare-and-swap store: what both private-store brokers come to for their published names. */
module CasStore {
  import opened ByteStrings
  import opened Wrappers

  type View = map<string, Bytes>

  /** One step of the store: nothing, or a name moved from the named predecessor to new bytes. */
  datatype Change = Same | Published(name: string, before: Option<Bytes>, after: Bytes)

  function Get(v: View, name: string): Option<Bytes> {
    if name in v then Some(v[name]) else None
  }

  predicate Allowed(v: View, c: Change) {
    c.Published? ==> Get(v, c.name) == c.before
  }

  function After(v: View, c: Change): View {
    if c.Published? then v[c.name := c.after] else v
  }

  ghost predicate Trace(v: View, changes: seq<Change>) {
    changes == [] || (Trace(v, changes[..|changes| - 1]) && Allowed(Final(v, changes[..|changes| - 1]), changes[|changes| - 1]))
  }

  function Final(v: View, changes: seq<Change>): View {
    if changes == [] then v else After(Final(v, changes[..|changes| - 1]), changes[|changes| - 1])
  }

  predicate Sets(c: Change, name: string) {
    c.Published? && c.name == name
  }

  /** Published bytes change only by a publish of their name. */
  lemma {:induction false} Untouched(v: View, changes: seq<Change>, name: string)
    requires forall k :: 0 <= k < |changes| ==> !Sets(changes[k], name)
    ensures Get(Final(v, changes), name) == Get(v, name)
    decreases |changes|
  {
    if changes != [] {
      Untouched(v, changes[..|changes| - 1], name);
    }
  }

  /** The value of a name is what its last publish left. */
  lemma {:induction false} LastPublish(v: View, changes: seq<Change>, name: string) returns (k: nat)
    requires exists j :: 0 <= j < |changes| && Sets(changes[j], name)
    ensures k < |changes| && Sets(changes[k], name) && Get(Final(v, changes), name) == Some(changes[k].after)
    ensures forall j :: k < j < |changes| ==> !Sets(changes[j], name)
    decreases |changes|
  {
    var last := |changes| - 1;
    if Sets(changes[last], name) {
      k := last;
    } else {
      k := LastPublish(v, changes[..last], name);
    }
  }

  lemma {:induction false} TraceAt(v: View, changes: seq<Change>, j: nat)
    requires Trace(v, changes) && j < |changes|
    ensures Allowed(Final(v, changes[..j]), changes[j])
    decreases |changes|
  {
    if j != |changes| - 1 {
      TraceAt(v, changes[..|changes| - 1], j);
      assert changes[..|changes| - 1][..j] == changes[..j];
    }
  }

  /** The i-th publish has been made: j names its predecessor again only if a publish between restored it. */
  lemma {:induction false} SecondNeedsReturn(v: View, changes: seq<Change>, i: nat, j: nat) returns (k: nat)
    requires Trace(v, changes) && i < j < |changes|
    requires changes[i].Published? && Sets(changes[j], changes[i].name)
    requires changes[j].before == changes[i].before && changes[i].before != Some(changes[i].after)
    ensures i < k < j && Sets(changes[k], changes[i].name) && changes[i].before == Some(changes[k].after)
  {
    var name := changes[i].name;
    assert changes[..j][i] == changes[i];
    k := LastPublish(v, changes[..j], name);
    TraceAt(v, changes, j);
    assert k >= i;
  }

  /** What was published as a first value can be published as one only once. */
  lemma {:induction false} FirstOnlyOnce(v: View, changes: seq<Change>, i: nat, j: nat)
    requires Trace(v, changes) && i < j < |changes|
    requires changes[i].Published? && Sets(changes[j], changes[i].name)
    ensures changes[j].before.Some?
  {
    assert changes[..j][i] == changes[i];
    var k := LastPublish(v, changes[..j], changes[i].name);
    TraceAt(v, changes, j);
  }
}
