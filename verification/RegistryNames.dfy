/** Names of the speaker registry's private store: five regular files, staged files, and recovery files. */
module RegistryNames {
  import opened Wrappers

  datatype Kind = Speakers | Heard | Recovery

  function KindText(k: Kind): string {
    match k
    case Speakers => "speakers"
    case Heard => "heard"
    case Recovery => "recovery"
  }

  predicate Hex(c: char) {
    '0' <= c <= '9' || 'a' <= c <= 'f'
  }

  /** What the name of a staged file of some kind begins with. */
  function HeadOf(kind: string): string {
    "uid/." + kind + "-"
  }

  function Head(k: Kind): string {
    HeadOf(KindText(k))
  }

  function Pending(k: Kind, hex: string): string {
    Head(k) + hex + ".pending"
  }

  /** The regular expression of one kind, as a match of its parts. */
  predicate IsPending(name: string, k: Kind) {
    PendingAfter(name, Head(k))
  }

  predicate PendingAfter(name: string, head: string) {
    var h := |head|;
    && |name| == h + 64 + 8 && name[..h] == head && name[h + 64..] == ".pending"
    && forall i :: h <= i < h + 64 ==> Hex(name[i])
  }

  function StagedKind(name: string): Option<Kind> {
    if IsPending(name, Speakers) then Some(Speakers)
    else if IsPending(name, Heard) then Some(Heard)
    else if IsPending(name, Recovery) then Some(Recovery)
    else None
  }

  lemma {:induction false} PendingParts(name: string, k: Kind)
    ensures IsPending(name, k) <==> exists hex :: |hex| == 64 && (forall i :: 0 <= i < 64 ==> Hex(hex[i])) && name == Pending(k, hex)
  {
    var h := |Head(k)|;
    if IsPending(name, k) {
      var hex := name[h..h + 64];
      assert name == name[..h] + hex + name[h + 64..];
      assert name == Pending(k, hex);
    }
    forall hex | |hex| == 64 && (forall i :: 0 <= i < 64 ==> Hex(hex[i])) && name == Pending(k, hex)
      ensures IsPending(name, k)
    {
      assert name[..h] == Head(k) && name[h + 64..] == ".pending";
      assert forall i :: h <= i < h + 64 ==> name[i] == hex[i - h];
    }
  }

  function Destination(k: Kind, sha: string): string {
    match k
    case Speakers => "uid/speakers.json"
    case Heard => "uid/speakers-heard.json"
    case Recovery => "uid/recovery-" + sha + ".json"
  }

  function Limit(k: Kind): nat {
    match k
    case Speakers => 8388608
    case Heard => 65536
    case Recovery => 12582912
  }

  predicate Regular(name: string) {
    || name == "uid/speakers.json" || name == "uid/speakers-heard.json" || name == "uid/enrollment.json"
    || name == "uid/captures.json" || name == "uid/corrections.json"
  }

  /** Staged names are the hidden ones. */
  predicate Hidden(name: string) {
    |name| > 4 && name[4] == '.'
  }

  lemma {:induction false} StagedHidden(name: string)
    requires StagedKind(name).Some?
    ensures Hidden(name)
  {
    var k := StagedKind(name).value;
    assert IsPending(name, k);
    assert name[4] == name[..|Head(k)|][4] == Head(k)[4] == '.';
  }

  lemma {:induction false} PublishedPlain(name: string)
    ensures Regular(name) ==> !Hidden(name)
    ensures forall k, sha :: !Hidden(Destination(k, sha))
  {
    forall k, sha
      ensures !Hidden(Destination(k, sha))
    {
      assert Destination(k, sha)[4] != '.' by {
        match k
        case Speakers =>
        case Heard =>
        case Recovery => assert Destination(k, sha)[4] == "uid/recovery-"[4];
      }
    }
  }

  /** Whether a name is that of a recovery file; Regular names are not. */
  predicate IsRecovery(name: string, sha: string) {
    name == Destination(Recovery, sha)
  }

  lemma {:induction false} RecoveryParts(name: string, sha: string, other: string)
    requires IsRecovery(name, sha) && IsRecovery(name, other)
    ensures sha == other
  {
    var p := |"uid/recovery-"|;
    assert |sha| == |other|;
    assert sha == name[p..p + |sha|] && other == name[p..p + |other|];
  }

  lemma {:induction false} RecoveryApart(sha: string)
    ensures !Regular(Destination(Recovery, sha))
  {
    var name := Destination(Recovery, sha);
    assert name[4] == 'r' && name[5] == 'e';
    assert name[12] == '-';
  }
}
