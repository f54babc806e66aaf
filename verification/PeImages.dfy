/**
 Portable executable images written out field by field, as the "MS-DOS Stub", "COFF File Header" and
 "Optional Header" sections of the PE format specification lay them out: where the signing check
 finds the checksum and the security directory, and which pairs of files it accepts.
 */
module PeImages {
  import opened Authenticode
  import opened ByteStrings
  import opened Wrappers

  // ----- Images

  /**
   An image: the stub after "MZ" and the bytes up to the PE header; the COFF fields around the size of
   the optional header; the optional header's fields up to the checksum, the checksum, the fields up to
   the number of directories, that number, the four directories before the security entry, that
   entry, and what is left of the optional header; and all that follows.
   */
  datatype Image = Image(
    stub: Bytes, gap: Bytes, machine: Bytes, traits: Bytes, plus: bool, fields: Bytes, checksum: Bytes, middle: Bytes,
    count: nat, directories: Bytes, security: Bytes, rest: Bytes, body: Bytes)

  function OptionalSize(i: Image): nat {
    2 + |i.fields| + |i.checksum| + |i.middle| + 4 + |i.directories| + |i.security| + |i.rest|
  }

  ghost predicate WellFormed(i: Image) {
    && |i.stub| == 58 && 64 + |i.gap| < 4294967296 && |i.machine| == 16 && |i.traits| == 2
    && |i.fields| == 62 && |i.checksum| == 4 && |i.middle| == (if i.plus then 40 else 24)
    && 5 <= i.count < 4294967296 && |i.directories| == 32 && |i.security| == 8
    && 152 <= OptionalSize(i) < 65536
  }

  function Dos(i: Image): Bytes
    requires 64 + |i.gap| < 4294967296
  {
    [77, 90] + i.stub + Le32(64 + |i.gap|) + i.gap
  }

  function Coff(i: Image): Bytes
    requires OptionalSize(i) < 65536
  {
    [80, 69, 0, 0] + i.machine + Le16(OptionalSize(i)) + i.traits
  }

  function Magic(i: Image): nat {
    if i.plus then 0x20b else 0x10b
  }

  /** The optional header between the checksum and the security entry. */
  function Between(i: Image): Bytes
    requires i.count < 4294967296
  {
    i.middle + Le32(i.count) + i.directories
  }

  /** All before the checksum. */
  function Upto(i: Image): Bytes
    requires WellFormed(i)
  {
    Dos(i) + Coff(i) + (Le16(Magic(i)) + i.fields)
  }

  function Built(i: Image): Bytes
    requires WellFormed(i)
  {
    Upto(i) + i.checksum + Between(i) + i.security + (i.rest + i.body)
  }

  // ----- Reading an image

  lemma {:induction false} BuiltParts(i: Image)
    requires WellFormed(i)
    ensures var (raw, check) := (Built(i), |Upto(i)|);
            PartAt(raw, 0, Upto(i)) && PartAt(raw, check, i.checksum) && PartAt(raw, check + 4, Between(i)) &&
            PartAt(raw, check + 4 + |Between(i)|, i.security)
    ensures |Upto(i)| == 64 + |i.gap| + 24 + 64 && |Built(i)| == 64 + |i.gap| + 24 + OptionalSize(i) + |i.body|
  {
    var raw := Built(i);
    assert raw[0..0 + |raw|] == raw;
    SplitPart(raw, 0, Upto(i) + i.checksum + Between(i) + i.security, i.rest + i.body);
    SplitPart(raw, 0, Upto(i) + i.checksum + Between(i), i.security);
    SplitPart(raw, 0, Upto(i) + i.checksum, Between(i));
    SplitPart(raw, 0, Upto(i), i.checksum);
  }

  lemma {:induction false} UptoParts(i: Image, raw: Bytes)
    requires WellFormed(i) && PartAt(raw, 0, Upto(i))
    ensures var pe := 64 + |i.gap|;
            PartAt(raw, 0, Dos(i)) && PartAt(raw, pe, Coff(i)) && PartAt(raw, pe + 24, Le16(Magic(i)))
  {
    SplitPart(raw, 0, Dos(i) + Coff(i), Le16(Magic(i)) + i.fields);
    SplitPart(raw, 0, Dos(i), Coff(i));
    SplitPart(raw, |Dos(i) + Coff(i)|, Le16(Magic(i)), i.fields);
  }

  lemma {:induction false} DosRead(i: Image, raw: Bytes)
    requires WellFormed(i) && PartAt(raw, 0, Dos(i))
    ensures |raw| >= 64 && raw[0] == 77 && raw[1] == 90 && U32(raw, 60) == 64 + |i.gap|
  {
    SplitPart(raw, 0, [77, 90] + i.stub + Le32(64 + |i.gap|), i.gap);
    SplitPart(raw, 0, [77, 90] + i.stub, Le32(64 + |i.gap|));
    SplitPart(raw, 0, [77, 90], i.stub);
    HeldByte(raw, 0, [77, 90], 0);
    HeldByte(raw, 0, [77, 90], 1);
    Held32(raw, 60, 64 + |i.gap|);
  }

  lemma {:induction false} CoffRead(i: Image, raw: Bytes, pe: nat)
    requires WellFormed(i) && PartAt(raw, pe, Coff(i))
    ensures pe + 24 <= |raw| && raw[pe] == 80 && raw[pe + 1] == 69 && raw[pe + 2] == 0 && raw[pe + 3] == 0
    ensures U16(raw, pe + 20) == OptionalSize(i)
  {
    var head: Bytes := [80, 69, 0, 0];
    SplitPart(raw, pe, head + i.machine + Le16(OptionalSize(i)), i.traits);
    SplitPart(raw, pe, head + i.machine, Le16(OptionalSize(i)));
    SplitPart(raw, pe, head, i.machine);
    HeldByte(raw, pe, head, 0);
    HeldByte(raw, pe, head, 1);
    HeldByte(raw, pe, head, 2);
    HeldByte(raw, pe, head, 3);
    Held16(raw, pe + 20, OptionalSize(i));
  }

  lemma {:induction false} CountRead(i: Image, raw: Bytes, at: nat)
    requires WellFormed(i) && PartAt(raw, at, Between(i))
    ensures at + |i.middle| + 4 <= |raw| && U32(raw, at + |i.middle|) == i.count
  {
    SplitPart(raw, at, i.middle + Le32(i.count), i.directories);
    SplitPart(raw, at, i.middle, Le32(i.count));
    Held32(raw, at + |i.middle|, i.count);
  }

  lemma {:induction false} SecurityRead(raw: Bytes, at: nat, entry: Bytes)
    requires |entry| == 8 && PartAt(raw, at, entry)
    ensures U32(raw, at) == U32(entry, 0) && U32(raw, at + 4) == U32(entry, 4)
  {
    assert raw[at..at + 8][0..4] == raw[at..at + 4] && raw[at..at + 8][4..8] == raw[at + 4..at + 8];
    SameU32(raw, at, entry, 0);
    SameU32(raw, at + 4, entry, 4);
  }

  /** The check finds the checksum behind the fields before it, and the security entry behind the four directories. */
  lemma {:induction false} BuiltLayout(i: Image)
    requires WellFormed(i)
    ensures LayoutOf(Built(i)) ==
            Success(Layout(|Upto(i)|, |Upto(i)| + 4 + |Between(i)|, U32(i.security, 0), U32(i.security, 4)))
  {
    var raw, pe := Built(i), 64 + |i.gap|;
    BuiltParts(i);
    UptoParts(i, raw);
    DosRead(i, raw);
    CoffRead(i, raw, pe);
    Held16(raw, pe + 24, Magic(i));
    CountRead(i, raw, |Upto(i)| + 4);
    SecurityRead(raw, |Upto(i)| + 4 + |Between(i)|, i.security);
  }

  // ----- Every file the check can read is an image

  function SliceOf(raw: Bytes, i: nat, j: nat): Bytes
    requires i <= j <= |raw|
  {
    raw[i..j]
  }

  lemma {:induction false} SlicePart(raw: Bytes, i: nat, j: nat)
    requires i <= j <= |raw|
    ensures |SliceOf(raw, i, j)| == j - i && PartAt(raw, i, SliceOf(raw, i, j))
  {
  }

  /** The image whose fields are a file's own. */
  function ImageOf(raw: Bytes): Image
    requires LayoutOf(raw).Success?
  {
    var pe := U32(raw, 60);
    var (optional, size) := (pe + 24, U16(raw, pe + 20));
    var directories := Directories(raw, optional);
    Image(SliceOf(raw, 2, 60), SliceOf(raw, 64, pe), SliceOf(raw, pe + 4, pe + 20), SliceOf(raw, pe + 22, pe + 24),
          U16(raw, optional) == 0x20b, SliceOf(raw, optional + 2, optional + 64), SliceOf(raw, optional + 64, optional + 68),
          SliceOf(raw, optional + 68, directories - 4), U32(raw, directories - 4), SliceOf(raw, directories, directories + 32),
          SliceOf(raw, directories + 32, directories + 40), SliceOf(raw, directories + 40, optional + size),
          SliceOf(raw, optional + size, |raw|))
  }

  lemma {:induction false} ImageFormed(raw: Bytes)
    requires LayoutOf(raw).Success?
    ensures WellFormed(ImageOf(raw)) && OptionalSize(ImageOf(raw)) == U16(raw, U32(raw, 60) + 20)
    ensures 64 + |ImageOf(raw).gap| == U32(raw, 60)
  {
    SameU32(raw, 60, raw, 60);
    SameU16(raw, U32(raw, 60) + 20, raw, U32(raw, 60) + 20);
    var at := Directories(raw, U32(raw, 60) + 24) - 4;
    SameU32(raw, at, raw, at);
  }

  lemma {:induction false} DosHeld(raw: Bytes, i: Image)
    requires LayoutOf(raw).Success? && i == ImageOf(raw) && WellFormed(i) && 64 + |i.gap| == U32(raw, 60)
    ensures PartAt(raw, 0, Dos(i))
  {
    Reads32(raw, 60);
    SlicePart(raw, 2, 60);
    SlicePart(raw, 64, U32(raw, 60));
    assert PartAt(raw, 0, [77, 90]);
    JoinParts(raw, 0, [77, 90], i.stub);
    JoinParts(raw, 0, [77, 90] + i.stub, Le32(64 + |i.gap|));
    JoinParts(raw, 0, [77, 90] + i.stub + Le32(64 + |i.gap|), i.gap);
  }

  lemma {:induction false} CoffHeld(raw: Bytes, i: Image, pe: nat)
    requires LayoutOf(raw).Success? && i == ImageOf(raw) && WellFormed(i) && pe == U32(raw, 60)
    requires OptionalSize(i) == U16(raw, pe + 20)
    ensures PartAt(raw, pe, Coff(i))
  {
    var head: Bytes := [80, 69, 0, 0];
    Reads16(raw, pe + 20);
    SlicePart(raw, pe + 4, pe + 20);
    SlicePart(raw, pe + 22, pe + 24);
    assert PartAt(raw, pe, head);
    JoinParts(raw, pe, head, i.machine);
    JoinParts(raw, pe, head + i.machine, Le16(OptionalSize(i)));
    JoinParts(raw, pe, head + i.machine + Le16(OptionalSize(i)), i.traits);
  }

  lemma {:induction false} UptoHeld(raw: Bytes, i: Image)
    requires LayoutOf(raw).Success? && i == ImageOf(raw) && WellFormed(i) && 64 + |i.gap| == U32(raw, 60)
    requires OptionalSize(i) == U16(raw, U32(raw, 60) + 20)
    ensures PartAt(raw, 0, Upto(i))
  {
    var pe := U32(raw, 60);
    DosHeld(raw, i);
    CoffHeld(raw, i, pe);
    Reads16(raw, pe + 24);
    assert Magic(i) == U16(raw, pe + 24);
    SlicePart(raw, pe + 26, pe + 88);
    JoinParts(raw, pe + 24, Le16(Magic(i)), i.fields);
    JoinParts(raw, 0, Dos(i), Coff(i));
    JoinParts(raw, 0, Dos(i) + Coff(i), Le16(Magic(i)) + i.fields);
  }

  lemma {:induction false} BetweenHeld(raw: Bytes, i: Image, at: nat)
    requires LayoutOf(raw).Success? && i == ImageOf(raw) && WellFormed(i) && at == U32(raw, 60) + 92
    ensures PartAt(raw, at, Between(i)) && at + |Between(i)| == Directories(raw, U32(raw, 60) + 24) + 32
  {
    var directories := Directories(raw, U32(raw, 60) + 24);
    Reads32(raw, directories - 4);
    SlicePart(raw, at, directories - 4);
    SlicePart(raw, directories, directories + 32);
    JoinParts(raw, at, i.middle, Le32(i.count));
    JoinParts(raw, at, i.middle + Le32(i.count), i.directories);
  }

  /** Every file in which the check finds a layout is the image built of its own fields. */
  lemma {:induction false} ImageBuilt(raw: Bytes)
    requires LayoutOf(raw).Success?
    ensures WellFormed(ImageOf(raw)) && Built(ImageOf(raw)) == raw
  {
    var i, pe := ImageOf(raw), U32(raw, 60);
    var cert := Directories(raw, pe + 24) + 32;
    var end := pe + 24 + U16(raw, pe + 20);
    ImageFormed(raw);
    UptoHeld(raw, i);
    SlicePart(raw, pe + 88, pe + 92);
    BetweenHeld(raw, i, pe + 92);
    SlicePart(raw, cert, cert + 8);
    SlicePart(raw, cert + 8, end);
    SlicePart(raw, end, |raw|);
    JoinParts(raw, 0, Upto(i), i.checksum);
    JoinParts(raw, 0, Upto(i) + i.checksum, Between(i));
    JoinParts(raw, 0, Upto(i) + i.checksum + Between(i), i.security);
    JoinParts(raw, cert + 8, i.rest, i.body);
    JoinParts(raw, 0, Upto(i) + i.checksum + Between(i) + i.security, i.rest + i.body);
    assert raw[0..0 + |raw|] == raw;
  }

  // ----- What the check accepts

  /** The image with another checksum and security entry. */
  function Rebound(i: Image, checksum: Bytes, entry: Bytes): Image {
    i.(checksum := checksum, security := entry)
  }

  lemma {:induction false} ReboundPatched(i: Image, checksum: Bytes, entry: Bytes)
    requires WellFormed(i) && |checksum| == 4 && |entry| == 8
    ensures WellFormed(Rebound(i, checksum, entry))
    ensures |Upto(i)| + 4 + |Between(i)| + 8 <= |Built(i)|
    ensures Built(Rebound(i, checksum, entry)) ==
            Patched(Patched(Built(i), |Upto(i)|, checksum), |Upto(i)| + 4 + |Between(i)|, entry)
  {
    var (a, b, z) := (Upto(i), Between(i), i.rest + i.body);
    var r := Rebound(i, checksum, entry);
    assert OptionalSize(r) == OptionalSize(i);
    assert Upto(r) == a && Between(r) == b;
    PatchedTwo(a, i.checksum, checksum, b, i.security, entry, z);
  }

  lemma {:induction false} PatchedTwo(a: Bytes, c: Bytes, c': Bytes, b: Bytes, d: Bytes, d': Bytes, z: Bytes)
    requires |c| == |c'| && |d| == |d'|
    ensures Patched(Patched(a + c + b + d + z, |a|, c'), |a| + |c| + |b|, d') == a + c' + b + d' + z
  {
    var first := Patched(a + c + b + d + z, |a|, c');
    assert first == a + c' + b + d + z;
    assert Patched(a + c' + b + d + z, |a| + |c| + |b|, d') == a + c' + b + d' + z;
  }

  /** An unsigned image, and its signed form: another checksum, an entry for the records, zeros to a multiple of eight, the records. */
  ghost predicate SignedForm(before: Bytes, after: Bytes, i: Image, checksum: Bytes, bodies: seq<Bytes>) {
    && WellFormed(i) && i.security == Zeros(8) && before == Built(i)
    && |checksum| == 4 && Short(bodies) && bodies != []
    && Aligned(|before|) < 4294967296 && |Table(bodies)| < 4294967296
    && WellFormed(Rebound(i, checksum, Directory(Aligned(|before|), |Table(bodies)|)))
    && after == Built(Rebound(i, checksum, Directory(Aligned(|before|), |Table(bodies)|)))
                + Zeros(Aligned(|before|) - |before|) + Table(bodies)
  }

  lemma {:induction false} ZeroEntry(entry: Bytes)
    requires |entry| == 8
    ensures U32(entry, 0) == 0 && U32(entry, 4) == 0 <==> entry == Zeros(8)
  {
    if U32(entry, 0) == 0 && U32(entry, 4) == 0 {
      ZeroU32(entry, 0);
      ZeroU32(entry, 4);
    }
  }

  lemma {:induction false} SignableMeans(i: Image, checksum: Bytes, bodies: seq<Bytes>, l: Layout)
    requires WellFormed(i) && LayoutOf(Built(i)) == Success(l) && |checksum| == 4
    ensures Signable(Built(i), l, checksum, bodies) <==>
            i.security == Zeros(8) && Short(bodies) && bodies != [] &&
            Aligned(|Built(i)|) < 4294967296 && |Table(bodies)| < 4294967296
  {
    BuiltLayout(i);
    ZeroEntry(i.security);
  }

  lemma {:induction false} SignedMeans(i: Image, checksum: Bytes, bodies: seq<Bytes>, l: Layout)
    requires WellFormed(i) && LayoutOf(Built(i)) == Success(l) && Signable(Built(i), l, checksum, bodies)
    ensures |Table(bodies)| < 4294967296
    ensures WellFormed(Rebound(i, checksum, Directory(Aligned(|Built(i)|), |Table(bodies)|)))
    ensures Signed(Built(i), l, checksum, bodies) ==
            Built(Rebound(i, checksum, Directory(Aligned(|Built(i)|), |Table(bodies)|)))
            + Zeros(Aligned(|Built(i)|) - |Built(i)|) + Table(bodies)
  {
    BuiltLayout(i);
    ReboundPatched(i, checksum, Directory(Aligned(|Built(i)|), |Table(bodies)|));
  }

  lemma {:induction false} FormIsImage(before: Bytes, after: Bytes, l: Layout, checksum: Bytes, bodies: seq<Bytes>)
    requires Signable(before, l, checksum, bodies) && after == Signed(before, l, checksum, bodies)
    ensures SignedForm(before, after, ImageOf(before), checksum, bodies)
  {
    ImageBuilt(before);
    SignableMeans(ImageOf(before), checksum, bodies, l);
    SignedMeans(ImageOf(before), checksum, bodies, l);
  }

  lemma {:induction false} ImageIsForm(before: Bytes, after: Bytes, i: Image, checksum: Bytes, bodies: seq<Bytes>) returns (l: Layout)
    requires SignedForm(before, after, i, checksum, bodies)
    ensures Signable(before, l, checksum, bodies) && after == Signed(before, l, checksum, bodies)
  {
    BuiltLayout(i);
    l := LayoutOf(before).value;
    SignableMeans(i, checksum, bodies, l);
    SignedMeans(i, checksum, bodies, l);
  }

  /** The check accepts exactly an unsigned image, written out field by field, with a signed form of it. */
  lemma {:induction false} AcceptsExactly(before: Bytes, after: Bytes)
    ensures Verdict(before, after).None? <==> exists i, checksum, bodies :: SignedForm(before, after, i, checksum, bodies)
  {
    AcceptsForms(before, after);
    if Verdict(before, after).None? {
      var l, checksum, bodies :| Signable(before, l, checksum, bodies) && after == Signed(before, l, checksum, bodies);
      FormIsImage(before, after, l, checksum, bodies);
    }
    if i, checksum, bodies :| SignedForm(before, after, i, checksum, bodies) {
      var l := ImageIsForm(before, after, i, checksum, bodies);
    }
  }
}
