/**
 Content preservation of Authenticode signing: which files the check accepts as signed forms of an
 unsigned image, and how much of the original an accepted file determines.
 */
module Authenticode {
  import opened ByteStrings
  import opened Wrappers

  /** Where the checksum and the security directory are, and what the directory says. */
  datatype Layout = Layout(checksum: nat, cert: nat, offset: nat, size: nat)

  datatype Refusal =
    | BadDosHeader | BadHeader | BadOptionalHeader | BadMagic | NoSecurityDirectory
    | AlreadySigned | NotAppended | NonzeroAlignment | ContentChanged
    | TruncatedCertificate | BadCertificate | BadPadding

  // ----- The specification

  function PeOffset(raw: Bytes): nat
    requires |raw| >= 64
  {
    U32(raw, 60)
  }

  function Directories(raw: Bytes, optional: nat): nat
    requires optional + 2 <= |raw|
  {
    optional + if U16(raw, optional) == 0x10b then 96 else 112
  }

  function LayoutOf(raw: Bytes): Result<Layout, Refusal> {
    if !(|raw| >= 64 && raw[0] == 77 && raw[1] == 90) then Failure(BadDosHeader)
    else
      var pe := PeOffset(raw);
      if !(pe >= 64 && pe + 24 <= |raw| && raw[pe] == 80 && raw[pe + 1] == 69 && raw[pe + 2] == 0 && raw[pe + 3] == 0) then
        Failure(BadHeader)
      else
        var (optional, size) := (pe + 24, U16(raw, pe + 20));
        if !(size >= 152 && optional + size <= |raw|) then Failure(BadOptionalHeader)
        else if U16(raw, optional) != 0x10b && U16(raw, optional) != 0x20b then Failure(BadMagic)
        else
          var directories := Directories(raw, optional);
          var cert := directories + 32;
          if !(U32(raw, directories - 4) >= 5 && cert + 8 <= optional + size) then Failure(NoSecurityDirectory)
          else Success(Layout(optional + 64, cert, U32(raw, cert), U32(raw, cert + 4)))
  }

  predicate AllZero(raw: Bytes, start: nat, to: nat)
    requires start <= to <= |raw|
  {
    forall k :: start <= k < to ==> raw[k] == 0
  }

  function Walk(raw: Bytes, cursor: nat): Option<Refusal>
    decreases |raw| - cursor
  {
    if cursor >= |raw| then None
    else if cursor + 8 > |raw| then Some(TruncatedCertificate)
    else
      var length := U32(raw, cursor);
      if !(length >= 8 && U16(raw, cursor + 4) == 0x200 && U16(raw, cursor + 6) == 2) then Some(BadCertificate)
      else
        var (end, padded) := (cursor + length, Aligned(cursor + length));
        if !(end <= |raw| && padded <= |raw| && AllZero(raw, end, padded)) then Some(BadPadding)
        else Walk(raw, padded)
  }

  /** Outside the checksum and the directory the file starts with the original. */
  predicate Preserves(before: Bytes, after: Bytes, checksum: nat, cert: nat)
    requires |before| <= |after|
  {
    forall k :: 0 <= k < |before| && !(checksum <= k < checksum + 4) && !(cert <= k < cert + 8) ==> after[k] == before[k]
  }

  function Verdict(before: Bytes, after: Bytes): Option<Refusal> {
    var (unsigned, signed) := (LayoutOf(before), LayoutOf(after));
    if unsigned.Failure? then Some(unsigned.error)
    else if signed.Failure? then Some(signed.error)
    else
      var (l, m) := (unsigned.value, signed.value);
      if !(l.checksum == m.checksum && l.cert == m.cert && l.offset == 0 && l.size == 0) then Some(AlreadySigned)
      else if !(m.offset == Aligned(|before|) && m.size >= 8 && m.offset + m.size == |after|) then Some(NotAppended)
      else if !AllZero(after, |before|, m.offset) then Some(NonzeroAlignment)
      else if !Preserves(before, after, l.checksum, l.cert) then Some(ContentChanged)
      else Walk(after, m.offset)
  }

  // ----- The program

  method ReadLayout(raw: Bytes) returns (r: Result<Layout, Refusal>)
    ensures r == LayoutOf(raw)
  {
    if !(|raw| >= 64 && raw[0] == 77 && raw[1] == 90) {
      return Failure(BadDosHeader);
    }
    var pe := U32(raw, 60);
    if !(pe >= 64 && pe + 24 <= |raw| && raw[pe] == 80 && raw[pe + 1] == 69 && raw[pe + 2] == 0 && raw[pe + 3] == 0) {
      return Failure(BadHeader);
    }
    var optional := pe + 24;
    var size := U16(raw, pe + 20);
    if !(size >= 152 && optional + size <= |raw|) {
      return Failure(BadOptionalHeader);
    }
    var magic := U16(raw, optional);
    if magic != 0x10b && magic != 0x20b {
      return Failure(BadMagic);
    }
    var directories := optional + if magic == 0x10b then 96 else 112;
    var count := U32(raw, directories - 4);
    var cert := directories + 4 * 8;
    if !(count >= 5 && cert + 8 <= optional + size) {
      return Failure(NoSecurityDirectory);
    }
    return Success(Layout(optional + 64, cert, U32(raw, cert), U32(raw, cert + 4)));
  }

  /** Overwrites some bytes of a buffer with those of the original. */
  method Restore(normal: array<byte>, before: Bytes, at: nat, count: nat)
    requires normal.Length == |before| && at + count <= |before|
    modifies normal
    ensures forall k :: 0 <= k < |before| ==> normal[k] == if at <= k < at + count then before[k] else old(normal[k])
  {
    for i := 0 to count
      invariant forall k :: 0 <= k < |before| ==> normal[k] == if at <= k < at + i then before[k] else old(normal[k])
    {
      normal[at + i] := before[at + i];
    }
  }

  method SamePayload(before: Bytes, after: Bytes, checksum: nat, cert: nat) returns (same: bool)
    requires |before| <= |after| && checksum + 4 <= |before| && cert + 8 <= |before|
    ensures same <==> Preserves(before, after, checksum, cert)
  {
    var normal := new byte[|before|](i requires 0 <= i < |before| => after[i]);
    Restore(normal, before, checksum, 4);
    Restore(normal, before, cert, 8);
    same := normal[..] == before;
    assert same <==> forall k :: 0 <= k < |before| ==> normal[..][k] == before[k];
  }

  method SigningOnlyChange(before: Bytes, after: Bytes) returns (refusal: Option<Refusal>)
    ensures refusal == Verdict(before, after)
  {
    var unsigned := ReadLayout(before);
    if unsigned.Failure? {
      return Some(unsigned.error);
    }
    var signed := ReadLayout(after);
    if signed.Failure? {
      return Some(signed.error);
    }
    var Layout(checksum, directory, oldOffset, oldSize) := unsigned.value;
    var Layout(check2, dir2, offset, size) := signed.value;
    if !(checksum == check2 && directory == dir2 && oldOffset == 0 && oldSize == 0) {
      return Some(AlreadySigned);
    }
    var aligned := (|before| + 7) / 8 * 8;
    if !(offset == aligned && size >= 8 && offset + size == |after|) {
      return Some(NotAppended);
    }
    if !AllZero(after, |before|, offset) {
      return Some(NonzeroAlignment);
    }
    var same := SamePayload(before, after, checksum, directory);
    if !same {
      return Some(ContentChanged);
    }
    refusal := CheckCertificates(after, offset);
  }

  /** The loop over the appended records. */
  method CheckCertificates(after: Bytes, offset: nat) returns (refusal: Option<Refusal>)
    ensures refusal == Walk(after, offset)
  {
    var cursor := offset;
    while cursor < |after|
      invariant Walk(after, cursor) == Walk(after, offset)
      decreases |after| - cursor
    {
      if cursor + 8 > |after| {
        return Some(TruncatedCertificate);
      }
      var length, revision, kind := U32(after, cursor), U16(after, cursor + 4), U16(after, cursor + 6);
      if !(length >= 8 && revision == 0x200 && kind == 2) {
        return Some(BadCertificate);
      }
      var end := cursor + length;
      var padded := (end + 7) / 8 * 8;
      if !(end <= |after| && padded <= |after| && AllZero(after, end, padded)) {
        return Some(BadPadding);
      }
      cursor := padded;
    }
    return None;
  }

  // ----- Certificate tables

  /** The eight bytes of a certificate header: length, revision 0x200, type 2. */
  function Header(length: nat): (h: Bytes)
    requires length < 4294967296
    ensures |h| == 8 && U32(h, 0) == length && U16(h, 4) == 0x200 && U16(h, 6) == 2
  {
    HeaderFields(length);
    Le32(length) + [0, 2, 2, 0]
  }

  lemma {:induction false} HeaderFields(length: nat)
    requires length < 4294967296
    ensures var h := Le32(length) + [0, 2, 2, 0]; U32(h, 0) == length && U16(h, 4) == 0x200 && U16(h, 6) == 2
  {
    var r, h := Le32(length), Le32(length) + [0, 2, 2, 0];
    ReadLe32(length);
    assert h[0..4] == r[0..4];
    SameU32(h, 0, r, 0);
    assert h[4] == 0 && h[5] == 2 && h[6] == 2 && h[7] == 0;
  }

  /** The eight bytes of a security directory entry. */
  function Directory(offset: nat, size: nat): (d: Bytes)
    requires offset < 4294967296 && size < 4294967296
    ensures |d| == 8 && U32(d, 0) == offset && U32(d, 4) == size
  {
    DirectoryFields(offset, size);
    Le32(offset) + Le32(size)
  }

  lemma {:induction false} DirectoryFields(offset: nat, size: nat)
    requires offset < 4294967296 && size < 4294967296
    ensures var d := Le32(offset) + Le32(size); U32(d, 0) == offset && U32(d, 4) == size
  {
    ReadLe32(offset);
    ReadLe32(size);
    FourAndFour(Le32(offset), Le32(size));
  }

  lemma {:induction false} FourAndFour(a: Bytes, b: Bytes)
    requires |a| == 4 && |b| == 4
    ensures U32(a + b, 0) == U32(a, 0) && U32(a + b, 4) == U32(b, 0)
  {
    var e := a + b;
    assert e[0..4] == a[0..4] && e[4..8] == b[0..4];
    SameU32(e, 0, a, 0);
    SameU32(e, 4, b, 0);
  }

  /** Eight bytes are fixed by the two integers in them. */
  lemma {:induction false} SameEight(a: Bytes, i: nat, b: Bytes, j: nat)
    requires i + 8 <= |a| && j + 8 <= |b|
    ensures U32(a, i) == U32(b, j) && U32(a, i + 4) == U32(b, j + 4) <==> a[i..i + 8] == b[j..j + 8]
  {
    SameU32(a, i, b, j);
    SameU32(a, i + 4, b, j + 4);
    assert a[i..i + 8] == a[i..i + 4] + a[i + 4..i + 8] && b[j..j + 8] == b[j..j + 4] + b[j + 4..j + 8];
    assert a[i..i + 8][..4] == a[i..i + 4] && a[i..i + 8][4..] == a[i + 4..i + 8];
    assert b[j..j + 8][..4] == b[j..j + 4] && b[j..j + 8][4..] == b[j + 4..j + 8];
  }

  /** One record: header, body, and zeros to the next multiple of eight. */
  function Encoded(body: Bytes): (r: Bytes)
    requires 8 + |body| < 4294967296
    ensures |r| == Aligned(8 + |body|)
  {
    Header(8 + |body|) + body + Zeros(Aligned(8 + |body|) - (8 + |body|))
  }

  predicate Short(bodies: seq<Bytes>) {
    forall i :: 0 <= i < |bodies| ==> 8 + |bodies[i]| < 4294967296
  }

  function Table(bodies: seq<Bytes>): Bytes
    requires Short(bodies)
  {
    if bodies == [] then [] else Encoded(bodies[0]) + Table(bodies[1..])
  }

  lemma {:induction false} EncodedParts(raw: Bytes, at: nat, body: Bytes)
    requires 8 + |body| < 4294967296 && at + Aligned(8 + |body|) <= |raw|
    requires raw[at..at + Aligned(8 + |body|)] == Encoded(body)
    ensures U32(raw, at) == 8 + |body| && U16(raw, at + 4) == 0x200 && U16(raw, at + 6) == 2
    ensures AllZero(raw, at + 8 + |body|, at + Aligned(8 + |body|))
  {
    var e, h := Encoded(body), Header(8 + |body|);
    var n := |e|;
    forall k | 0 <= k < n
      ensures raw[at + k] == e[k]
    {
      assert raw[at..at + n][k] == raw[at + k];
    }
    assert forall k :: 0 <= k < 8 ==> e[k] == h[k];
    HeaderRead(raw, at, h);
    forall k | at + 8 + |body| <= k < at + n
      ensures raw[k] == 0
    {
      assert raw[at + (k - at)] == e[k - at];
    }
  }

  lemma {:induction false} HeaderRead(raw: Bytes, at: nat, h: Bytes)
    requires |h| == 8 && at + 8 <= |raw|
    requires raw[at] == h[0] && raw[at + 1] == h[1] && raw[at + 2] == h[2] && raw[at + 3] == h[3]
    requires raw[at + 4] == h[4] && raw[at + 5] == h[5] && raw[at + 6] == h[6] && raw[at + 7] == h[7]
    ensures U32(raw, at) == U32(h, 0) && U16(raw, at + 4) == U16(h, 4) && U16(raw, at + 6) == U16(h, 6)
  {
  }

  lemma {:induction false} PartsEncoded(raw: Bytes, at: nat, length: nat)
    requires length >= 8 && at + Aligned(length) <= |raw| && U32(raw, at) == length
    requires U16(raw, at + 4) == 0x200 && U16(raw, at + 6) == 2 && AllZero(raw, at + length, at + Aligned(length))
    ensures length < 4294967296 && raw[at..at + Aligned(length)] == Encoded(raw[at + 8..at + length])
  {
    SameU32(raw, at, raw, at);
    var h, n := Header(length), Aligned(length);
    HeaderFixed(raw, at, h);
    ZeroBytes(raw, at + length, at + n);
    assert raw[at..at + n] == raw[at..at + 8] + raw[at + 8..at + length] + raw[at + length..at + n];
  }

  lemma {:induction false} HeaderFixed(raw: Bytes, at: nat, h: Bytes)
    requires |h| == 8 && at + 8 <= |raw|
    requires U32(raw, at) == U32(h, 0) && U16(raw, at + 4) == U16(h, 4) && U16(raw, at + 6) == U16(h, 6)
    ensures raw[at..at + 8] == h
  {
    SameEight(raw, at, h, 0);
    assert h[0..8] == h;
  }

  lemma AlignedFrom(cursor: nat, length: nat)
    requires cursor % 8 == 0
    ensures Aligned(cursor + length) == cursor + Aligned(length)
  {
  }

  lemma SuffixParts(raw: Bytes, at: nat, first: Bytes, rest: Bytes)
    requires at <= |raw| && raw[at..] == first + rest
    ensures at + |first| <= |raw| && raw[at..at + |first|] == first && raw[at + |first|..] == rest
  {
    assert raw[at..][..|first|] == first && raw[at..][|first|..] == rest;
  }

  lemma {:induction false} RecordWalks(raw: Bytes, cursor: nat, body: Bytes)
    requires 8 + |body| < 4294967296 && cursor % 8 == 0 && cursor + Aligned(8 + |body|) <= |raw|
    requires raw[cursor..cursor + Aligned(8 + |body|)] == Encoded(body)
    ensures Walk(raw, cursor) == Walk(raw, cursor + Aligned(8 + |body|))
  {
    EncodedParts(raw, cursor, body);
    AlignedFrom(cursor, 8 + |body|);
  }

  /** The walk accepts every table of records, from any multiple of eight. */
  lemma {:induction false} TableWalks(raw: Bytes, cursor: nat, bodies: seq<Bytes>)
    requires Short(bodies) && cursor <= |raw| && cursor % 8 == 0 && raw[cursor..] == Table(bodies)
    ensures Walk(raw, cursor).None?
    decreases |bodies|
  {
    if bodies == [] {
      assert |raw[cursor..]| == 0;
    } else {
      var record, rest := Encoded(bodies[0]), bodies[1..];
      var next := cursor + |record|;
      SuffixParts(raw, cursor, record, Table(rest));
      RecordWalks(raw, cursor, bodies[0]);
      SumMultiple(cursor, |record|);
      TableWalks(raw, next, rest);
    }
  }

  lemma SumMultiple(a: nat, b: nat)
    requires a % 8 == 0 && b % 8 == 0
    ensures (a + b) % 8 == 0
  {
  }

  /** Whatever the walk accepts is a table of records. */
  lemma {:induction false} WalkTiles(raw: Bytes, cursor: nat) returns (bodies: seq<Bytes>)
    requires cursor <= |raw| && cursor % 8 == 0 && Walk(raw, cursor).None?
    ensures Short(bodies) && raw[cursor..] == Table(bodies) && (cursor < |raw| ==> bodies != [])
    decreases |raw| - cursor
  {
    bodies := [];
    if cursor < |raw| {
      var length := U32(raw, cursor);
      var next := cursor + Aligned(length);
      AlignedFrom(cursor, length);
      PartsEncoded(raw, cursor, length);
      SumMultiple(cursor, Aligned(length));
      var rest := WalkTiles(raw, next);
      bodies := [raw[cursor + 8..cursor + length]] + rest;
      TableFirst(raw, cursor, next, raw[cursor + 8..cursor + length], rest);
    }
  }

  lemma {:induction false} TableFirst(raw: Bytes, cursor: nat, next: nat, body: Bytes, rest: seq<Bytes>)
    requires cursor <= next <= |raw| && 8 + |body| < 4294967296 && Short(rest)
    requires raw[cursor..next] == Encoded(body) && raw[next..] == Table(rest)
    ensures Short([body] + rest) && raw[cursor..] == Table([body] + rest)
  {
    assert ([body] + rest)[1..] == rest;
    assert raw[cursor..] == raw[cursor..next] + raw[next..];
  }

  // ----- Signed forms

  function Patched(raw: Bytes, at: nat, bytes: Bytes): (r: Bytes)
    requires at + |bytes| <= |raw|
    ensures |r| == |raw| && forall k :: 0 <= k < |raw| ==> r[k] == if at <= k < at + |bytes| then bytes[k - at] else raw[k]
  {
    raw[..at] + bytes + raw[at + |bytes|..]
  }

  /** An unsigned image and what signing may add to it. */
  ghost predicate Signable(before: Bytes, l: Layout, checksum: Bytes, bodies: seq<Bytes>) {
    && LayoutOf(before) == Success(l) && l.offset == 0 && l.size == 0
    && |checksum| == 4 && Short(bodies) && bodies != []
    && Aligned(|before|) < 4294967296 && |Table(bodies)| < 4294967296
  }

  /** Another checksum, a directory naming the table, zeros to a multiple of eight, and the table. */
  function Signed(before: Bytes, l: Layout, checksum: Bytes, bodies: seq<Bytes>): Bytes
    requires Signable(before, l, checksum, bodies)
  {
    LayoutFits(before, l);
    var (offset, table) := (Aligned(|before|), Table(bodies));
    Patched(Patched(before, l.checksum, checksum), l.cert, Directory(offset, |table|)) + Zeros(offset - |before|) + table
  }

  lemma {:induction false} LayoutFits(raw: Bytes, l: Layout)
    requires LayoutOf(raw) == Success(l)
    ensures l.checksum + 4 <= l.cert && l.cert + 8 <= |raw| && l.offset == U32(raw, l.cert) && l.size == U32(raw, l.cert + 4)
  {
  }

  /** A field of four bytes outside the two that may change. */
  lemma FieldKept(before: Bytes, after: Bytes, l: Layout, at: nat)
    requires |before| <= |after| && Preserves(before, after, l.checksum, l.cert)
    requires at + 4 <= |before| && at + 4 <= l.cert && (at + 4 <= l.checksum || l.checksum + 4 <= at)
    ensures U32(after, at) == U32(before, at)
  {
    assert before[at..at + 4] == after[at..at + 4];
    SameU32(before, at, after, at);
  }

  /** The header is found in the same place in any file that differs only in the two fields and in what follows. */
  lemma {:induction false} LayoutKept(before: Bytes, after: Bytes, l: Layout)
    requires LayoutOf(before) == Success(l) && |before| <= |after| && Preserves(before, after, l.checksum, l.cert)
    ensures LayoutOf(after) == Success(Layout(l.checksum, l.cert, U32(after, l.cert), U32(after, l.cert + 4)))
  {
    var pe := PeOffset(before);
    var optional := pe + 24;
    FieldKept(before, after, l, 60);
    assert before[pe + 20] == after[pe + 20] && before[pe + 21] == after[pe + 21];
    assert before[optional] == after[optional] && before[optional + 1] == after[optional + 1];
    FieldKept(before, after, l, Directories(before, optional) - 4);
  }

  lemma {:induction false} PatchedPreserves(before: Bytes, after: Bytes, l: Layout, checksum: Bytes, directory: Bytes)
    requires |checksum| == 4 && |directory| == 8 && l.checksum + 4 <= l.cert && l.cert + 8 <= |before| <= |after|
    requires after[..|before|] == Patched(Patched(before, l.checksum, checksum), l.cert, directory)
    ensures Preserves(before, after, l.checksum, l.cert) && after[..|before|][l.cert..l.cert + 8] == directory
  {
    var patched := Patched(Patched(before, l.checksum, checksum), l.cert, directory);
    assert forall k :: 0 <= k < |before| ==> after[k] == patched[k];
  }

  lemma {:induction false} VerdictWalks(before: Bytes, after: Bytes, l: Layout, offset: nat, size: nat)
    requires Extends(before, after, l, offset, size)
    ensures Verdict(before, after) == Walk(after, offset)
  {
    LayoutKept(before, after, l);
  }

  /** The check accepts every signed form of an unsigned image. */
  lemma {:induction false} SignedAccepted(before: Bytes, l: Layout, checksum: Bytes, bodies: seq<Bytes>)
    requires Signable(before, l, checksum, bodies)
    ensures Verdict(before, Signed(before, l, checksum, bodies)).None?
  {
    LayoutFits(before, l);
    var offset, table := Aligned(|before|), Table(bodies);
    var after, directory := Signed(before, l, checksum, bodies), Directory(offset, |table|);
    var patched := Patched(Patched(before, l.checksum, checksum), l.cert, directory);
    SignedBytes(after, patched, offset, table);
    PatchedPreserves(before, after, l, checksum, directory);
    DirectoryRead(after, patched, l.cert, directory);
    TableLength(bodies);
    VerdictWalks(before, after, l, offset, |table|);
    TableWalks(after, offset, bodies);
  }

  lemma {:induction false} SignedBytes(after: Bytes, patched: Bytes, offset: nat, table: Bytes)
    requires offset == Aligned(|patched|) && after == patched + Zeros(offset - |patched|) + table
    ensures |after| == offset + |table| && after[..|patched|] == patched && AllZero(after, |patched|, offset) && after[offset..] == table
  {
  }

  lemma {:induction false} DirectoryRead(after: Bytes, patched: Bytes, cert: nat, directory: Bytes)
    requires cert + 8 <= |patched| <= |after| && after[..|patched|] == patched
    requires |directory| == 8 && patched[cert..cert + 8] == directory
    ensures U32(after, cert) == U32(directory, 0) && U32(after, cert + 4) == U32(directory, 4)
  {
    assert after[cert..cert + 8] == after[..|patched|][cert..cert + 8];
    assert directory[0..8] == directory;
    SameEight(after, cert, directory, 0);
  }

  lemma {:induction false} TableLength(bodies: seq<Bytes>)
    requires Short(bodies) && bodies != []
    ensures |Table(bodies)| >= 8
  {
  }

  /** What acceptance says, part by part. */
  ghost predicate Extends(before: Bytes, after: Bytes, l: Layout, offset: nat, size: nat) {
    && LayoutOf(before) == Success(l) && l.offset == 0 && l.size == 0 && l.checksum + 4 <= l.cert && l.cert + 8 <= |before|
    && offset == Aligned(|before|) && size >= 8 && offset + size == |after|
    && U32(after, l.cert) == offset && U32(after, l.cert + 4) == size
    && AllZero(after, |before|, offset) && Preserves(before, after, l.checksum, l.cert)
  }

  lemma {:induction false} AcceptedExtends(before: Bytes, after: Bytes) returns (l: Layout, offset: nat, size: nat)
    requires Verdict(before, after).None?
    ensures LayoutOf(after) == Success(Layout(l.checksum, l.cert, offset, size))
    ensures Extends(before, after, l, offset, size) && Walk(after, offset).None?
  {
    l := LayoutOf(before).value;
    var m := LayoutOf(after).value;
    offset, size := m.offset, m.size;
    LayoutFits(before, l);
    LayoutFits(after, m);
  }

  lemma {:induction false} DirectoryFixed(raw: Bytes, cert: nat)
    requires cert + 8 <= |raw|
    ensures U32(raw, cert) < 4294967296 && U32(raw, cert + 4) < 4294967296
    ensures raw[cert..cert + 8] == Directory(U32(raw, cert), U32(raw, cert + 4))
  {
    SameU32(raw, cert, raw, cert);
    SameU32(raw, cert + 4, raw, cert + 4);
    var directory := Directory(U32(raw, cert), U32(raw, cert + 4));
    SameEight(raw, cert, directory, 0);
    assert directory[0..8] == directory;
  }

  lemma {:induction false} ExtendsSigned(before: Bytes, after: Bytes, l: Layout, offset: nat, size: nat, bodies: seq<Bytes>)
    requires Extends(before, after, l, offset, size)
    requires Short(bodies) && bodies != [] && after[offset..] == Table(bodies)
    ensures Signable(before, l, after[l.checksum..l.checksum + 4], bodies)
    ensures after == Signed(before, l, after[l.checksum..l.checksum + 4], bodies)
  {
    var checksum := after[l.checksum..l.checksum + 4];
    ExtendsSignable(before, after, l, offset, size, bodies);
    DirectoryFixed(after, l.cert);
    PatchedBack(before, after, l, checksum, Directory(offset, size));
    SignedParts(before, l, checksum, bodies, after[..|before|]);
    ZeroBytes(after, |before|, offset);
    ThreeParts(after, |before|, offset);
  }

  lemma {:induction false} ExtendsSignable(before: Bytes, after: Bytes, l: Layout, offset: nat, size: nat, bodies: seq<Bytes>)
    requires Extends(before, after, l, offset, size)
    requires Short(bodies) && bodies != [] && after[offset..] == Table(bodies)
    ensures |Table(bodies)| == size && Signable(before, l, after[l.checksum..l.checksum + 4], bodies)
  {
    DirectoryFixed(after, l.cert);
    assert |after[offset..]| == size;
  }

  lemma ZeroBytes(raw: Bytes, i: nat, j: nat)
    requires i <= j <= |raw| && AllZero(raw, i, j)
    ensures raw[i..j] == Zeros(j - i)
  {
  }

  lemma {:induction false} SignedParts(before: Bytes, l: Layout, checksum: Bytes, bodies: seq<Bytes>, patched: Bytes)
    requires Signable(before, l, checksum, bodies) && l.checksum + 4 <= l.cert && l.cert + 8 <= |before|
    requires patched == Patched(Patched(before, l.checksum, checksum), l.cert, Directory(Aligned(|before|), |Table(bodies)|))
    ensures Signed(before, l, checksum, bodies) == patched + Zeros(Aligned(|before|) - |before|) + Table(bodies)
  {
  }

  lemma ThreeParts(raw: Bytes, i: nat, j: nat)
    requires i <= j <= |raw|
    ensures raw == raw[..i] + raw[i..j] + raw[j..]
  {
  }

  /** Everything the check accepts is a signed form. */
  lemma {:induction false} AcceptedSigned(before: Bytes, after: Bytes) returns (l: Layout, checksum: Bytes, bodies: seq<Bytes>)
    requires Verdict(before, after).None?
    ensures Signable(before, l, checksum, bodies) && after == Signed(before, l, checksum, bodies)
  {
    var offset, size;
    l, offset, size := AcceptedExtends(before, after);
    bodies := WalkTiles(after, offset);
    checksum := after[l.checksum..l.checksum + 4];
    ExtendsSigned(before, after, l, offset, size, bodies);
  }

  lemma {:induction false} PatchedBack(before: Bytes, after: Bytes, l: Layout, checksum: Bytes, directory: Bytes)
    requires |before| <= |after| && l.checksum + 4 <= l.cert && l.cert + 8 <= |before|
    requires Preserves(before, after, l.checksum, l.cert)
    requires checksum == after[l.checksum..l.checksum + 4] && directory == after[l.cert..l.cert + 8]
    ensures after[..|before|] == Patched(Patched(before, l.checksum, checksum), l.cert, directory)
  {
  }

  /** Acceptance is being a signed form. */
  lemma {:induction false} AcceptsForms(before: Bytes, after: Bytes)
    ensures Verdict(before, after).None? <==>
            exists l, checksum, bodies :: Signable(before, l, checksum, bodies) && after == Signed(before, l, checksum, bodies)
  {
    if Verdict(before, after).None? {
      var l, checksum, bodies := AcceptedSigned(before, after);
    }
    if l, checksum, bodies :| Signable(before, l, checksum, bodies) && after == Signed(before, l, checksum, bodies) {
      SignedAccepted(before, l, checksum, bodies);
    }
  }

  lemma {:induction false} SameOriginal(first: Bytes, second: Bytes, after: Bytes, l: Layout, m: Layout, offset: nat, size: nat)
    requires Extends(first, after, l, offset, size) && Extends(second, after, m, offset, size) && |first| <= |second|
    requires l.checksum == m.checksum && l.cert == m.cert
    ensures |second| - |first| <= 7 && AllZero(second, |first|, |second|)
    ensures forall k :: 0 <= k < |first| && !(l.checksum <= k < l.checksum + 4) ==> first[k] == second[k]
  {
    LayoutFits(first, l);
    LayoutFits(second, m);
    ZeroU32(first, l.cert);
    ZeroU32(first, l.cert + 4);
    ZeroU32(second, l.cert);
    ZeroU32(second, l.cert + 4);
    forall k | 0 <= k < |first| && !(l.checksum <= k < l.checksum + 4)
      ensures first[k] == second[k]
    {
      assert !(l.cert <= k < l.cert + 8) ==> after[k] == first[k] && after[k] == second[k];
    }
    forall k | |first| <= k < |second|
      ensures second[k] == 0
    {
      assert after[k] == 0 && after[k] == second[k];
    }
  }

  /** Two originals of one accepted file: the longer is the shorter but for the checksum and at most seven final zeros. */
  lemma {:induction false} OriginalDetermined(first: Bytes, second: Bytes, after: Bytes) returns (checksum: nat)
    requires Verdict(first, after).None? && Verdict(second, after).None? && |first| <= |second|
    ensures |second| - |first| <= 7 && AllZero(second, |first|, |second|)
    ensures LayoutOf(after).Success? && checksum == LayoutOf(after).value.checksum
    ensures forall k :: 0 <= k < |first| && !(checksum <= k < checksum + 4) ==> first[k] == second[k]
  {
    var l, offset, size := AcceptedExtends(first, after);
    var m, _, _ := AcceptedExtends(second, after);
    checksum := l.checksum;
    SameOriginal(first, second, after, l, m, offset, size);
  }

  lemma ZeroU32(raw: Bytes, at: nat)
    requires at + 4 <= |raw| && U32(raw, at) == 0
    ensures raw[at] == 0 && raw[at + 1] == 0 && raw[at + 2] == 0 && raw[at + 3] == 0
  {
  }
}
