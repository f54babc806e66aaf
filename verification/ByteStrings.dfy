/** Bytes and their little-endian integers. */
module ByteStrings {

  newtype byte = x: int | 0 <= x < 256

  type Bytes = seq<byte>

  function U16(raw: Bytes, at: nat): nat
    requires at + 2 <= |raw|
  {
    raw[at] as nat + 256 * raw[at + 1] as nat
  }

  function U32(raw: Bytes, at: nat): nat
    requires at + 4 <= |raw|
  {
    U16(raw, at) + 65536 * U16(raw, at + 2)
  }

  lemma {:induction false} SameU16(a: Bytes, i: nat, b: Bytes, j: nat)
    requires i + 2 <= |a| && j + 2 <= |b|
    ensures U16(a, i) == U16(b, j) <==> a[i] == b[j] && a[i + 1] == b[j + 1]
    ensures U16(a, i) < 65536
  {
  }

  /** Four bytes are their integer. */
  lemma {:induction false} SameU32(a: Bytes, i: nat, b: Bytes, j: nat)
    requires i + 4 <= |a| && j + 4 <= |b|
    ensures U32(a, i) == U32(b, j) <==> a[i..i + 4] == b[j..j + 4]
    ensures U32(a, i) < 4294967296
  {
    SameU16(a, i, b, j);
    SameU16(a, i + 2, b, j + 2);
    var x, y := a[i..i + 4], b[j..j + 4];
    assert a[i] == x[0] && a[i + 1] == x[1] && a[i + 2] == x[2] && a[i + 3] == x[3];
    assert b[j] == y[0] && b[j + 1] == y[1] && b[j + 2] == y[2] && b[j + 3] == y[3];
  }

  function Zeros(n: nat): (r: Bytes)
    ensures |r| == n && forall k :: 0 <= k < n ==> r[k] == 0
  {
    seq(n, i => 0)
  }

  /** The next multiple of eight. */
  function Aligned(n: nat): (r: nat)
    ensures n <= r < n + 8 && r % 8 == 0
  {
    (n + 7) / 8 * 8
  }

  // ----- Little-endian integers

  /** The k-th byte of a number. */
  function Digit(n: nat, k: nat): byte {
    if k == 0 then (n % 256) as byte else Digit(n / 256, k - 1)
  }

  function Le16(n: nat): (r: Bytes)
    requires n < 65536
    ensures |r| == 2
  {
    seq(2, k requires 0 <= k < 2 => Digit(n, k))
  }

  function Le32(n: nat): (r: Bytes)
    requires n < 4294967296
    ensures |r| == 4
  {
    seq(4, k requires 0 <= k < 4 => Digit(n, k))
  }

  lemma {:induction false} Digits(n: nat)
    ensures Digit(n, 0) as nat == n % 256 && Digit(n, 1) as nat == n / 256 % 256
    ensures Digit(n, 2) as nat == n / 65536 % 256 && Digit(n, 3) as nat == n / 16777216 % 256
  {
    assert n / 256 / 256 == n / 65536 && n / 65536 / 256 == n / 16777216;
    assert Digit(n, 1) == Digit(n / 256, 0);
    assert Digit(n, 2) == Digit(n / 256, 1) == Digit(n / 65536, 0);
    assert Digit(n, 3) == Digit(n / 256, 2) == Digit(n / 65536, 1) == Digit(n / 16777216, 0);
  }

  lemma {:induction false} ReadLe16(n: nat)
    requires n < 65536
    ensures U16(Le16(n), 0) == n
  {
    Digits(n);
  }

  lemma {:induction false} ReadLe32(n: nat)
    requires n < 4294967296
    ensures U32(Le32(n), 0) == n
  {
    Digits(n);
    var (a, b, c, d) := (n % 256, n / 256 % 256, n / 65536 % 256, n / 16777216);
    assert n / 65536 == 256 * d + c && n / 256 == 256 * (n / 65536) + b;
    assert U16(Le32(n), 0) == a + 256 * b && U16(Le32(n), 2) == c + 256 * d;
  }

  // ----- Parts of a byte string

  /** The part stands in the bytes at this place. */
  ghost predicate PartAt(raw: Bytes, at: nat, part: Bytes) {
    at + |part| <= |raw| && raw[at..at + |part|] == part
  }

  lemma {:induction false} SplitPart(raw: Bytes, at: nat, a: Bytes, b: Bytes)
    requires PartAt(raw, at, a + b)
    ensures PartAt(raw, at, a) && PartAt(raw, at + |a|, b)
  {
    assert (a + b)[..|a|] == a && (a + b)[|a|..] == b;
    assert raw[at..at + |a + b|][..|a|] == raw[at..at + |a|];
    assert raw[at..at + |a + b|][|a|..] == raw[at + |a|..at + |a + b|];
  }

  lemma {:induction false} JoinParts(raw: Bytes, at: nat, a: Bytes, b: Bytes)
    requires PartAt(raw, at, a) && PartAt(raw, at + |a|, b)
    ensures PartAt(raw, at, a + b)
  {
    assert raw[at..at + |a + b|] == raw[at..at + |a|] + raw[at + |a|..at + |a| + |b|];
  }

  lemma {:induction false} HeldByte(raw: Bytes, at: nat, part: Bytes, k: nat)
    requires PartAt(raw, at, part) && k < |part|
    ensures raw[at + k] == part[k]
  {
    assert raw[at..at + |part|][k] == part[k];
  }

  lemma {:induction false} Held16(raw: Bytes, at: nat, n: nat)
    requires n < 65536 && PartAt(raw, at, Le16(n))
    ensures U16(raw, at) == n
  {
    ReadLe16(n);
    HeldByte(raw, at, Le16(n), 0);
    HeldByte(raw, at, Le16(n), 1);
  }

  lemma {:induction false} Held32(raw: Bytes, at: nat, n: nat)
    requires n < 4294967296 && PartAt(raw, at, Le32(n))
    ensures U32(raw, at) == n
  {
    ReadLe32(n);
    assert raw[at..at + 4] == Le32(n)[0..4];
    SameU32(raw, at, Le32(n), 0);
  }

  lemma {:induction false} Reads16(raw: Bytes, at: nat)
    requires at + 2 <= |raw|
    ensures U16(raw, at) < 65536 && PartAt(raw, at, Le16(U16(raw, at)))
  {
    SameU16(raw, at, raw, at);
    ReadLe16(U16(raw, at));
    SameU16(raw, at, Le16(U16(raw, at)), 0);
  }

  lemma {:induction false} Reads32(raw: Bytes, at: nat)
    requires at + 4 <= |raw|
    ensures U32(raw, at) < 4294967296 && PartAt(raw, at, Le32(U32(raw, at)))
  {
    SameU32(raw, at, raw, at);
    var r := Le32(U32(raw, at));
    ReadLe32(U32(raw, at));
    SameU32(raw, at, r, 0);
    assert r[0..4] == r;
  }
}
