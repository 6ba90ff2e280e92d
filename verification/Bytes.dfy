/** Byte strings, the big-endian integers inside them, and lists of pieces. */
module Bytes {
  type Byte = b: int | 0 <= b < 256
  type Bytes = seq<Byte>

  function Flatten(pieces: seq<Bytes>): Bytes {
    if pieces == [] then [] else pieces[0] + Flatten(pieces[1..])
  }

  lemma {:induction false} FlattenAppend(a: seq<Bytes>, b: seq<Bytes>)
    ensures Flatten(a + b) == Flatten(a) + Flatten(b)
  {
    if a == [] {
      assert a + b == b;
    } else {
      assert (a + b)[1..] == a[1..] + b;
      FlattenAppend(a[1..], b);
    }
  }

  lemma FlattenCons(p: Bytes, pieces: seq<Bytes>)
    ensures Flatten([p] + pieces) == p + Flatten(pieces)
  {
    assert ([p] + pieces)[1..] == pieces;
  }

  lemma FlattenOne(p: Bytes)
    ensures Flatten([p]) == p
  {
    assert Flatten([]) == [];
  }

  lemma NoPieces()
    ensures Flatten([]) == []
  {
  }

  lemma OnePieceMore(pieces: seq<Bytes>, i: nat)
    requires i < |pieces|
    ensures Flatten(pieces[..i + 1]) == Flatten(pieces[..i]) + pieces[i]
  {
    assert pieces[..i + 1] == pieces[..i] + [pieces[i]];
    FlattenAppend(pieces[..i], [pieces[i]]);
    FlattenOne(pieces[i]);
  }

  const TWO_TO_32: nat := 0x1_0000_0000
  const TWO_TO_64: nat := 0x1_0000_0000_0000_0000

  /** `writeUInt32BE` for n below 2^32. */
  function Be32(n: nat): (b: Bytes)
    ensures |b| == 4
  {
    [n / 0x100_0000 % 256, n / 0x1_0000 % 256, n / 256 % 256, n % 256]
  }

  /** `readUInt32BE`. */
  function ReadBe32(b: Bytes): nat
    requires |b| >= 4
  {
    (b[0] as int) * 0x100_0000 + (b[1] as int) * 0x1_0000 + (b[2] as int) * 256 + b[3] as int
  }

  lemma Be32RoundTrip(n: nat, tail: Bytes)
    requires n < TWO_TO_32
    ensures ReadBe32(Be32(n) + tail) == n
  {
    var q1 := n / 256;
    var q2 := n / 0x1_0000;
    var q3 := n / 0x100_0000;
    assert q2 == q1 / 256 && q3 == q2 / 256 && q3 < 256;
    assert n == q1 * 256 + n % 256 && q1 == q2 * 256 + q1 % 256 && q2 == q3 * 256 + q2 % 256;
  }

  /** Before in the order of `Buffer.compare`, among byte strings of one length. */
  ghost predicate Below(a: Bytes, b: Bytes) {
    |a| == |b| && exists i :: 0 <= i < |a| && a[..i] == b[..i] && a[i] < b[i]
  }

  /** Most significant byte first: the bytes are ordered as the numbers are. */
  lemma Be32Ordered(m: nat, n: nat)
    requires m < n < TWO_TO_32
    ensures Below(Be32(m), Be32(n))
  {
    var a, b := Be32(m), Be32(n);
    Be32RoundTrip(m, []);
    Be32RoundTrip(n, []);
    assert a + [] == a && b + [] == b;
    var i := if a[0] != b[0] then 0 else if a[1] != b[1] then 1 else if a[2] != b[2] then 2 else 3;
    hide Be32;
    assert a[..i] == b[..i] && a[i] < b[i];
  }

  /** `writeBigUInt64BE` for n below 2^64. */
  function Be64(n: nat): (b: Bytes)
    ensures |b| == 8
  {
    Be32(n / TWO_TO_32) + Be32(n % TWO_TO_32)
  }

  lemma Be64Injective(m: nat, n: nat)
    requires m < TWO_TO_64 && n < TWO_TO_64 && Be64(m) == Be64(n)
    ensures m == n
  {
    assert Be64(m)[..4] == Be32(m / TWO_TO_32) && Be64(n)[..4] == Be32(n / TWO_TO_32);
    assert Be64(m)[4..] == Be32(m % TWO_TO_32) && Be64(n)[4..] == Be32(n % TWO_TO_32);
    Be32RoundTrip(m / TWO_TO_32, []);
    Be32RoundTrip(n / TWO_TO_32, []);
    Be32RoundTrip(m % TWO_TO_32, []);
    Be32RoundTrip(n % TWO_TO_32, []);
  }

  lemma Be64Ordered(m: nat, n: nat)
    requires m < n < TWO_TO_64
    ensures Below(Be64(m), Be64(n))
  {
    var a, b := m / TWO_TO_32, n / TWO_TO_32;
    if a == b {
      BelowAfter(Be32(a), m % TWO_TO_32, n % TWO_TO_32);
    } else {
      Be32Ordered(a, b);
      BelowBefore(Be32(a), Be32(b), Be32(m % TWO_TO_32), Be32(n % TWO_TO_32));
    }
  }

  lemma BelowAfter(head: Bytes, m: nat, n: nat)
    requires m < n < TWO_TO_32
    ensures Below(head + Be32(m), head + Be32(n))
  {
    Be32Ordered(m, n);
    hide Be32;
    var a, b := Be32(m), Be32(n);
    var i :| 0 <= i < |a| && a[..i] == b[..i] && a[i] < b[i];
    var j := |head| + i;
    assert (head + a)[..j] == head + a[..i] && (head + b)[..j] == head + b[..i];
    assert (head + a)[j] < (head + b)[j];
  }

  lemma BelowBefore(a: Bytes, b: Bytes, x: Bytes, y: Bytes)
    requires Below(a, b) && |x| == |y|
    ensures Below(a + x, b + y)
  {
    var i :| 0 <= i < |a| && a[..i] == b[..i] && a[i] < b[i];
    assert (a + x)[..i] == a[..i] && (b + y)[..i] == b[..i] && (a + x)[i] < (b + y)[i];
  }
}
