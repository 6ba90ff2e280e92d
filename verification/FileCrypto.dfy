/**
 * Chunked authenticated encryption of a file: the frame format, the incremental encoder and decoder,
 * and the one-shot functions that say what they compute.
 */
module FileCrypto {
  import Text
  import opened Bytes
  import opened Options

  const CHUNK_BYTES_DEFAULT: nat := 4 * 1024 * 1024
  const TAG_BYTES: nat := 16
  const LEN_BYTES: nat := 4
  const FRAME_OVERHEAD: nat := LEN_BYTES + TAG_BYTES
  const PIPE: Byte := '|' as int

  // ----- the cipher, ChaCha20-Poly1305 of RFC 8439 section 2.8 -----

  datatype Query = Query(key: Bytes, nonce: Bytes, aad: Bytes, plain: Bytes)

  /** `seal` gives ciphertext and tag; `open` takes key, nonce, additional data, ciphertext and tag. */
  datatype Aead = Aead(seal: Query -> Bytes, open: (Bytes, Bytes, Bytes, Bytes) -> Option<Bytes>)

  /**
   * What the key holders sealed opens again, and nothing else opens. With every query issued this is
   * the plain inverse law of the cipher; with fewer, it also says that ciphertext cannot be forged.
   */
  ghost predicate Ideal(a: Aead, issued: iset<Query>) {
    && (forall q: Query :: |a.seal(q)| == |q.plain| + TAG_BYTES)
    && (forall q: Query :: q in issued ==> a.open(q.key, q.nonce, q.aad, a.seal(q)) == Some(q.plain))
    && (forall k: Bytes, n: Bytes, d: Bytes, body: Bytes :: a.open(k, n, d, body).Some? ==>
          var q := Query(k, n, d, a.open(k, n, d, body).value);
          q in issued && body == a.seal(q))
  }

  /** The law can be met: a cipher with a constant tag that remembers what was issued. */
  function ToyAead(issued: set<Query>): Aead {
    Aead(
      (q: Query) => q.plain + seq(TAG_BYTES, _ => 0),
      (k: Bytes, n: Bytes, d: Bytes, body: Bytes) =>
        if |body| >= TAG_BYTES
           && body[|body| - TAG_BYTES..] == seq(TAG_BYTES, _ => 0)
           && Query(k, n, d, body[..|body| - TAG_BYTES]) in issued
        then Some(body[..|body| - TAG_BYTES]) else None)
  }

  lemma ToyAeadIsIdeal(issued: set<Query>)
    ensures Ideal(ToyAead(issued), iset q | q in issued)
  {
    var a := ToyAead(issued);
    var tag: Bytes := seq(TAG_BYTES, _ => 0);
    forall q: Query ensures |a.seal(q)| == |q.plain| + TAG_BYTES { }
    forall q: Query | q in issued ensures a.open(q.key, q.nonce, q.aad, a.seal(q)) == Some(q.plain) {
      assert a.seal(q) == q.plain + tag;
      assert a.seal(q)[..|q.plain|] == q.plain && a.seal(q)[|q.plain|..] == tag;
    }
    forall k: Bytes, n: Bytes, d: Bytes, body: Bytes | a.open(k, n, d, body).Some?
      ensures var q := Query(k, n, d, a.open(k, n, d, body).value); q in issued && body == a.seal(q)
    {
      assert body == body[..|body| - TAG_BYTES] + body[|body| - TAG_BYTES..];
    }
  }

  // ----- frames -----

  /** One transfer: the cipher, its key, its id in UTF-8 and its chunk size. */
  datatype Channel = Channel(aead: Aead, key: Bytes, transferId: Bytes, chunkBytes: nat) {
    /** A chunk has a byte in it, and its ciphertext length fits the length prefix. */
    ghost predicate Sized() { 0 < chunkBytes && chunkBytes + TAG_BYTES < TWO_TO_32 }
  }

  function ChunkNonce(index: nat): Bytes { [0, 0, 0, 0] + Be64(index) }

  function ChunkAad(transferId: Bytes, index: nat): Bytes { transferId + [PIPE] + Text.Decimal(index) }

  function ChunkQuery(c: Channel, index: nat, plain: Bytes): Query {
    Query(c.key, ChunkNonce(index), ChunkAad(c.transferId, index), plain)
  }

  function EncryptChunk(c: Channel, index: nat, plain: Bytes): Bytes {
    var ct := c.aead.seal(ChunkQuery(c, index, plain));
    Be32(|ct|) + ct
  }

  function DecryptChunk(c: Channel, index: nat, body: Bytes): Option<Bytes> {
    if |body| < TAG_BYTES then None
    else c.aead.open(c.key, ChunkNonce(index), ChunkAad(c.transferId, index), body)
  }

  /** Within a transfer no nonce is used twice. */
  lemma NonceNeverRepeats(i: nat, j: nat)
    requires i < TWO_TO_64 && j < TWO_TO_64 && ChunkNonce(i) == ChunkNonce(j)
    ensures i == j
  {
    assert ChunkNonce(i)[4..] == Be64(i) && ChunkNonce(j)[4..] == Be64(j);
    Be64Injective(i, j);
  }

  /** Nonces are twelve bytes, four zeros and the chunk index, and they are ordered as the indices are. */
  lemma NoncesCountUp(i: nat, j: nat)
    requires i < j < TWO_TO_64
    ensures |ChunkNonce(i)| == 12 && ChunkNonce(i)[..4] == [0, 0, 0, 0] && Below(ChunkNonce(i), ChunkNonce(j))
  {
    Be64Ordered(i, j);
    hide Be64, Below;
    ZerosBelow(Be64(i), Be64(j));
  }

  lemma ZerosBelow(a: Bytes, b: Bytes)
    requires Below(a, b)
    ensures Below([0, 0, 0, 0] + a, [0, 0, 0, 0] + b)
  {
    var i :| 0 <= i < |a| && a[..i] == b[..i] && a[i] < b[i];
    var x, y: Bytes := [0, 0, 0, 0] + a, [0, 0, 0, 0] + b;
    assert x[..4 + i] == [0, 0, 0, 0] + a[..i] && y[..4 + i] == [0, 0, 0, 0] + b[..i] && x[4 + i] < y[4 + i];
  }

  /** The separator is the last unit of the additional data that is no digit. */
  lemma SeparatorIsLast(t: Bytes, i: nat)
    ensures var s := ChunkAad(t, i);
      && |t| < |s| && s[|t|] == PIPE && s[..|t|] == t && s[|t| + 1..] == Text.Decimal(i)
      && forall k :: |t| < k < |s| ==> s[k] < 58
  {
    var d := Text.Decimal(i);
    var s := ChunkAad(t, i);
    assert s[|t| + 1..] == d;
    forall k | |t| < k < |s| ensures s[k] < 58 {
      assert s[k] == d[k - |t| - 1];
    }
  }

  /** The additional data binds a frame to its transfer and to its position, whatever the transfer id holds. */
  lemma AadBindsTransferAndPosition(t: Bytes, i: nat, u: Bytes, j: nat)
    requires ChunkAad(t, i) == ChunkAad(u, j)
    ensures t == u && i == j
  {
    SeparatorIsLast(t, i);
    SeparatorIsLast(u, j);
    hide ChunkAad, Text.Decimal;
    assert |t| == |u|;
    Text.DecimalInjective(i, j);
  }

  function Min(a: nat, b: nat): nat { if a < b then a else b }

  /** A file cut into chunks of `n` bytes, the last one possibly shorter. */
  function Chunks(n: nat, plain: Bytes): (chunks: seq<Bytes>)
    requires 0 < n
    decreases |plain|
  {
    if plain == [] then [] else var k := Min(n, |plain|); [plain[..k]] + Chunks(n, plain[k..])
  }

  /** The frames of consecutive chunks. */
  function FramesOf(c: Channel, index: nat, chunks: seq<Bytes>): (frames: seq<Bytes>)
    ensures |frames| == |chunks|
    decreases |chunks|
  {
    if chunks == [] then [] else [EncryptChunk(c, index, chunks[0])] + FramesOf(c, index + 1, chunks[1..])
  }

  /** The wire bytes of a whole plaintext, from the given chunk index on. */
  function Encrypted(c: Channel, index: nat, plain: Bytes): Bytes
    requires 0 < c.chunkBytes
  {
    Flatten(FramesOf(c, index, Chunks(c.chunkBytes, plain)))
  }

  lemma {:induction false} ChunksJoin(n: nat, plain: Bytes)
    requires 0 < n
    ensures Flatten(Chunks(n, plain)) == plain
    ensures forall i :: 0 <= i < |Chunks(n, plain)| ==> 0 < |Chunks(n, plain)[i]| <= n
    decreases |plain|
  {
    if plain != [] {
      var k := Min(n, |plain|);
      ChunksJoin(n, plain[k..]);
      assert Chunks(n, plain) == [plain[..k]] + Chunks(n, plain[k..]);
      assert Flatten(Chunks(n, plain)) == plain[..k] + plain[k..];
    }
  }

  predicate AllFull(n: nat, chunks: seq<Bytes>) {
    forall i :: 0 <= i < |chunks| ==> |chunks[i]| == n
  }

  /** Full chunks followed by at most one more are cut where they were joined. */
  lemma {:induction false} ChunksOfFull(n: nat, full: seq<Bytes>, last: Bytes)
    requires 0 < n && AllFull(n, full) && |last| <= n
    ensures Chunks(n, Flatten(full) + last) == full + (if last == [] then [] else [last])
  {
    var plain := Flatten(full) + last;
    if full == [] {
      assert plain == last;
      if last != [] { assert last[..|last|] == last && last[|last|..] == []; }
    } else {
      assert plain == full[0] + (Flatten(full[1..]) + last);
      assert plain[..n] == full[0] && plain[n..] == Flatten(full[1..]) + last;
      ChunksOfFull(n, full[1..], last);
    }
  }

  lemma {:induction false} FramesOfAppend(c: Channel, index: nat, a: seq<Bytes>, b: seq<Bytes>)
    ensures FramesOf(c, index, a + b) == FramesOf(c, index, a) + FramesOf(c, index + |a|, b)
    decreases |a|
  {
    if a == [] {
      assert a + b == b;
    } else {
      assert (a + b)[1..] == a[1..] + b;
      FramesOfAppend(c, index + 1, a[1..], b);
    }
  }

  // ----- sizes -----

  function CeilDiv(a: nat, b: nat): nat
    requires 0 < b
  {
    (a + b - 1) / b
  }

  function TotalChunksFor(plainSize: nat, chunkBytes: nat): nat
    requires 0 < chunkBytes
  {
    if plainSize <= 0 then 0 else CeilDiv(plainSize, chunkBytes)
  }

  function CipherSizeFor(plainSize: nat, chunkBytes: nat): nat
    requires 0 < chunkBytes
  {
    if plainSize <= 0 then 0 else plainSize + CeilDiv(plainSize, chunkBytes) * FRAME_OVERHEAD
  }

  lemma CeilDivStep(a: nat, b: nat)
    requires 0 < b < a
    ensures CeilDiv(a, b) == 1 + CeilDiv(a - b, b)
  {
    assert (a - b + b - 1) / b == (a + b - 1) / b - 1 by { DivStep(a - 1, b); }
  }

  lemma DivStep(x: nat, b: nat)
    requires 0 < b
    ensures (x + b) / b == x / b + 1
  {
    var q, p := x / b, (x + b) / b;
    assert x == q * b + x % b && x + b == p * b + (x + b) % b;
    assert (p - q - 1) * b == x % b - (x + b) % b;
    MultipleBound(p - q - 1, b);
  }

  lemma MultipleBound(d: int, b: int)
    requires 0 < b
    ensures d >= 1 ==> d * b >= b
    ensures d <= -1 ==> d * b <= -b
  {
    if d >= 1 { assert d * b >= b; }
    if d <= -1 { assert d * b <= -b; }
  }

  lemma {:induction false} ChunkCount(n: nat, plain: Bytes)
    requires 0 < n
    ensures |Chunks(n, plain)| == TotalChunksFor(|plain|, n)
    decreases |plain|
  {
    if |plain| > n {
      ChunkCount(n, plain[n..]);
      CeilDivStep(|plain|, n);
    } else if plain != [] {
      ChunkCount(n, plain[|plain|..]);
      assert CeilDiv(|plain|, n) == 1 by { CeilDivOne(|plain|, n); }
    }
  }

  lemma CeilDivOne(a: nat, b: nat)
    requires 0 < a <= b
    ensures CeilDiv(a, b) == 1
  {
    DivStep(a - 1, b);
  }

  lemma {:induction false} FramesSize(c: Channel, index: nat, chunks: seq<Bytes>, issued: iset<Query>)
    requires Ideal(c.aead, issued)
    ensures |Flatten(FramesOf(c, index, chunks))| == |Flatten(chunks)| + |chunks| * FRAME_OVERHEAD
    decreases |chunks|
  {
    if chunks != [] { FramesSize(c, index + 1, chunks[1..], issued); }
  }

  /** The advertised ciphertext size is the exact number of bytes on the wire. */
  lemma CipherSizeExact(c: Channel, index: nat, plain: Bytes, issued: iset<Query>)
    requires Ideal(c.aead, issued) && 0 < c.chunkBytes
    ensures |Encrypted(c, index, plain)| == CipherSizeFor(|plain|, c.chunkBytes)
  {
    ChunksJoin(c.chunkBytes, plain);
    ChunkCount(c.chunkBytes, plain);
    FramesSize(c, index, Chunks(c.chunkBytes, plain), issued);
  }
}
