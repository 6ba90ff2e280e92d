/**
 * What the streams guarantee for a whole file: the round trip, what a hostile wire can do, and the two
 * ways a download is served from a chunk boundary.
 */
module DataPlane {
  import opened Bytes
  import opened Options
  import opened FileCrypto
  import opened Streams

  // ----- round trip -----

  /** The sender sealed these chunks, in these positions. */
  ghost predicate SenderIssued(c: Channel, index: nat, chunks: seq<Bytes>, issued: iset<Query>) {
    forall k: nat :: k < |chunks| ==> ChunkQuery(c, index + k, chunks[k]) in issued
  }

  predicate FitChunks(n: nat, chunks: seq<Bytes>) {
    forall i :: 0 <= i < |chunks| ==> |chunks[i]| <= n
  }

  /** A frame at the front of the wire is read whole. */
  lemma FrontFrame(c: Channel, index: nat, chunk: Bytes, tail: Bytes, issued: iset<Query>)
    requires c.Sized() && Ideal(c.aead, issued) && |chunk| <= c.chunkBytes
    ensures ReadFrame(c.chunkBytes, EncryptChunk(c, index, chunk) + tail)
         == Frame(c.aead.seal(ChunkQuery(c, index, chunk)), tail)
  {
    var body := c.aead.seal(ChunkQuery(c, index, chunk));
    var w := EncryptChunk(c, index, chunk) + tail;
    Be32RoundTrip(|body|, body + tail);
    assert w == Be32(|body|) + (body + tail);
    assert w[LEN_BYTES..LEN_BYTES + |body|] == body && w[LEN_BYTES + |body|..] == tail;
  }

  lemma ParseFront(c: Channel, index: nat, chunk: Bytes, tail: Bytes, issued: iset<Query>)
    requires c.Sized() && Ideal(c.aead, issued) && |chunk| <= c.chunkBytes
    requires ChunkQuery(c, index, chunk) in issued
    ensures var p := Parse(c, index + 1, tail);
      Parse(c, index, EncryptChunk(c, index, chunk) + tail) == Parsed([chunk] + p.plains, p.rest, p.status)
  {
    hide ReadFrame;
    FrontFrame(c, index, chunk, tail, issued);
  }

  lemma IssuedRest(c: Channel, index: nat, chunks: seq<Bytes>, issued: iset<Query>)
    requires chunks != [] && SenderIssued(c, index, chunks, issued)
    ensures ChunkQuery(c, index, chunks[0]) in issued && SenderIssued(c, index + 1, chunks[1..], issued)
  {
    hide ChunkQuery;
    assert ChunkQuery(c, index + 0, chunks[0]) in issued;
    forall k: nat | k < |chunks| - 1 ensures ChunkQuery(c, index + 1 + k, chunks[1..][k]) in issued {
      assert ChunkQuery(c, index + (k + 1), chunks[k + 1]) in issued;
    }
  }

  lemma ParseNothing(c: Channel, index: nat)
    ensures Parse(c, index, []) == Parsed([], [], More)
  {
  }

  lemma {:induction false} ParseFrames(c: Channel, index: nat, chunks: seq<Bytes>, issued: iset<Query>)
    requires c.Sized() && Ideal(c.aead, issued)
    requires FitChunks(c.chunkBytes, chunks) && SenderIssued(c, index, chunks, issued)
    ensures Parse(c, index, Flatten(FramesOf(c, index, chunks))) == Parsed(chunks, [], More)
    decreases |chunks|
  {
    hide EncryptChunk, ReadFrame, Ideal, SenderIssued;
    if chunks == [] {
      ParseNothing(c, index);
    } else {
      var rest := chunks[1..];
      IssuedRest(c, index, chunks, issued);
      ParseFrames(c, index + 1, rest, issued);
      assert chunks == [chunks[0]] + rest;
      PrependFrame(c, index, chunks[0], rest);
      hide Parse, FramesOf, Flatten;
      ParseFront(c, index, chunks[0], Flatten(FramesOf(c, index + 1, rest)), issued);
    }
  }

  /** Decoding the encryption of a plaintext gives its chunks back, ends cleanly, and the chunks join to it. */
  lemma DecodeUndoesEncode(c: Channel, index: nat, plain: Bytes, issued: iset<Query>)
    requires c.Sized() && Ideal(c.aead, issued)
    requires SenderIssued(c, index, Chunks(c.chunkBytes, plain), issued)
    ensures Parse(c, index, Encrypted(c, index, plain)) == Parsed(Chunks(c.chunkBytes, plain), [], More)
    ensures Flatten(Chunks(c.chunkBytes, plain)) == plain
  {
    ChunksJoin(c.chunkBytes, plain);
    ParseFrames(c, index, Chunks(c.chunkBytes, plain), issued);
  }

  // ----- a hostile wire -----

  /** Under this key only the chunks of `src` were ever sealed, each in its own position. */
  ghost predicate OnlySender(c: Channel, src: Bytes, issued: iset<Query>)
    requires 0 < c.chunkBytes
  {
    var cs := Chunks(c.chunkBytes, src);
    forall q: Query :: q in issued && q.key == c.key ==>
      exists k: nat :: k < |cs| && q == ChunkQuery(c, k, cs[k])
  }

  lemma DecryptedIsTheSenders(c: Channel, index: nat, body: Bytes, src: Bytes, issued: iset<Query>)
    requires c.Sized() && Ideal(c.aead, issued) && OnlySender(c, src, issued)
    requires DecryptChunk(c, index, body).Some?
    ensures var cs := Chunks(c.chunkBytes, src);
      index < |cs| && DecryptChunk(c, index, body) == Some(cs[index])
      && body == c.aead.seal(ChunkQuery(c, index, cs[index]))
  {
    var cs := Chunks(c.chunkBytes, src);
    var q := ChunkQuery(c, index, DecryptChunk(c, index, body).value);
    assert q in issued && body == c.aead.seal(q);
    var k: nat :| k < |cs| && q == ChunkQuery(c, k, cs[k]);
    AadBindsTransferAndPosition(c.transferId, index, c.transferId, k);
  }

  lemma ReadBe32Inverse(w: Bytes)
    requires |w| >= 4
    ensures Be32(ReadBe32(w)) == w[..4] && ReadBe32(w) < TWO_TO_32
  {
    var n := ReadBe32(w);
    var a: int, b: int, d: int, e: int := w[0], w[1], w[2], w[3];
    assert n / 256 == a * 0x1_0000 + b * 256 + d;
    assert n / 0x1_0000 == a * 256 + b;
    assert n / 0x100_0000 == a;
  }

  /** These chunks are the sender's from `start` on, and these wire bytes are their frames and a remainder. */
  ghost predicate SendersFrames(c: Channel, start: nat, plains: seq<Bytes>, rest: Bytes, w: Bytes, cs: seq<Bytes>) {
    && (plains != [] ==> start + |plains| <= |cs| && plains == cs[start..start + |plains|])
    && w == Flatten(FramesOf(c, start, plains)) + rest
  }

  lemma SendersFramesStep(c: Channel, start: nat, plains: seq<Bytes>, rest: Bytes, w: Bytes, tail: Bytes,
                          cs: seq<Bytes>)
    requires start < |cs| && SendersFrames(c, start + 1, plains, rest, tail, cs)
    requires w == EncryptChunk(c, start, cs[start]) + tail
    ensures SendersFrames(c, start, [cs[start]] + plains, rest, w, cs)
  {
    hide EncryptChunk, FramesOf, Flatten;
    PrependFrame(c, start, cs[start], plains);
    SliceFrom(cs, start, |plains|);
  }

  /**
   * Whatever bytes arrive, under whatever splitting: everything pushed is the sender's chunks from
   * `start` on, and the bytes consumed are exactly the sender's frames for them.
   */
  lemma {:induction false} HostileWire(c: Channel, start: nat, w: Bytes, src: Bytes, issued: iset<Query>)
    requires c.Sized() && Ideal(c.aead, issued) && OnlySender(c, src, issued)
    ensures var p := Parse(c, start, w);
      SendersFrames(c, start, p.plains, p.rest, w, Chunks(c.chunkBytes, src))
    decreases |w|
  {
    hide Chunks, ReadFrame, EncryptChunk, Ideal, OnlySender, DecryptChunk, SendersFrames;
    var f := ReadFrame(c.chunkBytes, w);
    if f.Frame? && DecryptChunk(c, start, f.body).Some? {
      var q := Parse(c, start + 1, f.rest);
      DecryptedIsTheSenders(c, start, f.body, src, issued);
      HostileWire(c, start + 1, f.rest, src, issued);
      HostileFrame(c, start, w, DecryptChunk(c, start, f.body).value);
      SendersFramesStep(c, start, q.plains, q.rest, w, f.rest, Chunks(c.chunkBytes, src));
    } else {
      NoFrames(c, start, w, Chunks(c.chunkBytes, src));
    }
  }

  lemma NoFrames(c: Channel, start: nat, w: Bytes, cs: seq<Bytes>)
    ensures var f := ReadFrame(c.chunkBytes, w);
      (f.Frame? && DecryptChunk(c, start, f.body).Some?) ||
      (Parse(c, start, w).plains == [] && Parse(c, start, w).rest == w)
    ensures SendersFrames(c, start, [], w, w, cs)
  {
  }

  lemma SliceFrom(xs: seq<Bytes>, i: nat, n: nat)
    requires i + 1 + n <= |xs|
    ensures xs[i..i + 1 + n] == [xs[i]] + xs[i + 1..i + 1 + n]
    ensures xs[i + 1..i + 1] == []
  {
  }

  lemma HostileFrame(c: Channel, start: nat, w: Bytes, plain: Bytes)
    requires ReadFrame(c.chunkBytes, w).Frame?
    requires ReadFrame(c.chunkBytes, w).body == c.aead.seal(ChunkQuery(c, start, plain))
    ensures w == EncryptChunk(c, start, plain) + ReadFrame(c.chunkBytes, w).rest
  {
    hide ChunkQuery;
    ReadBe32Inverse(w);
  }

  lemma PrependFrame(c: Channel, start: nat, plain: Bytes, plains: seq<Bytes>)
    ensures Flatten(FramesOf(c, start, [plain] + plains)) ==
      EncryptChunk(c, start, plain) + Flatten(FramesOf(c, start + 1, plains))
  {
    assert ([plain] + plains)[1..] == plains;
  }

  /** Where chunk k starts in a file. */
  function ChunkStart(n: nat, size: nat, k: nat): (at: nat)
    ensures at <= size
  {
    Min(k * n, size)
  }

  lemma ChunkStartStep(n: nat, size: nat, k: nat)
    requires 0 < n && 0 < k
    ensures ChunkStart(n, size, k) == Min(n, size) + ChunkStart(n, size - Min(n, size), k - 1)
  {
    assert k * n == (k - 1) * n + n;
  }

  lemma ChunksSplit(n: nat, src: Bytes)
    requires 0 < n && src != []
    ensures Chunks(n, src) == [src[..Min(n, |src|)]] + Chunks(n, src[Min(n, |src|)..])
  {
  }

  lemma SliceInTwo(s: Bytes, m: nat, at: nat)
    requires m + at <= |s|
    ensures s[m + at..] == s[m..][at..] && s[..m + at] == s[..m] + s[m..][..at]
  {
  }

  lemma SliceAfterHead(x: Bytes, xs: seq<Bytes>, k: nat)
    requires 0 < k <= 1 + |xs|
    ensures ([x] + xs)[..k] == [x] + xs[..k - 1] && ([x] + xs)[k..] == xs[k - 1..]
  {
  }

  /** The first k chunks are the first k * chunkBytes bytes, or the whole file. */
  lemma {:induction false} ChunkPrefix(n: nat, src: Bytes, k: nat)
    requires 0 < n && k <= |Chunks(n, src)|
    ensures Flatten(Chunks(n, src)[..k]) == src[..ChunkStart(n, |src|, k)]
    ensures Chunks(n, src[ChunkStart(n, |src|, k)..]) == Chunks(n, src)[k..]
    decreases k
  {
    if k == 0 {
      hide Chunks;
      assert src[0..] == src;
    } else {
      var m := Min(n, |src|);
      var rest := src[m..];
      ChunkStartStep(n, |src|, k);
      ChunksSplit(n, src);
      hide Chunks, Flatten, ChunkStart;
      ChunkPrefix(n, rest, k - 1);
      var at, cs := ChunkStart(n, |rest|, k - 1), Chunks(n, rest);
      SliceAfterHead(src[..m], cs, k);
      FlattenCons(src[..m], cs[..k - 1]);
      SliceInTwo(src, m, at);
    }
  }

  // ----- the two resume paths -----

  datatype Served = NotFound | Body(contentLength: int, bytes: Bytes)

  /** `serveSenderPull`: encrypt on the fly from a seek. */
  function SenderServe(c: Channel, src: Bytes, from: nat): Served
    requires 0 < c.chunkBytes
  {
    if from > TotalChunksFor(|src|, c.chunkBytes) then NotFound
    else
      var at := from * c.chunkBytes;
      var remaining := if |src| < at then 0 else |src| - at;
      Body(CipherSizeFor(remaining, c.chunkBytes), Encrypted(c, from, src[Min(at, |src|)..]))
  }

  datatype Scan = At(offset: nat) | EndsEarly | InvalidFrame(length: nat)

  /** The offset `k` frames further on in a stored ciphertext. */
  function Walk(stored: Bytes, offset: nat, k: nat, chunkBytes: nat): Scan
    decreases k
  {
    if k == 0 then At(offset)
    else if offset + LEN_BYTES > |stored| then EndsEarly
    else
      var n := ReadBe32(stored[offset..]);
      if n < TAG_BYTES || n > chunkBytes + TAG_BYTES then InvalidFrame(n)
      else Walk(stored, offset + LEN_BYTES + n, k - 1, chunkBytes)
  }

  /** `scanFrameOffset`: walks the length prefixes of the stored file. */
  method ScanFrameOffset(stored: Bytes, fromChunk: nat, chunkBytes: nat) returns (r: Scan)
    ensures r == Walk(stored, 0, fromChunk, chunkBytes)
  {
    var offset: nat := 0;
    for i := 0 to fromChunk
      invariant Walk(stored, 0, fromChunk, chunkBytes) == Walk(stored, offset, fromChunk - i, chunkBytes)
    {
      if offset + LEN_BYTES > |stored| {
        return EndsEarly;
      }
      var bodyLen := ReadBe32(stored[offset..]);
      if bodyLen < TAG_BYTES || bodyLen > chunkBytes + TAG_BYTES {
        return InvalidFrame(bodyLen);
      }
      offset := offset + LEN_BYTES + bodyLen;
    }
    return At(offset);
  }

  /** `hubServeDownload`: the stored bytes from the scanned offset; the scan is given no chunk size. */
  function HubServe(stored: Bytes, cipherSize: nat, from: nat): Served {
    match Walk(stored, 0, from, CHUNK_BYTES_DEFAULT)
    case At(offset) => Body(cipherSize - offset, stored[Min(offset, |stored|)..])
    case _ => NotFound
  }

  /** A hub's answer for a file whose ciphertext it holds, at the size the sender declared for it. */
  function HubAnswer(c: Channel, src: Bytes, from: nat): Served
    requires 0 < c.chunkBytes
  {
    HubServe(Encrypted(c, 0, src), CipherSizeFor(|src|, c.chunkBytes), from)
  }

  lemma WalkFront(c: Channel, index: nat, chunk: Bytes, pre: Bytes, tail: Bytes, k: nat, limit: nat,
                  issued: iset<Query>)
    requires c.Sized() && Ideal(c.aead, issued) && |chunk| <= c.chunkBytes && k > 0
    ensures var frame := EncryptChunk(c, index, chunk);
      Walk(pre + (frame + tail), |pre|, k, limit) ==
        if |chunk| > limit then InvalidFrame(|chunk| + TAG_BYTES)
        else Walk(pre + (frame + tail), |pre + frame|, k - 1, limit)
  {
    var body := c.aead.seal(ChunkQuery(c, index, chunk));
    var stored := pre + (EncryptChunk(c, index, chunk) + tail);
    assert stored[|pre|..] == Be32(|body|) + (body + tail);
    Be32RoundTrip(|body|, body + tail);
  }

  /** Walking k frames that are not too long reaches the offset of the k-th frame. */
  lemma {:induction false} WalkFrames(c: Channel, index: nat, chunks: seq<Bytes>, pre: Bytes, k: nat, limit: nat,
                                      issued: iset<Query>)
    requires c.Sized() && Ideal(c.aead, issued)
    requires FitChunks(c.chunkBytes, chunks) && FitChunks(limit, chunks)
    ensures Walk(pre + Flatten(FramesOf(c, index, chunks)), |pre|, k, limit) ==
      if k <= |chunks| then At(|pre| + |Flatten(FramesOf(c, index, chunks[..k]))|) else EndsEarly
    decreases k
  {
    hide EncryptChunk, Ideal;
    var frames := Flatten(FramesOf(c, index, chunks));
    if k == 0 {
      assert chunks[..0] == [];
    } else if chunks == [] {
      assert pre + frames == pre;
    } else {
      var frame, tail := EncryptChunk(c, index, chunks[0]), Flatten(FramesOf(c, index + 1, chunks[1..]));
      assert chunks == [chunks[0]] + chunks[1..];
      PrependFrame(c, index, chunks[0], chunks[1..]);
      WalkFront(c, index, chunks[0], pre, tail, k, limit, issued);
      assert pre + (frame + tail) == (pre + frame) + tail;
      WalkFrames(c, index + 1, chunks[1..], pre + frame, k - 1, limit, issued);
      if k <= |chunks| {
        assert chunks[..k] == [chunks[0]] + chunks[1..][..k - 1];
        PrependFrame(c, index, chunks[0], chunks[1..][..k - 1]);
      }
    }
  }

  /** The rest of the file from chunk k on. */
  function FileFrom(c: Channel, src: Bytes, k: nat): Bytes { src[ChunkStart(c.chunkBytes, |src|, k)..] }

  /** The wire bytes from chunk k on are the encryption of the rest of the file from index k. */
  lemma EncryptedFrom(c: Channel, src: Bytes, k: nat)
    requires 0 < c.chunkBytes && k <= |Chunks(c.chunkBytes, src)|
    ensures Encrypted(c, 0, src) ==
      Flatten(FramesOf(c, 0, Chunks(c.chunkBytes, src)[..k])) + Encrypted(c, k, FileFrom(c, src, k))
  {
    hide FramesOf, Flatten, ChunkStart, Chunks;
    ChunkPrefix(c.chunkBytes, src, k);
    FramesInTwo(c, Chunks(c.chunkBytes, src), k);
  }

  lemma FramesInTwo(c: Channel, cs: seq<Bytes>, k: nat)
    requires k <= |cs|
    ensures Flatten(FramesOf(c, 0, cs)) == Flatten(FramesOf(c, 0, cs[..k])) + Flatten(FramesOf(c, k, cs[k..]))
  {
    hide FramesOf, Flatten;
    assert cs == cs[..k] + cs[k..];
    FramesOfAppend(c, 0, cs[..k], cs[k..]);
    FlattenAppend(FramesOf(c, 0, cs[..k]), FramesOf(c, k, cs[k..]));
  }

  lemma {:induction false} FirstChunkIsLargest(n: nat, src: Bytes)
    requires 0 < n
    ensures FitChunks(Min(n, |src|), Chunks(n, src))
    ensures src != [] ==> |Chunks(n, src)| > 0 && |Chunks(n, src)[0]| == Min(n, |src|)
    decreases |src|
  {
    if src != [] { FirstChunkIsLargest(n, src[Min(n, |src|)..]); }
  }

  /** What a download from chunk `from` should be. */
  function Expected(c: Channel, src: Bytes, from: nat): Served
    requires 0 < c.chunkBytes
  {
    if from > TotalChunksFor(|src|, c.chunkBytes) then NotFound
    else var bytes := Encrypted(c, from, FileFrom(c, src, from)); Body(|bytes|, bytes)
  }

  /** The sender's advertised length is exact, and its bytes are those of the frames from `from` on. */
  lemma SenderServesExpected(c: Channel, src: Bytes, from: nat, issued: iset<Query>)
    requires c.Sized() && Ideal(c.aead, issued)
    ensures SenderServe(c, src, from) == Expected(c, src, from)
  {
    hide Encrypted, CipherSizeFor, Ideal;
    CipherSizeExact(c, from, FileFrom(c, src, from), issued);
  }

  /** So are the hub's when the chunks are no larger than its scan assumes. */
  lemma HubServesExpected(c: Channel, src: Bytes, from: nat, issued: iset<Query>)
    requires c.Sized() && Ideal(c.aead, issued) && Min(c.chunkBytes, |src|) <= CHUNK_BYTES_DEFAULT
    ensures HubAnswer(c, src, from) == Expected(c, src, from)
  {
    CipherSizeExact(c, 0, src, issued);
    hide FramesOf, Flatten, Chunks, Walk, Ideal, FileFrom, CipherSizeFor;
    var cs, stored := Chunks(c.chunkBytes, src), Encrypted(c, 0, src);
    ChunkCount(c.chunkBytes, src);
    FirstChunkIsLargest(c.chunkBytes, src);
    assert [] + stored == stored;
    WalkFrames(c, 0, cs, [], from, CHUNK_BYTES_DEFAULT, issued);
    if from <= |cs| {
      EncryptedFrom(c, src, from);
      var skipped := Flatten(FramesOf(c, 0, cs[..from]));
      assert stored[|skipped|..] == Encrypted(c, from, FileFrom(c, src, from));
    }
  }

  /** With larger chunks the hub finds no frame past the first. */
  lemma HubFindsNothing(c: Channel, src: Bytes, from: nat, issued: iset<Query>)
    requires c.Sized() && Ideal(c.aead, issued) && Min(c.chunkBytes, |src|) > CHUNK_BYTES_DEFAULT && from > 0
    ensures HubAnswer(c, src, from) == NotFound
  {
    hide FramesOf, Flatten, Chunks, Walk, Ideal;
    var cs, stored := Chunks(c.chunkBytes, src), Encrypted(c, 0, src);
    FirstChunkIsLargest(c.chunkBytes, src);
    assert cs == [cs[0]] + cs[1..];
    PrependFrame(c, 0, cs[0], cs[1..]);
    var tail := Flatten(FramesOf(c, 1, cs[1..]));
    WalkFront(c, 0, cs[0], [], tail, from, CHUNK_BYTES_DEFAULT, issued);
    assert [] + (EncryptChunk(c, 0, cs[0]) + tail) == stored;
  }

  /**
   * The hub and the sender answer a download from chunk `from` alike, content length and bytes, exactly
   * when no frame has to be skipped or the chunks are no larger than the default the hub's scan assumes.
   */
  lemma ResumePathsAgree(c: Channel, src: Bytes, from: nat, issued: iset<Query>)
    requires c.Sized() && Ideal(c.aead, issued)
    ensures HubAnswer(c, src, from) == SenderServe(c, src, from) <==>
        from == 0 || from > TotalChunksFor(|src|, c.chunkBytes) || Min(c.chunkBytes, |src|) <= CHUNK_BYTES_DEFAULT
  {
    SenderServesExpected(c, src, from, issued);
    hide SenderServe, HubAnswer, TotalChunksFor, Encrypted, Ideal, FileFrom;
    if Min(c.chunkBytes, |src|) <= CHUNK_BYTES_DEFAULT {
      HubServesExpected(c, src, from, issued);
    } else if from > 0 {
      HubFindsNothing(c, src, from, issued);
    } else {
      WholeFile(c, src, issued);
    }
  }

  lemma WholeFile(c: Channel, src: Bytes, issued: iset<Query>)
    requires c.Sized() && Ideal(c.aead, issued)
    ensures HubAnswer(c, src, 0) == Expected(c, src, 0)
  {
    hide Encrypted, CipherSizeFor, Ideal;
    CipherSizeExact(c, 0, src, issued);
    assert FileFrom(c, src, 0) == src;
  }

  /** A hub cannot resume a transfer of larger chunks that the sender itself would. */
  lemma LargeChunksResumeOnlyFromTheSender(c: Channel, src: Bytes, issued: iset<Query>)
    requires c.Sized() && Ideal(c.aead, issued)
    requires c.chunkBytes == 2 * CHUNK_BYTES_DEFAULT && |src| == 3 * CHUNK_BYTES_DEFAULT
    ensures HubAnswer(c, src, 1) == NotFound && SenderServe(c, src, 1).Body?
  {
    HubFindsNothing(c, src, 1, issued);
  }

  lemma IssuedFrom(c: Channel, index: nat, chunks: seq<Bytes>, k: nat, issued: iset<Query>)
    requires k <= |chunks| && SenderIssued(c, index, chunks, issued)
    ensures SenderIssued(c, index + k, chunks[k..], issued)
  {
    hide ChunkQuery;
    forall j: nat | j < |chunks| - k ensures ChunkQuery(c, index + k + j, chunks[k..][j]) in issued {
      assert ChunkQuery(c, index + (k + j), chunks[k + j]) in issued;
    }
  }

  /** What is served from chunk k on decodes cleanly to what is missing after the first k chunks. */
  lemma ServedContinues(c: Channel, src: Bytes, from: nat, issued: iset<Query>)
    requires c.Sized() && Ideal(c.aead, issued) && SenderIssued(c, 0, Chunks(c.chunkBytes, src), issued)
    requires from <= TotalChunksFor(|src|, c.chunkBytes)
    ensures var p := Parse(c, from, Expected(c, src, from).bytes);
      && src[..ChunkStart(c.chunkBytes, |src|, from)] + Flatten(p.plains) == src
      && p.status.More? && p.rest == []
  {
    hide Chunks, Ideal, Flatten, Parse, Encrypted, TotalChunksFor, ChunkStart, SenderIssued;
    ChunkCount(c.chunkBytes, src);
    ChunkPrefix(c.chunkBytes, src, from);
    IssuedFrom(c, 0, Chunks(c.chunkBytes, src), from, issued);
    DecodeUndoesEncode(c, from, FileFrom(c, src, from), issued);
  }
}
