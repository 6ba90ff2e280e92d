/**
 * The incremental encoder and decoder. Each is tied to a one-shot function of everything written to
 * it so far, so how the bytes were split into events does not matter.
 */
module Streams {
  import opened Bytes
  import opened Options
  import opened FileCrypto

  // ----- the encoder -----

  /** Plaintext in, wire frames out. */
  class ChunkEncryptStream {
    const c: Channel
    const startChunk: nat
    var buf: seq<Bytes>
    var buffered: nat
    var index: nat
    var chunksEmitted: nat
    /** What was pushed downstream, in order. */
    var pushed: seq<Bytes>
    /** Everything written so far, and the full chunks taken out of it. */
    ghost var fed: Bytes
    ghost var full: seq<Bytes>

    ghost predicate Valid()
      reads this
    {
      && c.Sized() && AllFull(c.chunkBytes, full)
      && buffered == |Flatten(buf)| < c.chunkBytes
      && Taken()
    }

    /** The frames pushed are those of the full chunks taken, and the rest is still buffered. */
    ghost predicate Taken()
      reads this
    {
      && fed == Flatten(full) + Flatten(buf)
      && pushed == FramesOf(c, startChunk, full)
      && index == startChunk + |full| && chunksEmitted == |full|
    }

    constructor (c: Channel, startChunk: nat)
      requires c.Sized()
      ensures Valid() && fed == [] && this.c == c && this.startChunk == startChunk
    {
      this.c, this.startChunk := c, startChunk;
      buf, buffered, index, chunksEmitted, pushed := [], 0, startChunk, 0, [];
      fed, full := [], [];
    }

    method EmitChunk(plain: Bytes)
      modifies this
      ensures pushed == old(pushed) + [EncryptChunk(c, old(index), plain)]
      ensures index == old(index) + 1 && chunksEmitted == old(chunksEmitted) + 1
      ensures unchanged(`buf) && unchanged(`buffered) && unchanged(`fed) && unchanged(`full)
    {
      pushed := pushed + [EncryptChunk(c, index, plain)];
      index := index + 1;
      chunksEmitted := chunksEmitted + 1;
    }

    method Transform(data: Bytes)
      requires Valid()
      modifies this
      ensures Valid() && fed == old(fed) + data
    {
      hide FramesOf, EncryptChunk, Flatten;
      FlattenAppend(buf, [data]);
      FlattenOne(data);
      buf := buf + [data];
      buffered := buffered + |data|;
      fed := fed + data;
      while buffered >= c.chunkBytes
        invariant AllFull(c.chunkBytes, full) && buffered == |Flatten(buf)| && Taken()
        invariant fed == old(fed) + data
        decreases buffered
      {
        var whole := Flatten(buf);
        var chunk, rest := whole[..c.chunkBytes], whole[c.chunkBytes..];
        assert whole == chunk + rest;
        EmitChunk(chunk);
        buf := if |rest| > 0 then [rest] else [];
        buffered := |rest|;
        KeepRest(rest);
        OneChunkMore(c, startChunk, full, chunk);
        full := full + [chunk];
      }
    }

    /** What was pushed by the end is the encryption of everything written. */
    method Flush()
      requires Valid()
      modifies this
      ensures pushed == FramesOf(c, startChunk, Chunks(c.chunkBytes, fed))
      ensures Flatten(pushed) == Encrypted(c, startChunk, fed)
      ensures chunksEmitted == TotalChunksFor(|fed|, c.chunkBytes)
      ensures fed == old(fed) && buffered == 0
    {
      hide FramesOf, EncryptChunk, Flatten;
      var last := Flatten(buf);
      ChunksOfFull(c.chunkBytes, full, last);
      ChunkCount(c.chunkBytes, fed);
      OneChunkMore(c, startChunk, full, last);
      if buffered > 0 {
        EmitChunk(last);
      } else {
        assert full + [] == full;
      }
      buf, buffered := [], 0;
    }
  }

  /** What is kept in the buffer after a frame. */
  lemma KeepRest(rest: Bytes)
    ensures Flatten(if |rest| > 0 then [rest] else []) == rest
  {
    FlattenOne(rest);
  }

  lemma OneChunkMore(c: Channel, index: nat, full: seq<Bytes>, chunk: Bytes)
    ensures FramesOf(c, index, full + [chunk]) == FramesOf(c, index, full) + [EncryptChunk(c, index + |full|, chunk)]
    ensures Flatten(full + [chunk]) == Flatten(full) + chunk
  {
    FramesOfAppend(c, index, full, [chunk]);
    FramesOfOne(c, index + |full|, chunk);
    FlattenAppend(full, [chunk]);
    FlattenOne(chunk);
  }

  lemma FramesOfOne(c: Channel, index: nat, chunk: Bytes)
    ensures FramesOf(c, index, [chunk]) == [EncryptChunk(c, index, chunk)]
  {
    assert FramesOf(c, index + 1, []) == [];
  }

  // ----- the decoder -----

  datatype Status = More | BadLength(length: nat) | BadChunk(index: nat)

  /** What a stretch of wire bytes gives: the plaintexts pushed, the bytes still buffered, and the error met. */
  datatype Parsed = Parsed(plains: seq<Bytes>, rest: Bytes, status: Status)

  /** The frame at the front of the wire. */
  datatype Front = Wait | Reject(length: nat) | Frame(body: Bytes, rest: Bytes)

  function ReadFrame(chunkBytes: nat, w: Bytes): (f: Front)
    ensures f.Frame? ==> |f.rest| < |w|
  {
    if |w| < LEN_BYTES then Wait
    else
      var bodyLen := ReadBe32(w);
      if bodyLen < TAG_BYTES || bodyLen > chunkBytes + TAG_BYTES then Reject(bodyLen)
      else if |w| < LEN_BYTES + bodyLen then Wait
      else Frame(w[LEN_BYTES..LEN_BYTES + bodyLen], w[LEN_BYTES + bodyLen..])
  }

  function Parse(c: Channel, index: nat, w: Bytes): Parsed
    decreases |w|
  {
    match ReadFrame(c.chunkBytes, w)
    case Wait => Parsed([], w, More)
    case Reject(n) => Parsed([], w, BadLength(n))
    case Frame(body, rest) =>
      var plain := DecryptChunk(c, index, body);
      if plain.None? then Parsed([], w, BadChunk(index))
      else var p := Parse(c, index + 1, rest); p.(plains := [plain.value] + p.plains)
  }

  lemma ReadFrameAppend(chunkBytes: nat, a: Bytes, b: Bytes)
    ensures match ReadFrame(chunkBytes, a)
      case Wait => true
      case Reject(n) => ReadFrame(chunkBytes, a + b) == Reject(n)
      case Frame(body, rest) => ReadFrame(chunkBytes, a + b) == Frame(body, rest + b)
  {
    if |a| >= LEN_BYTES {
      assert (a + b)[0] == a[0] && (a + b)[1] == a[1] && (a + b)[2] == a[2] && (a + b)[3] == a[3];
      var n := LEN_BYTES + ReadBe32(a);
      if n <= |a| {
        assert (a + b)[LEN_BYTES..n] == a[LEN_BYTES..n];
        assert (a + b)[n..] == a[n..] + b;
      }
    }
  }

  /** Parsing may stop at any byte and go on from what was left over. */
  lemma {:induction false} ParseAppend(c: Channel, index: nat, a: Bytes, b: Bytes)
    requires Parse(c, index, a).status.More?
    ensures var p := Parse(c, index, a);
      var q := Parse(c, index + |p.plains|, p.rest + b);
      Parse(c, index, a + b) == Parsed(p.plains + q.plains, q.rest, q.status)
    decreases |a|
  {
    hide ReadFrame, DecryptChunk;
    ReadFrameAppend(c.chunkBytes, a, b);
    var f := ReadFrame(c.chunkBytes, a);
    if f.Frame? {
      ParseAppend(c, index + 1, f.rest, b);
      var p := Parse(c, index + 1, f.rest);
      assert p.status.More?;
    }
  }

  /** After an error the rest of the body does not matter. */
  lemma {:induction false} ParseErrorFinal(c: Channel, index: nat, a: Bytes, b: Bytes)
    requires !Parse(c, index, a).status.More?
    ensures Parse(c, index, a + b).status == Parse(c, index, a).status
    ensures Parse(c, index, a + b).plains == Parse(c, index, a).plains
    decreases |a|
  {
    hide ReadFrame, DecryptChunk;
    ReadFrameAppend(c.chunkBytes, a, b);
    var f := ReadFrame(c.chunkBytes, a);
    if f.Frame? && DecryptChunk(c, index, f.body).Some? { ParseErrorFinal(c, index + 1, f.rest, b); }
  }

  lemma ErrorIsFinal(c: Channel, index: nat, pieces: seq<Bytes>, i: nat)
    requires i <= |pieces|
    requires i == |pieces| || !Parse(c, index, Flatten(pieces[..i])).status.More?
    ensures Parse(c, index, Flatten(pieces[..i])).status.More? ==> pieces[..i] == pieces
    ensures Parse(c, index, Flatten(pieces)).status == Parse(c, index, Flatten(pieces[..i])).status
    ensures Parse(c, index, Flatten(pieces)).plains == Parse(c, index, Flatten(pieces[..i])).plains
  {
    hide Parse, Flatten;
    assert pieces == pieces[..i] + pieces[i..];
    FlattenAppend(pieces[..i], pieces[i..]);
    if i == |pieces| {
      assert pieces[..i] == pieces;
    } else {
      ParseErrorFinal(c, index, Flatten(pieces[..i]), Flatten(pieces[i..]));
    }
  }

  /** No error, and no byte left over. */
  ghost predicate DecodesCleanly(c: Channel, fromChunk: nat, w: Bytes) {
    Parse(c, fromChunk, w).status.More? && Parse(c, fromChunk, w).rest == []
  }

  /** One turn of the decoder on the bytes it holds. */
  lemma ParseStep(c: Channel, index: nat, w: Bytes)
    ensures var p := Parse(c, index, w);
      if |w| < LEN_BYTES then p == Parsed([], w, More)
      else
        var n := ReadBe32(w);
        if n < TAG_BYTES || n > c.chunkBytes + TAG_BYTES then p == Parsed([], w, BadLength(n))
        else if |w| < LEN_BYTES + n then p == Parsed([], w, More)
        else
          var plain := DecryptChunk(c, index, w[LEN_BYTES..LEN_BYTES + n]);
          if plain.None? then p == Parsed([], w, BadChunk(index))
          else
            var q := Parse(c, index + 1, w[LEN_BYTES + n..]);
            p == Parsed([plain.value] + q.plains, q.rest, q.status)
  {
  }

  /** Wire frames in, plaintext out. */
  class ChunkDecryptStream {
    const c: Channel
    const startChunk: nat
    var buf: seq<Bytes>
    var buffered: nat
    var index: nat
    var chunksDone: nat
    /** What was pushed downstream, in order. */
    var pushed: seq<Bytes>
    /** Everything written so far. */
    ghost var fed: Bytes

    ghost predicate Valid()
      reads this
    {
      && buffered == |Flatten(buf)|
      && index == startChunk + |pushed| && chunksDone == |pushed|
      && Parse(c, startChunk, fed) == Parsed(pushed, Flatten(buf), More)
    }

    constructor (c: Channel, startChunk: nat)
      ensures Valid() && fed == [] && this.c == c && this.startChunk == startChunk && pushed == []
    {
      this.c, this.startChunk := c, startChunk;
      buf, buffered, index, chunksDone, pushed := [], 0, startChunk, 0, [];
      fed := [];
    }

    /** After an error the stream is destroyed, so it is written to again only after `More`. */
    method Transform(data: Bytes) returns (r: Status)
      requires Valid()
      modifies this
      ensures fed == old(fed) + data
      ensures r == Parse(c, startChunk, fed).status
      ensures pushed == Parse(c, startChunk, fed).plains
      ensures index == startChunk + |pushed| && chunksDone == |pushed|
      ensures r.More? ==> Valid()
    {
      hide Parse, ReadFrame, DecryptChunk, ReadBe32, Flatten;
      ParseAppend(c, startChunk, fed, data);
      FlattenAppend(buf, [data]);
      FlattenOne(data);
      buf := buf + [data];
      buffered := buffered + |data|;
      fed := fed + data;
      ghost var all := Parse(c, startChunk, fed);
      while true
        invariant fed == old(fed) + data && buffered == |Flatten(buf)|
        invariant index == startChunk + |pushed| && chunksDone == |pushed|
        invariant var q := Parse(c, index, Flatten(buf)); all == Parsed(pushed + q.plains, q.rest, q.status)
        decreases buffered
      {
        if buffered < LEN_BYTES {
          ParseStep(c, index, Flatten(buf));
          break;
        }
        var whole := Flatten(buf);
        buf := [whole];
        FlattenOne(whole);
        ParseStep(c, index, whole);
        var bodyLen := ReadBe32(whole);
        if bodyLen < TAG_BYTES || bodyLen > c.chunkBytes + TAG_BYTES {
          return BadLength(bodyLen);
        }
        if buffered < LEN_BYTES + bodyLen { break; }
        var body := whole[LEN_BYTES..LEN_BYTES + bodyLen];
        var plain := DecryptChunk(c, index, body);
        if plain.None? {
          return BadChunk(index);
        }
        pushed := pushed + [plain.value];
        index := index + 1;
        chunksDone := chunksDone + 1;
        var rest := whole[LEN_BYTES + bodyLen..];
        KeepRest(rest);
        buf := if |rest| > 0 then [rest] else [];
        buffered := |rest|;
      }
      return More;
    }

    /** The end of the stream is clean exactly when no byte of an unfinished frame is left. */
    method Flush() returns (clean: bool)
      requires Valid()
      ensures clean <==> Parse(c, startChunk, fed).rest == []
    {
      return buffered == 0;
    }
  }

  /** A body through a decoder, piece by piece, up to its end or the piece the decoder fails on. */
  method DecodeAll(c: Channel, start: nat, pieces: seq<Bytes>) returns (plains: seq<Bytes>, clean: bool)
    ensures plains == Parse(c, start, Flatten(pieces)).plains
    ensures clean <==> DecodesCleanly(c, start, Flatten(pieces))
  {
    hide Flatten, Parse;
    var decrypt := new ChunkDecryptStream(c, start);
    NoPieces();
    var i, status := 0, More;
    while i < |pieces| && status.More?
      invariant 0 <= i <= |pieces| && fresh(decrypt) && decrypt.c == c && decrypt.startChunk == start
      invariant decrypt.fed == Flatten(pieces[..i]) && decrypt.pushed == Parse(c, start, decrypt.fed).plains
      invariant status == Parse(c, start, decrypt.fed).status && (status.More? ==> decrypt.Valid())
    {
      OnePieceMore(pieces, i);
      status := decrypt.Transform(pieces[i]);
      i := i + 1;
    }
    ErrorIsFinal(c, start, pieces, i);
    plains, clean := decrypt.pushed, false;
    if status.More? {
      clean := decrypt.Flush();
    }
  }
}
