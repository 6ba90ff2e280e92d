/** Encoder and decoder end to end, with the plaintext and the wire split independently of each other. */
module RoundTrip {
  import opened Bytes
  import opened FileCrypto
  import opened Streams
  import opened DataPlane

  /** How the network cuts a stream into pieces: anyhow, as long as nothing is lost. */
  ghost predicate Cuts(cut: Bytes -> seq<Bytes>) {
    forall w: Bytes :: Flatten(cut(w)) == w
  }

  /** What the encoder has produced once the last data event is flushed. */
  method EncodeAll(c: Channel, start: nat, events: seq<Bytes>) returns (frames: seq<Bytes>)
    requires c.Sized()
    ensures Flatten(frames) == Encrypted(c, start, Flatten(events))
    ensures |frames| == TotalChunksFor(|Flatten(events)|, c.chunkBytes)
  {
    hide Flatten, FramesOf, Chunks, TotalChunksFor;
    var encrypt := new ChunkEncryptStream(c, start);
    NoPieces();
    for i := 0 to |events|
      invariant fresh(encrypt) && encrypt.Valid() && encrypt.c == c && encrypt.startChunk == start
      invariant encrypt.fed == Flatten(events[..i])
    {
      OnePieceMore(events, i);
      encrypt.Transform(events[i]);
    }
    assert events[..|events|] == events;
    encrypt.Flush();
    frames := encrypt.pushed;
    ChunkCount(c.chunkBytes, encrypt.fed);
  }

  /** What is written to the encoder comes out of the decoder, however either side is split into events. */
  method EncodeThenDecode(c: Channel, start: nat, events: seq<Bytes>, cut: Bytes -> seq<Bytes>,
                          ghost issued: iset<Query>)
    returns (plain: Bytes, clean: bool)
    requires c.Sized() && Ideal(c.aead, issued) && Cuts(cut)
    requires SenderIssued(c, start, Chunks(c.chunkBytes, Flatten(events)), issued)
    ensures clean && plain == Flatten(events)
  {
    hide Flatten, Parse, Encrypted, Ideal, SenderIssued, Chunks, FramesOf, TotalChunksFor;
    var frames := EncodeAll(c, start, events);
    DecodeUndoesEncode(c, start, Flatten(events), issued);
    var wire := Flatten(frames);
    assert Flatten(cut(wire)) == wire;
    var plains: seq<Bytes>;
    plains, clean := DecodeAll(c, start, cut(wire));
    plain := Flatten(plains);
  }
}
