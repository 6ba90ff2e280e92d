/**
 * The receiving side of a pull or a relay download: a retry loop over a partial file that is cut back
 * to a chunk boundary after every failure and lands only when its size and digest match the offer.
 */
module Receive {
  import opened Bytes
  import opened Options
  import opened FileCrypto
  import opened Streams
  import opened DataPlane

  /** Retries after the first attempt. */
  const RETRIES: nat := 3

  datatype State = Transferring | Verifying | Done | Failed | Cancelled | Expired

  // ----- what may happen -----

  /** Somebody cancels the transfer, or the sweep finds it past its time. */
  datatype Interrupt = Quiet | Cancels | Expires

  /** A cancel counts in every state, an expiry only in one that is not over. */
  function Interrupted(s: State, who: Interrupt): State {
    match who
    case Quiet => s
    case Cancels => Cancelled
    case Expires => if s in {Done, Failed, Cancelled} then s else Expired
  }

  /**
   * How telling the peer goes. A message that cannot be delivered is no failure: only building it can throw, as
   * sealing does for a peer whose announced key is of another kind.
   */
  datatype Telling = Delivered | Undelivered | Throws

  /**
   * How the steps of a landing go: the partial file can be read for its digest, it is still there after that, its
   * size can be had, it is removed when it does not match, the inbox and the rename succeed. What interrupts comes
   * before the verdict or while the peer is told of it.
   */
  datatype Landing = Landing(readable: bool, gone: bool, stat: bool, removed: bool, moved: bool, telling: Telling,
                             before: Interrupt, afterwards: Interrupt)

  /** Between two requests: an interrupt, and whether the partial file is removed, by it or by an earlier one. */
  datatype Gap = Gap(who: Interrupt, removed: bool)

  /**
   * What one request meets: no usable response, or a body that arrives in pieces. `cleared` tells whether an
   * old partial file could be removed, `ends` a finished body from a broken connection, `disk` whether every
   * write succeeded, `written` how many of the decrypted bytes had reached the file when the pipeline failed
   * and `created` whether it was opened by then. An interrupt while it runs destroys the stream; `removed` tells
   * whether the partial file is gone when it is over, and `cut` whether it could be cut back after a failure.
   */
  datatype Attempt =
    | NoResponse(who: Interrupt, removed: bool, cut: bool)
    | Response(pieces: seq<Bytes>, cleared: bool, ends: bool, disk: bool, created: bool, written: nat,
               who: Interrupt, removed: bool, landing: Landing, cut: bool)

  datatype Request = Request(gap: Gap, attempt: Attempt)

  /** The request number and the chunk asked for decide what happens. */
  type Network = (nat, nat) -> Request

  /**
   * One turn of the loop: the chunk asked for, the partial file it met, where the bytes of its body left there come
   * from, and the partial file when the request is over.
   */
  datatype Round = Round(from: nat, file: Option<Bytes>, left: seq<nat>, rest: Option<Bytes>)

  // ----- bytes of the source, out of order -----

  /** The offsets `start`, `start + 1`, up to `len` of them. */
  function Span(start: nat, len: nat): (o: seq<nat>)
    ensures |o| == len && forall i :: 0 <= i < len ==> o[i] == start + i
  {
    seq(len, i requires 0 <= i < len => start + i)
  }

  ghost predicate Inside(src: Bytes, o: seq<nat>) {
    forall i :: 0 <= i < |o| ==> o[i] < |src|
  }

  /** The bytes of the source at these offsets. */
  ghost function Picked(src: Bytes, o: seq<nat>): (b: Bytes)
    requires Inside(src, o)
    ensures |b| == |o| && forall i :: 0 <= i < |o| ==> b[i] == src[o[i]]
  {
    seq(|o|, i requires 0 <= i < |o| => src[o[i]])
  }

  /** Every byte is where it belongs. */
  ghost predicate Straight(o: seq<nat>) {
    forall i :: 0 <= i < |o| ==> o[i] == i
  }

  lemma PickedAppend(src: Bytes, o: seq<nat>, start: nat, len: nat)
    requires Inside(src, o) && start + len <= |src|
    ensures Inside(src, o + Span(start, len))
    ensures Picked(src, o + Span(start, len)) == Picked(src, o) + src[start..start + len]
    ensures Straight(o) ==> (Straight(o + Span(start, len)) <==> len == 0 || |o| == start)
  {
    var p := o + Span(start, len);
    assert len > 0 ==> p[|o|] == start;
  }

  lemma PickedCut(src: Bytes, o: seq<nat>, keep: nat)
    requires Inside(src, o) && keep <= |o|
    ensures Inside(src, o[..keep]) && Picked(src, o[..keep]) == Picked(src, o)[..keep]
    ensures Straight(o) ==> Straight(o[..keep])
  {
  }

  lemma StraightIsPrefix(src: Bytes, o: seq<nat>)
    requires Inside(src, o) && Straight(o)
    ensures |o| <= |src| && Picked(src, o) == src[..|o|]
  {
    if |o| > 0 { assert o[|o| - 1] == |o| - 1; }
  }

  class Receiver<Digest(==)> {
    const c: Channel
    /** The size and digest in the offer. */
    const size: nat
    const sha256: Digest
    const hash: Bytes -> Digest
    var state: State
    /** The partial file, and every file that was moved into the inbox. */
    var partial: Option<Bytes>
    var landed: seq<Bytes>
    /** Where in the source each byte of the partial file comes from. */
    ghost var origin: seq<nat>
    /** The sender's file, and what was sealed under the transfer key. */
    ghost const src: Bytes
    ghost const issued: iset<Query>

    /** The sender is honest and nobody else holds the key; the network may do anything. */
    ghost predicate Honest() {
      c.Sized() && Ideal(c.aead, issued) && OnlySender(c, src, issued) && size == |src|
    }

    /** The partial file holds bytes of the source, whatever their order. */
    ghost predicate Held()
      reads this`partial, this`origin
    {
      Inside(src, origin) && (if partial.Some? then partial.value == Picked(src, origin) else origin == [])
    }

    ghost predicate InPlace()
      reads this`origin
    {
      Straight(origin)
    }

    /** The next request may ask for chunk `k`: that many whole chunks are there, if the file is. */
    ghost predicate Ready(k: nat)
      reads this`partial, this`origin
    {
      Held() && (k > 0 && partial.Some? ==> |partial.value| == k * c.chunkBytes)
    }

    /** The partial file is exactly the first `k` whole chunks of the source. */
    ghost predicate AtBoundary(k: nat)
      reads this`partial
    {
      && (partial.None? ==> k == 0)
      && (partial.Some? ==> k * c.chunkBytes <= |src| && partial.value == src[..k * c.chunkBytes])
    }

    /** In place, the partial file is a prefix of the source. */
    lemma InPlaceIsPrefix()
      requires Held() && InPlace()
      ensures partial.Some? ==> partial.value <= src
    {
      StraightIsPrefix(src, origin);
    }

    /** What lands has the size and the digest of the offer. */
    ghost predicate AllOffered()
      reads this`landed
    {
      forall f :: f in landed ==> |f| == size && hash(f) == sha256
    }

    ghost predicate AllSource()
      reads this`landed
    {
      forall f :: f in landed ==> f == src
    }

    /** No other file of that size has the digest of the offer. */
    ghost predicate Distinguishes() {
      forall f: Bytes :: |f| == |src| && hash(f) == sha256 ==> f == src
    }

    constructor (c: Channel, size: nat, sha256: Digest, hash: Bytes -> Digest, ghost src: Bytes,
                 ghost issued: iset<Query>)
      ensures this.c == c && this.size == size && this.sha256 == sha256 && this.hash == hash
      ensures this.src == src && this.issued == issued
      ensures state == Transferring && partial == None && landed == [] && origin == []
    {
      this.c, this.size, this.sha256, this.hash := c, size, sha256, hash;
      this.src, this.issued := src, issued;
      state, partial, landed, origin := Transferring, None, [], [];
    }

    // ----- how a request that meets `file` ends -----

    /** The plaintext of the body, as far as it decrypts. */
    ghost function Body(a: Attempt, k: nat): Bytes
      requires a.Response?
    {
      Flatten(Parse(c, k, Flatten(a.pieces)).plains)
    }

    /** The response ends, is written and decrypts cleanly, to the last byte. */
    ghost predicate Finishes(a: Attempt, k: nat) {
      && a.Response? && (k == 0 ==> a.cleared) && a.ends && a.disk && a.who.Quiet?
      && DecodesCleanly(c, k, Flatten(a.pieces))
    }

    /** How much of the body reached the file. */
    ghost function Written(a: Attempt, k: nat): nat
      requires a.Response?
    {
      if Finishes(a, k) then |Body(a, k)| else if a.created then Min(a.written, |Body(a, k)|) else 0
    }

    /** A request past the first chunk finds no file and writes: its chunks come to stand at the start. */
    ghost predicate Strays(file: Option<Bytes>, a: Attempt, k: nat) {
      k > 0 && file.None? && a.Response? && !a.removed && Written(a, k) > 0
    }

    /** What is there once the body is complete. */
    ghost function Fetched(file: Option<Bytes>, a: Attempt, k: nat): Option<Bytes>
      requires a.Response?
    {
      if a.removed then None else Some((if k == 0 || file.None? then [] else file.value) + Body(a, k))
    }

    /** The partial file once the body is over. */
    ghost function Left(file: Option<Bytes>, a: Attempt, k: nat): Option<Bytes>
      requires a.Response?
    {
      var base := if k == 0 || file.None? then [] else file.value;
      if a.removed then None
      else if k == 0 && !a.cleared then file
      else if Finishes(a, k) || a.created then Some(base + Body(a, k)[..Written(a, k)])
      else if k == 0 then None else file
    }

    /** Where in the source the bytes of that file come from, when those of the file it met come from `o`. */
    ghost function LeftFrom(o: seq<nat>, file: Option<Bytes>, a: Attempt, k: nat): seq<nat> {
      var base := if k == 0 || file.None? then [] else o;
      if a.removed then []
      else if a.NoResponse? || (k == 0 && !a.cleared) then o
      else if Finishes(a, k) || a.created then base + Span(ChunkStart(c.chunkBytes, |src|, k), Written(a, k))
      else if k == 0 then [] else o
    }

    /** The file has the digest and the size of the offer, as far as can be told. */
    predicate Matches(f: Bytes, l: Landing) {
      hash(f) == sha256 && l.stat && |f| == size
    }

    predicate LandsFile(f: Option<Bytes>, l: Landing) {
      f.Some? && l.readable && Matches(f.value, l) && !l.gone && l.moved
    }

    predicate RejectsFile(f: Option<Bytes>, l: Landing) {
      f.Some? && l.readable && !Matches(f.value, l)
    }

    /** There is a verdict and nothing was thrown on the way: whether the peer heard of it does not matter. */
    predicate Concludes(f: Option<Bytes>, l: Landing) {
      (LandsFile(f, l) || RejectsFile(f, l)) && !l.telling.Throws?
    }

    function StateAfterLanding(f: Option<Bytes>, l: Landing): State {
      var s := Interrupted(Verifying, l.before);
      if LandsFile(f, l) then Interrupted(Done, l.afterwards)
      else if Concludes(f, l) then Failed
      else if RejectsFile(f, l) then Interrupted(s, l.afterwards)
      else s
    }

    /** A file that is refused or cannot be moved may stay; one that lands is gone. */
    function LeftAfterLanding(f: Option<Bytes>, l: Landing): Option<Bytes> {
      if f.None? || !l.readable then f
      else if l.gone || (if Matches(f.value, l) then l.moved else l.removed) then None
      else f
    }

    /** The partial file when the request is over, before anything is cut off. */
    ghost function RestAfter(file: Option<Bytes>, a: Attempt, k: nat): Option<Bytes> {
      if a.NoResponse? then if a.removed then None else file
      else if Finishes(a, k) then LeftAfterLanding(Fetched(file, a, k), a.landing)
      else Left(file, a, k)
    }

    ghost predicate Lands(file: Option<Bytes>, a: Attempt, k: nat) {
      Finishes(a, k) && LandsFile(Fetched(file, a, k), a.landing)
    }

    ghost predicate Settles(file: Option<Bytes>, a: Attempt, k: nat) {
      Finishes(a, k) && Concludes(Fetched(file, a, k), a.landing)
    }

    /** The state when the request is over, before the loop fails for good. */
    ghost function StateAfter(s: State, file: Option<Bytes>, a: Attempt, k: nat): State {
      if Finishes(a, k) then StateAfterLanding(Fetched(file, a, k), a.landing) else Interrupted(s, a.who)
    }

    // ----- the steps -----

    /**
     * `consumeCipherStream`: decrypt the body into the partial file, appending from a chunk boundary without
     * looking whether the file is still there. The file stays in place exactly when it does not have to be.
     */
    method ConsumeCipherStream(a: Attempt, fromChunk: nat) returns (ok: bool)
      requires a.Response? && Honest() && Ready(fromChunk)
      modifies this`partial, this`origin
      ensures Held() && (ok <==> Finishes(a, fromChunk))
      ensures partial == Left(old(partial), a, fromChunk) && (ok ==> partial == Fetched(old(partial), a, fromChunk))
      ensures origin == LeftFrom(old(origin), old(partial), a, fromChunk)
      ensures old(InPlace()) ==> (InPlace() <==> !Strays(old(partial), a, fromChunk))
    {
      hide Parse, Flatten, OnlySender, Ideal, Straight, Inside, Picked;
      NothingIsInPlace();
      if fromChunk == 0 {
        if !a.cleared {
          if a.removed { partial, origin := None, []; }
          return false;
        }
        partial, origin := None, [];
      }
      var plains, clean := DecodeAll(c, fromChunk, a.pieces);
      var plain := Flatten(plains);
      BodyIsSource(c, src, fromChunk, Flatten(a.pieces), issued);
      assert plain[..|plain|] == plain;
      ok := clean && a.ends && a.disk && a.who.Quiet?;
      if ok || a.created {
        Append(plain, if ok then |plain| else Min(a.written, |plain|), ChunkStart(c.chunkBytes, |src|, fromChunk));
      }
      if a.removed { partial, origin := None, []; }
    }

    /** The write stream puts the first `w` bytes behind what is there; they come from `start` on in the source. */
    method Append(plain: Bytes, w: nat, ghost start: nat)
      requires Held() && w <= |plain| && start + |plain| <= |src| && plain == src[start..start + |plain|]
      modifies this`partial, this`origin
      ensures Held() && partial == Some((if old(partial).Some? then old(partial).value else []) + plain[..w])
      ensures origin == old(origin) + Span(start, w)
      ensures old(InPlace()) ==> (InPlace() <==> w == 0 || |old(origin)| == start)
    {
      hide Straight, Inside, Picked;
      NothingIsInPlace();
      var base := if partial.Some? then partial.value else [];
      PickedAppend(src, origin, start, w);
      SliceOf(src, start, |plain|, w);
      partial := Some(base + plain[..w]);
      origin := origin + Span(start, w);
    }

    lemma NothingIsInPlace()
      ensures Inside(src, []) && Straight([]) && Picked(src, []) == []
    {
    }

    function Chunked(f: Bytes): nat
      requires c.Sized()
    {
      WholeChunks(|f|, c.chunkBytes)
    }

    /** A file without its trailing partial chunk. */
    function CutBack(file: Option<Bytes>): Option<Bytes>
      requires c.Sized()
    {
      if file.None? then None else Some(file.value[..Chunked(file.value) * c.chunkBytes])
    }

    /** `countCompleteChunks`: cut a trailing partial chunk off and report how many whole chunks are left. */
    method CountCompleteChunks(cut: bool) returns (whole: nat)
      requires Honest() && Held()
      modifies this`partial, this`origin
      ensures Ready(whole) && (old(InPlace()) ==> InPlace())
      ensures cut && old(InPlace()) ==> AtBoundary(whole)
      ensures old(partial).Some? ==> partial.Some? && |old(partial.value)| - |partial.value| < c.chunkBytes
      ensures old(partial).None? || !cut ==> whole == 0 && partial == old(partial)
      ensures cut && old(partial).Some? ==> partial == CutBack(old(partial)) && whole == Chunked(old(partial).value)
    {
      if partial.None? || !cut {
        return 0;
      }
      hide Ideal, OnlySender, WholeChunks;
      whole := WholeChunks(|partial.value|, c.chunkBytes);
      var keep := whole * c.chunkBytes;
      PickedCut(src, origin, keep);
      if InPlace() { StraightIsPrefix(src, origin[..keep]); }
      partial := Some(partial.value[..keep]);
      origin := origin[..keep];
    }

    /** `finalizeReceive`: move the partial file into the inbox if digest and size are those of the offer. */
    method FinalizeReceive(l: Landing) returns (threw: bool)
      requires Held()
      modifies this`state, this`partial, this`origin, this`landed
      ensures Held() && (old(InPlace()) ==> InPlace())
      ensures landed == old(landed) + (if LandsFile(old(partial), l) then [old(partial).value] else [])
      ensures (threw <==> !Concludes(old(partial), l)) && state == StateAfterLanding(old(partial), l)
      ensures partial == LeftAfterLanding(old(partial), l)
    {
      hide Straight, Inside, Picked;
      NothingIsInPlace();
      state := Interrupted(Verifying, l.before);
      if partial.None? || !l.readable {
        return true;
      }
      var file := partial.value;
      if l.gone { partial, origin := None, []; }
      if !Matches(file, l) {
        if l.removed { partial, origin := None, []; }
        if l.telling.Throws? {
          state := Interrupted(state, l.afterwards);
          return true;
        }
        state := Failed;
        return false;
      }
      if l.gone || !l.moved {
        return true;
      }
      landed := landed + [file];
      partial, origin := None, [];
      state := Interrupted(Done, l.afterwards);
      return l.telling.Throws?;
    }

    /** The chunk the next request asks for: the one after the last whole chunk, if the file could be cut back. */
    function Resumes(a: Attempt, rest: Option<Bytes>): (next: nat)
      requires c.Sized()
      ensures a.cut && rest.Some? ==> next * c.chunkBytes <= |rest.value| < (next + 1) * c.chunkBytes
      ensures !a.cut || rest.None? ==> next == 0
    {
      if a.cut && rest.Some? then Chunked(rest.value) else 0
    }

    /** One turn of the retry loop; the new chunk index is where the next request starts. */
    method Attempt(a: Attempt, fromChunk: nat) returns (next: nat, over: bool, ghost left: seq<nat>)
      requires Honest() && Ready(fromChunk)
      modifies this`state, this`partial, this`origin, this`landed
      ensures Held() && state == StateAfter(old(state), old(partial), a, fromChunk)
      ensures over <==> Settles(old(partial), a, fromChunk) || state == Cancelled
      ensures !over ==> Ready(next)
      ensures !over ==>
        var rest := RestAfter(old(partial), a, fromChunk);
        partial == (if a.cut then CutBack(rest) else rest) && next == Resumes(a, rest)
      ensures landed == old(landed) +
        if Lands(old(partial), a, fromChunk) then [Fetched(old(partial), a, fromChunk).value] else []
      ensures left == LeftFrom(old(origin), old(partial), a, fromChunk)
      ensures old(InPlace()) ==> (Straight(left) <==> !Strays(old(partial), a, fromChunk))
      ensures Straight(left) ==> InPlace()
      ensures Straight(left) && !over ==> (a.cut || next > 0 ==> AtBoundary(next))
    {
      hide Honest, Body, Straight, Inside, Picked, Matches, DecodesCleanly;
      next, over := fromChunk, false;
      if a.Response? {
        var ok := ConsumeCipherStream(a, fromChunk);
        left := origin;
        if ok {
          var threw := FinalizeReceive(a.landing);
          if !threw {
            over := true;
            return;
          }
        } else {
          state := Interrupted(state, a.who);
        }
      } else {
        NothingIsInPlace();
        if a.removed { partial, origin := None, []; }
        left := origin;
        state := Interrupted(state, a.who);
      }
      if state == Cancelled {
        over := true;
        return;
      }
      next := CountCompleteChunks(a.cut);
    }

    /** A file that lands from bytes that are all in place is the source, whatever the digest. */
    lemma LandedInPlace(a: Attempt, k: nat)
      requires Honest() && Ready(k) && InPlace() && Lands(partial, a, k) && !Strays(partial, a, k)
      ensures Fetched(partial, a, k) == Some(src)
    {
      hide Parse, Flatten, OnlySender, Ideal, Inside, Straight;
      InPlaceIsPrefix();
      BodyIsSource(c, src, k, Flatten(a.pieces), issued);
      var base, b := if k == 0 || partial.None? then [] else partial.value, Body(a, k);
      assert b != [] ==> |base| == k * c.chunkBytes;
      AppendedPrefix(src, base, b, ChunkStart(c.chunkBytes, |src|, k));
    }

    /** Between two requests; the loop does not look. */
    method Pause(g: Gap, ghost k: nat)
      requires Ready(k)
      modifies this`state, this`partial, this`origin
      ensures state == Interrupted(old(state), g.who) && partial == if g.removed then None else old(partial)
      ensures Ready(k) && (old(InPlace()) ==> InPlace())
    {
      NothingIsInPlace();
      state := Interrupted(state, g.who);
      if g.removed { partial, origin := None, []; }
    }

    // ----- whole runs -----

    /** How many of the requests landed a file. */
    ghost function Landings(net: Network, trace: seq<Round>): nat {
      if trace == [] then 0
      else
        var i := |trace| - 1;
        Landings(net, trace[..i]) + if LandsAt(net, i, trace[i]) then 1 else 0
    }

    ghost predicate LandsAt(net: Network, i: nat, r: Round) { Lands(r.file, net(i, r.from).attempt, r.from) }

    ghost predicate StraysAt(net: Network, i: nat, r: Round) { Strays(r.file, net(i, r.from).attempt, r.from) }

    /**
     * The turn after turn `i`: it asks for the chunk after the last whole one that turn `i` left, or for the first
     * if nothing was left or it could not be cut back, and it meets that file unless it was removed meanwhile.
     */
    ghost predicate Follows(net: Network, i: nat, q: Round, r: Round) {
      var a, n := net(i, q.from).attempt, c.chunkBytes;
      && q.rest == RestAfter(q.file, a, q.from)
      && (a.cut && q.rest.Some? ==> r.from * n <= |q.rest.value| < (r.from + 1) * n)
      && (!a.cut || q.rest.None? ==> r.from == 0)
      && r.file ==
        if net(i + 1, r.from).gap.removed || q.rest.None? then None
        else Some(if a.cut then q.rest.value[..Min(r.from * n, |q.rest.value|)] else q.rest.value)
    }

    ghost predicate Chained(net: Network, trace: seq<Round>) {
      forall i :: 0 < i < |trace| ==> Follows(net, i - 1, trace[i - 1], trace[i])
    }

    /** What the turn leaves to the next one. */
    ghost predicate Leads(net: Network, i: nat, q: Round, next: nat, file: Option<Bytes>) {
      var a := net(i, q.from).attempt;
      && c.Sized() && q.rest == RestAfter(q.file, a, q.from)
      && file == (if a.cut then CutBack(q.rest) else q.rest) && next == Resumes(a, q.rest)
    }

    ghost predicate SettlesAt(net: Network, i: nat, r: Round) { Settles(r.file, net(i, r.from).attempt, r.from) }

    /** No request but the last settled the transfer. */
    ghost predicate NoneSettles(net: Network, trace: seq<Round>) {
      forall i :: 0 <= i < |trace| ==> !SettlesAt(net, i, trace[i])
    }

    /** No interrupt of the request, or of the pause before it, is a cancel. */
    predicate NotCancelled(r: Request) { !r.gap.who.Cancels? && Uncancelled(r.attempt) }

    predicate Uncancelled(a: Attempt) {
      !a.who.Cancels? && (a.Response? ==> !a.landing.before.Cancels? && !a.landing.afterwards.Cancels?)
    }

    ghost predicate NeverCancelled(net: Network) {
      forall i: nat, k: nat :: NotCancelled(net(i, k))
    }

    ghost predicate AllKept(trace: seq<Round>) {
      forall r :: r in trace ==> Straight(r.left)
    }

    ghost predicate NoneStrays(net: Network, trace: seq<Round>) {
      forall i :: 0 <= i < |trace| ==> !StraysAt(net, i, trace[i])
    }

    /** The request landed, nothing was thrown while telling, and nobody cancelled meanwhile. */
    ghost predicate EndsDone(net: Network, i: nat, r: Round) {
      var a := net(i, r.from).attempt;
      LandsAt(net, i, r) && !a.landing.telling.Throws? && !a.landing.afterwards.Cancels?
    }

    /**
     * `runPull` and `runRelayDownload`: up to four requests, each from the chunk after the last whole one, with
     * interrupts anywhere. Everything that lands has the offered size and digest, and is the source if the digest
     * tells it apart, or, whatever the digest, if no request strayed onto a removed file. The partial file is in
     * place after every request exactly when none strayed. The transfer ends as done exactly when its last request
     * landed, nothing was thrown while the peer was told and nobody cancelled meanwhile. Every request asks for the
     * chunk after the last whole one that the request before it left, and there is a next request until one settles
     * the transfer, it is cancelled or all four were made. So a file of up to four chunks arrives when every request
     * brings one more.
     */
    method Run(net: Network) returns (ghost trace: seq<Round>)
      requires Honest() && state == Transferring && partial == None && landed == [] && origin == []
      modifies this`state, this`partial, this`origin, this`landed
      ensures 0 < |trace| <= RETRIES + 1 && trace[0].from == 0 && trace[0].file == None
      ensures state in {Done, Failed, Cancelled} && (NeverCancelled(net) ==> state != Cancelled)
      ensures AllOffered() && |landed| == Landings(net, trace)
      ensures Distinguishes() || NoneStrays(net, trace) ==> AllSource()
      ensures AllKept(trace) <==> NoneStrays(net, trace)
      ensures state == Done <==> EndsDone(net, |trace| - 1, trace[|trace| - 1])
      ensures forall i :: 0 < i < |trace| ==> Follows(net, i - 1, trace[i - 1], trace[i])
      ensures forall i :: 0 <= i < |trace| - 1 ==> !SettlesAt(net, i, trace[i])
      ensures |trace| == RETRIES + 1 || SettlesAt(net, |trace| - 1, trace[|trace| - 1]) || state == Cancelled
      ensures GoodRun(net) || SteadyRun(net) ==> state == Done
    {
      hide Honest, Held, Ready, InPlace, AtBoundary, Lands, Strays, Settles, StateAfter, Fetched;
      hide AllKept, NoneStrays, AllSource, AllOffered, Landings, Distinguishes, FairRun, BringsAll, EndsDone;
      hide NotCancelled, Follows, Leads, SettlesAt, SteadyRun;
      StartIsReady(net);
      SteadyIsFair(net);
      var fromChunk, over := 0, false;
      trace := [];
      ghost var good := GoodRequest(net);
      for attempt := 0 to RETRIES + 1
        invariant Honest() && Ready(fromChunk) && AllOffered() && !over
        invariant |trace| == attempt && |landed| == Landings(net, trace)
        invariant attempt == 0 ==> fromChunk == 0 && partial == None
        invariant attempt > 0 ==> trace[0].from == 0 && trace[0].file == None
        invariant NeverCancelled(net) ==> state != Cancelled
        invariant (AllKept(trace) <==> NoneStrays(net, trace)) && (AllKept(trace) ==> InPlace() && AllSource())
        invariant attempt > 0 ==> !EndsDone(net, attempt - 1, trace[attempt - 1])
        invariant FairRun(net) ==> state != Cancelled && AllKept(trace) && Whole(fromChunk)
        invariant GoodRun(net) ==> attempt <= good
        invariant c.Sized() && (SteadyRun(net) ==> FairRun(net) && Total() <= RETRIES + 1)
        invariant SteadyRun(net) ==> attempt <= fromChunk && (attempt > 0 ==> attempt < Total())
        invariant Chained(net, trace) && NoneSettles(net, trace)
        invariant attempt > 0 ==> Leads(net, attempt - 1, trace[attempt - 1], fromChunk, partial)
      {
        ghost var r;
        ghost var was := partial;
        fromChunk, over, r := Turn(net, attempt, fromChunk);
        LandingsNext(net, trace, r);
        AllKeptNext(trace, r);
        NoneStraysNext(net, trace, r);
        ChainedNext(net, trace, r, was);
        NoneSettlesNext(net, trace, r);
        trace := trace + [r];
        if over {
          OfferedIsSource();
          return;
        }
      }
      state := Failed;
      OfferedIsSource();
    }

    /** From a chunk past the first, the file is there and exactly the chunks before it. */
    ghost predicate Whole(k: nat)
      reads this`partial
    {
      k > 0 ==> AtBoundary(k)
    }

    /** One turn of the loop with what comes before it. */
    method Turn(net: Network, i: nat, fromChunk: nat) returns (next: nat, over: bool, ghost r: Round)
      requires Honest() && Ready(fromChunk) && AllOffered()
      modifies this`state, this`partial, this`origin, this`landed
      ensures r.file == if net(i, fromChunk).gap.removed then None else old(partial)
      ensures old(state) != Cancelled && NotCancelled(net(i, fromChunk)) ==> state != Cancelled
      ensures r.from == fromChunk && AllOffered() && (!over ==> Ready(next))
      ensures |landed| == |old(landed)| + if LandsAt(net, i, r) then 1 else 0
      ensures old(InPlace()) ==> (Straight(r.left) <==> !StraysAt(net, i, r)) && (Straight(r.left) ==> InPlace())
      ensures old(InPlace()) && old(AllSource()) && Straight(r.left) ==> AllSource()
      ensures over ==> state in {Done, Failed, Cancelled} && (state == Done <==> EndsDone(net, i, r))
      ensures !over ==> !EndsDone(net, i, r)
      ensures FairRun(net) && old(state) != Cancelled && old(InPlace()) && old(Whole(fromChunk)) ==>
        && Straight(r.left) && (over ==> state == Done)
        && (!over ==> state != Cancelled && Whole(next) && !BringsAll(net, i))
        && (!over && SteadyRun(net) ==> fromChunk < next && fromChunk + 1 < Total())
      ensures over <==> SettlesAt(net, i, r) || state == Cancelled
      ensures !over ==> Leads(net, i, r, next, partial)
    {
      hide Honest, Held, Straight, AtBoundary, Lands, Strays, Settles, StateAfter, Fetched, FairRun, BringsAll;
      hide RestAfter, Resumes, CutBack, SteadyRun, BringsMore, GetsThrough, Matches;
      NothingIsInPlace();
      var request := net(i, fromChunk);
      GoodPause(net, i, fromChunk);
      Pause(request.gap, fromChunk);
      ghost var file, s := partial, state;
      ghost var left;
      PresentIsKept(request.attempt, fromChunk);
      GoodSettles(net, i, fromChunk, s);
      SteadyIsFair(net);
      SteadyAdvances(net, i, fromChunk);
      SettledState(s, file, request.attempt, fromChunk);
      if InPlace() && Lands(file, request.attempt, fromChunk) && !Strays(file, request.attempt, fromChunk) {
        LandedInPlace(request.attempt, fromChunk);
      }
      LandedIsOffered(file, request.attempt, fromChunk);
      next, over, left := Attempt(request.attempt, fromChunk);
      r := Round(fromChunk, file, left, RestAfter(file, request.attempt, fromChunk));
    }

    /** The chunks of the source. */
    ghost function Total(): nat
      requires c.Sized()
    {
      TotalChunksFor(|src|, c.chunkBytes)
    }

    lemma StartIsReady(net: Network)
      requires partial == None && landed == [] && origin == []
      ensures Ready(0) && AllOffered() && AllSource() && InPlace() && Whole(0)
      ensures AllKept([]) && NoneStrays(net, []) && Landings(net, []) == 0 && Chained(net, [])
    {
    }

    lemma SteadyIsFair(net: Network)
      requires Honest()
      ensures c.Sized() && (SteadyRun(net) ==> FairRun(net) && Total() <= RETRIES + 1)
    {
    }

    lemma OfferedIsSource()
      requires Honest() && AllOffered()
      ensures Distinguishes() ==> AllSource()
    {
      hide Ideal, OnlySender;
    }

    lemma LandingsNext(net: Network, trace: seq<Round>, r: Round)
      ensures Landings(net, trace + [r]) == Landings(net, trace) + if LandsAt(net, |trace|, r) then 1 else 0
    {
      hide LandsAt;
      assert (trace + [r])[..|trace|] == trace;
    }

    lemma AllKeptNext(trace: seq<Round>, r: Round)
      ensures AllKept(trace + [r]) <==> AllKept(trace) && Straight(r.left)
    {
      hide Straight;
      assert r in trace + [r] && forall q :: q in trace ==> q in trace + [r];
    }

    lemma NoneStraysNext(net: Network, trace: seq<Round>, r: Round)
      ensures NoneStrays(net, trace + [r]) <==> NoneStrays(net, trace) && !StraysAt(net, |trace|, r)
    {
      hide StraysAt;
      var all := trace + [r];
      assert all[|trace|] == r && forall i :: 0 <= i < |trace| ==> all[i] == trace[i];
    }

    lemma NoneSettlesNext(net: Network, trace: seq<Round>, r: Round)
      ensures NoneSettles(net, trace + [r]) <==> NoneSettles(net, trace) && !SettlesAt(net, |trace|, r)
    {
      hide SettlesAt;
      var all := trace + [r];
      assert all[|trace|] == r && forall i :: 0 <= i < |trace| ==> all[i] == trace[i];
    }

    lemma ChainedNext(net: Network, trace: seq<Round>, r: Round, was: Option<Bytes>)
      requires Chained(net, trace)
      requires trace != [] ==> Leads(net, |trace| - 1, trace[|trace| - 1], r.from, was)
      requires r.file == if net(|trace|, r.from).gap.removed then None else was
      ensures Chained(net, trace + [r])
    {
      if trace != [] { LeadsOn(net, |trace| - 1, trace[|trace| - 1], r, was); }
      hide Follows, Leads;
      var all := trace + [r];
      assert all[|trace|] == r && forall i :: 0 <= i < |trace| ==> all[i] == trace[i];
    }

    lemma LeadsOn(net: Network, i: nat, q: Round, r: Round, was: Option<Bytes>)
      requires Leads(net, i, q, r.from, was)
      requires r.file == if net(i + 1, r.from).gap.removed then None else was
      ensures Follows(net, i, q, r)
    {
      hide RestAfter, WholeChunks;
    }

    /** What ends the loop, and as what. */
    lemma SettledState(s: State, file: Option<Bytes>, a: Attempt, k: nat)
      ensures s != Cancelled && Uncancelled(a) ==> StateAfter(s, file, a, k) != Cancelled
      ensures var t, over := StateAfter(s, file, a, k), Settles(file, a, k) || StateAfter(s, file, a, k) == Cancelled;
        var done := Lands(file, a, k) && !a.landing.telling.Throws? && !a.landing.afterwards.Cancels?;
        && (over ==> t in {Done, Failed, Cancelled} && (t == Done <==> done))
        && (done ==> over)
    {
      hide DecodesCleanly, Fetched, Matches;
    }

    lemma LandedIsOffered(file: Option<Bytes>, a: Attempt, k: nat)
      ensures Lands(file, a, k) ==> |Fetched(file, a, k).value| == size && hash(Fetched(file, a, k).value) == sha256
    {
      hide Finishes, Body;
    }

    // ----- a run in which one request gets through -----

    /** The whole of what is served from that chunk arrived. */
    ghost predicate Serves(a: Attempt, k: nat)
      requires c.Sized()
    {
      a.Response? && a.ends && k <= TotalChunksFor(|src|, c.chunkBytes) &&
      Flatten(a.pieces) == Expected(c, src, k).bytes
    }

    /** Nobody interrupts, nothing is removed and a file's size can be had. */
    ghost predicate Undisturbed(r: Request) {
      && r.gap == Gap(Quiet, false) && r.attempt.who == Quiet && !r.attempt.removed
      && (r.attempt.Response? ==> Smooth(r.attempt.landing))
    }

    predicate Smooth(l: Landing) { l.stat && !l.gone && l.before == Quiet && l.afterwards == Quiet }

    /** A body that ends is the whole of what is served from that chunk. */
    ghost predicate HonestServer(net: Network)
      requires c.Sized()
    {
      forall i: nat, k: nat :: k <= TotalChunksFor(|src|, c.chunkBytes) && net(i, k).attempt.Response? ==>
        (net(i, k).attempt.ends ==> Serves(net(i, k).attempt, k))
    }

    /** Whatever chunk it asks for, this request is served whole, written and landed without anything being thrown. */
    ghost predicate BringsAll(net: Network, i: nat) {
      c.Sized() && forall k: nat :: k <= TotalChunksFor(|src|, c.chunkBytes) ==> GetsThrough(net(i, k).attempt, k)
    }

    ghost predicate GetsThrough(a: Attempt, k: nat)
      requires c.Sized()
    {
      && Serves(a, k) && a.cleared && a.disk
      && a.landing.readable && a.landing.moved && !a.landing.telling.Throws?
    }

    /** The sender sealed its file, the offer names its digest, and nothing disturbs. */
    ghost predicate FairRun(net: Network) {
      && c.Sized() && SenderIssued(c, 0, Chunks(c.chunkBytes, src), issued) && hash(src) == sha256
      && HonestServer(net) && forall i: nat, k: nat :: Undisturbed(net(i, k))
    }

    /** One request gets through. */
    ghost predicate GoodRun(net: Network) {
      FairRun(net) && exists i: nat :: i <= RETRIES && BringsAll(net, i)
    }

    /** The body breaks off or is not written to its end, with a whole chunk in the file that can be kept. */
    ghost predicate BringsMore(a: Attempt, k: nat)
      requires c.Sized()
    {
      && a.Response? && (k == 0 ==> a.cleared) && a.created && a.cut
      && !Finishes(a, k) && c.chunkBytes <= Written(a, k)
    }

    /** There are no more chunks than requests, and each brings one at least; the one for the last gets through. */
    ghost predicate SteadyRun(net: Network) {
      && FairRun(net) && Total() <= RETRIES + 1
      && forall i: nat, k: nat :: k <= Total() ==>
        GetsThrough(net(i, k).attempt, k) || (BringsMore(net(i, k).attempt, k) && k + 1 < Total())
    }

    /** A request that gets through. */
    ghost function GoodRequest(net: Network): (i: nat)
      ensures GoodRun(net) ==> i <= RETRIES && BringsAll(net, i)
    {
      if GoodRun(net) then var i: nat :| i <= RETRIES && BringsAll(net, i); i else 0
    }

    lemma GoodPause(net: Network, i: nat, k: nat)
      ensures FairRun(net) ==> net(i, k).gap == Gap(Quiet, false)
    {
      assert FairRun(net) ==> Undisturbed(net(i, k));
    }

    /** A file that is there is not strayed from. */
    lemma PresentIsKept(a: Attempt, k: nat)
      ensures Whole(k) ==> !Strays(partial, a, k)
    {
    }

    lemma ServedIsWhole(a: Attempt, k: nat)
      requires c.Sized() && Ideal(c.aead, issued) && SenderIssued(c, 0, Chunks(c.chunkBytes, src), issued)
      requires Serves(a, k)
      ensures DecodesCleanly(c, k, Flatten(a.pieces)) && Received(c, src, k, Flatten(a.pieces)) == src
    {
      hide Parse, Expected, Ideal, SenderIssued;
      ServedContinues(c, src, k, issued);
    }

    /** A whole answer to a request that meets the chunks before it completes the source. */
    lemma WholeAnswer(a: Attempt, k: nat)
      requires Honest() && SenderIssued(c, 0, Chunks(c.chunkBytes, src), issued) && Serves(a, k) && !a.removed
      requires Whole(k)
      ensures DecodesCleanly(c, k, Flatten(a.pieces)) && Fetched(partial, a, k) == Some(src)
    {
      ServedIsWhole(a, k);
      BoundaryIsChunkStart(c, src, k);
      hide Parse, Flatten, ChunkStart, Ideal, OnlySender, SenderIssued;
    }

    /** Undisturbed, a request whose body is whole if it ends does not fail for good, and gets through if it can. */
    lemma UndisturbedAnswer(request: Request, k: nat, s: State)
      requires Honest() && Whole(k) && Undisturbed(request) && s != Cancelled && hash(src) == sha256
      requires SenderIssued(c, 0, Chunks(c.chunkBytes, src), issued)
      requires request.attempt.Response? && request.attempt.ends ==> Serves(request.attempt, k)
      ensures var a := request.attempt;
        && StateAfter(s, partial, a, k) != Cancelled
        && (Settles(partial, a, k) ==> StateAfter(s, partial, a, k) == Done)
        && (GetsThrough(a, k) ==> Settles(partial, a, k))
    {
      var a := request.attempt;
      if a.Response? && a.ends { WholeAnswer(a, k); }
      hide DecodesCleanly, Fetched, Whole, Ideal, OnlySender, SenderIssued, Chunks;
    }

    /** In a good run only a landed file ends the loop, and the good request lands one. */
    lemma GoodSettles(net: Network, i: nat, k: nat, s: State)
      requires Honest() && Ready(k)
      ensures FairRun(net) && s != Cancelled && Whole(k) ==>
        var a := net(i, k).attempt;
        && StateAfter(s, partial, a, k) != Cancelled
        && (Settles(partial, a, k) ==> StateAfter(s, partial, a, k) == Done)
        && (BringsAll(net, i) || GetsThrough(a, k) ==> Settles(partial, a, k))
    {
      if FairRun(net) && s != Cancelled && Whole(k) {
        BoundaryInRange(c, src, k);
        hide TotalChunksFor, Serves, Undisturbed, GetsThrough, Settles, StateAfter, Ready, Ideal, OnlySender;
        UndisturbedAnswer(net(i, k), k, s);
      }
    }

    /** In a steady run a request that does not settle the transfer leaves one whole chunk more than it met. */
    lemma SteadyAdvances(net: Network, i: nat, k: nat)
      requires Honest() && Ready(k)
      ensures SteadyRun(net) && Whole(k) && !GetsThrough(net(i, k).attempt, k) ==>
        k + 1 < Total() && k < Resumes(net(i, k).attempt, RestAfter(partial, net(i, k).attempt, k))
    {
      if SteadyRun(net) && Whole(k) {
        BoundaryInRange(c, src, k);
        assert Undisturbed(net(i, k));
        OneMore(net(i, k).attempt, k);
      }
    }

    lemma OneMore(a: Attempt, k: nat)
      requires c.Sized() && Whole(k)
      ensures BringsMore(a, k) && !a.removed ==> k < Resumes(a, RestAfter(partial, a, k))
    {
      hide Finishes, Body, WholeChunks;
      if BringsMore(a, k) && !a.removed {
        var rest := RestAfter(partial, a, k);
        assert |rest.value| >= k * c.chunkBytes + c.chunkBytes;
        MultipleBound(Resumes(a, rest) - k, c.chunkBytes);
      }
    }

    // ----- what does not go wrong, and what does -----

    /** Whether the peer can be reached makes no difference: a landed file ends as done, a refused one as failed. */
    lemma UndeliveredIsNoFailure(s: State, file: Option<Bytes>, a: Attempt, k: nat)
      requires a.Response? && !a.landing.telling.Throws? && !a.landing.afterwards.Cancels?
      requires Finishes(a, k)
      requires (LandsFile(Fetched(file, a, k), a.landing) || RejectsFile(Fetched(file, a, k), a.landing))
      ensures Settles(file, a, k) && StateAfter(s, file, a, k) == if Lands(file, a, k) then Done else Failed
    {
      hide Finishes, Fetched, Matches;
    }

    lemma {:induction false} OneLanding(net: Network, trace: seq<Round>)
      requires forall i: nat, k: nat :: i > 0 ==> net(i, k).attempt.NoResponse?
      requires trace != [] && LandsAt(net, 0, trace[0])
      ensures Landings(net, trace) == 1
      ensures |trace| > 1 ==> !LandsAt(net, |trace| - 1, trace[|trace| - 1])
    {
      hide Fetched, LandsFile;
      if |trace| > 1 {
        OneLanding(net, trace[..|trace| - 1]);
      } else {
        assert trace[..0] == [];
      }
    }

    /** Only the first request meets an answer, and it asks for the start: nothing strays. */
    lemma NothingStrays(net: Network, trace: seq<Round>)
      requires forall i: nat, k: nat :: i > 0 ==> net(i, k).attempt.NoResponse?
      requires trace != [] ==> trace[0].from == 0
      ensures NoneStrays(net, trace)
    {
      hide Written;
    }

    /**
     * A landing whose news cannot be built, sealed for a key of another kind, is fetched again from the start: when
     * the requests after that come to nothing the transfer ends as failed, with the file in the inbox.
     */
    method LandedYetFailed(net: Network) returns (ghost trace: seq<Round>)
      requires Honest() && state == Transferring && partial == None && landed == [] && origin == []
      requires Lands(None, net(0, 0).attempt, 0) && net(0, 0).attempt.landing.telling.Throws? && NeverCancelled(net)
      requires forall i: nat, k: nat :: i > 0 ==> net(i, k).attempt.NoResponse?
      modifies this`state, this`partial, this`origin, this`landed
      ensures state == Failed && landed == [src]
    {
      hide Honest, Lands, Landings, AllOffered, AllKept, NoneStrays, FairRun, SteadyRun, Distinguishes, Follows;
      trace := Run(net);
      OneLanding(net, trace);
      NothingStrays(net, trace);
      assert landed == [landed[0]] && landed[0] in landed;
    }

    /**
     * The partial file is removed before a request from past the first chunk, which then gets everything it asked
     * for: the rest of the file lands at its start, the size is short and the transfer fails.
     */
    method RemovedThenRefused(request: Request, k: nat)
      requires Honest() && SenderIssued(c, 0, Chunks(c.chunkBytes, src), issued) && Ready(k) && k > 0
      requires request.gap.removed && GetsThrough(request.attempt, k) && request.attempt.who == Quiet
      requires !request.attempt.removed && Smooth(request.attempt.landing)
      modifies this`state, this`partial, this`origin, this`landed
      ensures state == Failed && landed == old(landed)
    {
      var a := request.attempt;
      Pause(request.gap, k);
      ServedIsWhole(a, k);
      ShortOfTheSource(c, src, k, Flatten(a.pieces));
      hide Honest, Held, Straight, Received, DecodesCleanly, SenderIssued, Chunks, Parse, Flatten, Serves;
      var next, over, left := Attempt(a, k);
    }

    /** The third chunk arrives whole and the connection breaks. */
    ghost predicate BringsThird(a: Attempt)
      requires c.Sized() && 3 * c.chunkBytes <= |src|
    {
      && a.Response? && Flatten(a.pieces) == Encrypted(c, 2, Third()) && !a.ends && a.created
      && a.written >= c.chunkBytes && !a.removed && a.who == Quiet && a.cut
    }

    ghost function Third(): Bytes
      requires 3 * c.chunkBytes <= |src|
    {
      src[2 * c.chunkBytes..3 * c.chunkBytes]
    }

    /** The third chunk, and everything from the second on. */
    ghost function Shuffled(): Bytes
      requires 3 * c.chunkBytes <= |src|
    {
      Third() + src[c.chunkBytes..]
    }

    lemma ThirdIsLeft(a: Attempt)
      requires c.Sized() && Ideal(c.aead, issued) && SenderIssued(c, 0, Chunks(c.chunkBytes, src), issued)
      requires 3 * c.chunkBytes <= |src| && BringsThird(a)
      ensures Left(None, a, 2) == Some(Third()) && CutBack(Some(Third())) == Some(Third()) && Chunked(Third()) == 1
    {
      ThirdChunk(c, src, issued);
      DecodeUndoesEncode(c, 2, Third(), issued);
      hide Parse, Encrypted, Ideal, SenderIssued, Chunks, Flatten, WholeChunks, DecodesCleanly;
      OneWholeChunk(c.chunkBytes);
      assert Third()[..c.chunkBytes] == Third();
      assert Body(a, 2) == Third() && [] + Third() == Third();
    }

    lemma RestFromSecond(a: Attempt)
      requires Honest() && SenderIssued(c, 0, Chunks(c.chunkBytes, src), issued)
      requires 3 * c.chunkBytes <= |src| && Serves(a, 1) && !a.removed
      ensures DecodesCleanly(c, 1, Flatten(a.pieces)) && Fetched(Some(Third()), a, 1) == Some(Shuffled())
    {
      ServedIsWhole(a, 1);
      hide Parse, Flatten, Ideal, SenderIssued, Chunks, DecodesCleanly;
      assert (src[..c.chunkBytes] + Body(a, 1))[c.chunkBytes..] == Body(a, 1);
    }

    /**
     * Four chunks, the first two there: the file is removed, the third arrives and the connection breaks, and the
     * next request brings everything from the second on. What is there then has the size of the source, and it lands
     * if the digest does not tell it from the source.
     */
    method WrongFileLands(first: Request, second: Request)
      requires Honest() && SenderIssued(c, 0, Chunks(c.chunkBytes, src), issued) && Ready(2) && state == Transferring
      requires |src| == 4 * c.chunkBytes && hash(Shuffled()) == sha256
      requires first.gap == Gap(Expires, true) && BringsThird(first.attempt)
      requires second.gap == Gap(Quiet, false) && GetsThrough(second.attempt, 1) && Smooth(second.attempt.landing)
      requires second.attempt.who == Quiet && !second.attempt.removed
      modifies this`state, this`partial, this`origin, this`landed
      ensures landed == old(landed) + [Shuffled()] && |Shuffled()| == |src| && state == Done
    {
      hide Held, Straight, DecodesCleanly, SenderIssued, Ideal, OnlySender, Chunks, Parse, Flatten, Encrypted, Body;
      hide CutBack, Chunked, Left, Fetched, Shuffled, Third;
      Pause(first.gap, 2);
      ThirdIsLeft(first.attempt);
      RestFromSecond(second.attempt);
      ShuffledSize();
      var next, over, left := Attempt(first.attempt, 2);
      Pause(second.gap, next);
      next, over, left := Attempt(second.attempt, next);
    }

    lemma ShuffledSize()
      requires |src| == 4 * c.chunkBytes
      ensures |Shuffled()| == |src|
    {
    }
  }

  lemma OneWholeChunk(n: nat)
    requires 0 < n
    ensures WholeChunks(n, n) == 1
  {
    MultipleBound(WholeChunks(n, n) - 1, n);
  }

  lemma NoChunks(n: nat)
    requires 0 < n
    ensures Chunks(n, []) == []
  {
  }

  lemma SecondChunkOn(n: nat, src: Bytes)
    requires 0 < n && n < |src|
    ensures Chunks(n, src) == [src[..n]] + Chunks(n, src[n..])
  {
    ChunksSplit(n, src);
  }

  lemma ThirdOfAll(n: nat, src: Bytes)
    requires 0 < n && 3 * n <= |src|
    ensures |Chunks(n, src)| > 2 && Chunks(n, src)[2] == src[2 * n..3 * n]
  {
    SecondChunkOn(n, src);
    SecondChunkOn(n, src[n..]);
    ChunksSplit(n, src[n..][n..]);
    hide Chunks;
    assert src[n..][n..][..n] == src[2 * n..3 * n];
  }

  lemma ChunkAlone(n: nat, chunk: Bytes)
    requires 0 < n && |chunk| == n
    ensures Chunks(n, chunk) == [chunk] && Flatten([chunk]) == chunk
  {
    ChunksSplit(n, chunk);
    NoChunks(n);
    FlattenOne(chunk);
    hide Chunks, Flatten;
    assert chunk[..n] == chunk && chunk[n..] == [];
  }

  /** The third chunk was sealed in its own position. */
  lemma ThirdChunk(c: Channel, src: Bytes, issued: iset<Query>)
    requires c.Sized() && 3 * c.chunkBytes <= |src| && SenderIssued(c, 0, Chunks(c.chunkBytes, src), issued)
    ensures var third := src[2 * c.chunkBytes..3 * c.chunkBytes];
      Chunks(c.chunkBytes, third) == [third] && SenderIssued(c, 2, [third], issued) && Flatten([third]) == third
  {
    hide Chunks, ChunkQuery, Flatten;
    ThirdOfAll(c.chunkBytes, src);
    ChunkAlone(c.chunkBytes, src[2 * c.chunkBytes..3 * c.chunkBytes]);
    assert ChunkQuery(c, 0 + 2, Chunks(c.chunkBytes, src)[2]) in issued;
  }

  /** What completes the source from a chunk past the first is shorter than the source. */
  lemma ShortOfTheSource(c: Channel, src: Bytes, k: nat, w: Bytes)
    requires c.Sized() && 0 < k <= TotalChunksFor(|src|, c.chunkBytes) && Received(c, src, k, w) == src
    ensures |Flatten(Parse(c, k, w).plains)| < |src|
  {
    MultipleBound(k, c.chunkBytes);
  }

  /** The part of a slice that was written. */
  lemma SliceOf(src: Bytes, start: nat, len: nat, w: nat)
    requires start + len <= |src| && w <= len
    ensures src[start..start + len][..w] == src[start..start + w]
  {
  }

  lemma AppendedPrefix(src: Bytes, base: Bytes, b: Bytes, start: nat)
    requires base <= src && start + |b| <= |src| && b == src[start..start + |b|]
    requires (b != [] ==> |base| == start) && |base + b| == |src|
    ensures base + b == src
  {
  }

  /** What a body decrypts to, from chunk k on, is the source from the start of chunk k on. */
  lemma BodyIsSource(c: Channel, src: Bytes, k: nat, w: Bytes, issued: iset<Query>)
    requires c.Sized() && Ideal(c.aead, issued) && OnlySender(c, src, issued)
    ensures var b, start := Flatten(Parse(c, k, w).plains), ChunkStart(c.chunkBytes, |src|, k);
      start + |b| <= |src| && b == src[start..start + |b|] && (b != [] ==> start == k * c.chunkBytes)
  {
    hide Chunks, Parse, OnlySender, Ideal, Flatten;
    ReceivedIsPrefix(c, src, k, w, issued);
    var b, start := Flatten(Parse(c, k, w).plains), ChunkStart(c.chunkBytes, |src|, k);
    assert (src[..start] + b)[start..] == b;
  }

  /** The bytes before the boundary and the plaintext that the wire bytes decrypt to. */
  ghost function Received(c: Channel, src: Bytes, fromChunk: nat, w: Bytes): Bytes {
    src[..ChunkStart(c.chunkBytes, |src|, fromChunk)] + Flatten(Parse(c, fromChunk, w).plains)
  }

  /** `Math.floor(size / n)`. */
  function WholeChunks(size: nat, n: nat): (whole: nat)
    requires 0 < n
    ensures whole * n <= size < whole * n + n
  {
    assert size == size / n * n + size % n;
    size / n
  }

  lemma BoundaryIsChunkStart(c: Channel, src: Bytes, k: nat)
    ensures k * c.chunkBytes <= |src| ==> ChunkStart(c.chunkBytes, |src|, k) == k * c.chunkBytes
    ensures ChunkStart(c.chunkBytes, |src|, 0) == 0
  {
  }

  /** A boundary inside the file is at most the number of its chunks. */
  lemma BoundaryInRange(c: Channel, src: Bytes, k: nat)
    requires c.Sized() && (k == 0 || k * c.chunkBytes <= |src|)
    ensures k <= TotalChunksFor(|src|, c.chunkBytes)
  {
    var n, t := c.chunkBytes, TotalChunksFor(|src|, c.chunkBytes);
    if |src| > 0 {
      assert |src| + n - 1 == t * n + (|src| + n - 1) % n;
      MultipleBound(k - t, n);
      assert (k - t) * n == k * n - t * n;
    } else if k > 0 {
      MultipleBound(k, n);
    }
  }

  /** Whatever arrives, the partial file stays a prefix of the source. */
  lemma ReceivedIsPrefix(c: Channel, src: Bytes, fromChunk: nat, w: Bytes, issued: iset<Query>)
    requires c.Sized() && Ideal(c.aead, issued) && OnlySender(c, src, issued)
    ensures Received(c, src, fromChunk, w) <= src
  {
    hide Chunks, Flatten, ChunkStart, Parse, OnlySender, Ideal;
    var cs, plains := Chunks(c.chunkBytes, src), Parse(c, fromChunk, w).plains;
    HostileWire(c, fromChunk, w, src, issued);
    var upto := fromChunk + |plains|;
    if plains != [] {
      ChunkPrefix(c.chunkBytes, src, fromChunk);
      ChunkPrefix(c.chunkBytes, src, upto);
      assert cs[..upto] == cs[..fromChunk] + plains;
      FlattenAppend(cs[..fromChunk], plains);
    } else {
      NoPieces();
    }
  }
}
