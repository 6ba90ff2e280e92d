/** Content-Length framing over stdio: the sender, and the parser's overlapping loops over one buffer. */
module StdioFraming {
  import opened Options
  import opened Text

  const TERMINATOR: Str := [13, 10, 13, 10]
  const NAME: Str := U("content-length:")

  /** Where the first blank line is; the length when there is none. */
  function HeaderEnd(s: Str): (i: nat)
    ensures i == |s| || (i + 4 <= |s| && s[i..i + 4] == TERMINATOR)
  {
    if s == [] then 0 else if TERMINATOR <= s then 0 else 1 + HeaderEnd(s[1..])
  }

  /** The first one: no blank line starts before it. */
  lemma {:induction false} HeaderEndIsFirst(s: Str, j: nat)
    requires j < HeaderEnd(s)
    ensures !(TERMINATOR <= s[j..])
  {
    if j > 0 {
      assert s[1..][j - 1..] == s[j..];
      HeaderEndIsFirst(s[1..], j - 1);
    } else {
      assert s[0..] == s;
    }
  }

  /** `i` flag: only ASCII letters fold onto ASCII letters. */
  function Fold(u: Unit): Unit { if 65 <= u <= 90 then u + 32 else u }

  /** `\s`. */
  predicate IsSpace(u: Unit) {
    || 9 <= u <= 13 || u == 32 || u == 0xA0 || u == 0x1680 || 0x2000 <= u <= 0x200A
    || u == 0x2028 || u == 0x2029 || u == 0x202F || u == 0x205F || u == 0x3000 || u == 0xFEFF
  }

  predicate NameAt(h: Str, p: nat) {
    p + |NAME| <= |h| && forall i :: 0 <= i < |NAME| ==> Fold(h[p + i]) == NAME[i]
  }

  function SpaceEnd(h: Str, i: nat): (j: nat)
    requires i <= |h|
    ensures i <= j <= |h| && (forall k :: i <= k < j ==> IsSpace(h[k])) && (j < |h| ==> !IsSpace(h[j]))
    decreases |h| - i
  {
    if i < |h| && IsSpace(h[i]) then SpaceEnd(h, i + 1) else i
  }

  function DigitsEnd(h: Str, i: nat): (j: nat)
    requires i <= |h|
    ensures i <= j <= |h| && (forall k :: i <= k < j ==> 48 <= h[k] < 58) && (j < |h| ==> !(48 <= h[j] < 58))
    decreases |h| - i
  {
    if i < |h| && 48 <= h[i] < 58 then DigitsEnd(h, i + 1) else i
  }

  /** The match of `Content-Length:\s*(\d+)` that starts at `p`, as a number. */
  function LengthAt(h: Str, p: nat): Option<nat> {
    if !NameAt(h, p) then None
    else
      var i := SpaceEnd(h, p + |NAME|);
      var j := DigitsEnd(h, i);
      if i < j then Some(DecimalValue(h[i..j])) else None
  }

  /** The leftmost match from `p` on. */
  function ContentLength(h: Str, p: nat): Option<nat>
    decreases |h| - p
  {
    if p >= |h| then None else if LengthAt(h, p).Some? then LengthAt(h, p) else ContentLength(h, p + 1)
  }

  /** The text of `h` from `p` to `j` is the name in any case, then spaces, then all the digits there are from `i`. */
  ghost predicate MatchesAt(h: Str, p: nat, i: nat, j: nat) {
    && p + |NAME| <= i < j <= |h|
    && (forall k :: 0 <= k < |NAME| ==> h[p + k] == NAME[k] || (97 <= NAME[k] <= 122 && h[p + k] == NAME[k] - 32))
    && (forall k :: p + |NAME| <= k < i ==> IsSpace(h[k]))
    && (forall k :: i <= k < j ==> 48 <= h[k] < 58)
    && (j < |h| ==> !(48 <= h[j] < 58))
  }

  ghost predicate NoneBefore(h: Str, p: nat) {
    forall q: nat, i: nat, j: nat :: q < p ==> !MatchesAt(h, q, i, j)
  }

  lemma MatchLength(h: Str, p: nat, i: nat, j: nat)
    requires MatchesAt(h, p, i, j)
    ensures LengthAt(h, p) == Some(DecimalValue(h[i..j]))
  {
    var space := SpaceEnd(h, p + |NAME|);
    assert !IsSpace(h[i]);
    hide SpaceEnd, DigitsEnd, DecimalValue;
    assert space == i;
    assert DigitsEnd(h, i) == j;
  }

  lemma LengthMatches(h: Str, p: nat) returns (i: nat, j: nat)
    requires LengthAt(h, p).Some?
    ensures MatchesAt(h, p, i, j) && LengthAt(h, p) == Some(DecimalValue(h[i..j]))
  {
    hide SpaceEnd, DigitsEnd, DecimalValue, IsSpace;
    i := SpaceEnd(h, p + |NAME|);
    j := DigitsEnd(h, i);
  }

  lemma NothingPastTheEnd(h: Str, p: nat)
    requires |h| <= p
    ensures LengthAt(h, p).None?
  {
  }

  /** The first position with a match, if there is one. */
  lemma {:induction false} Leftmost(h: Str, p: nat) returns (q: nat)
    ensures ContentLength(h, p).Some? ==> p <= q && LengthAt(h, q) == ContentLength(h, p)
    ensures ContentLength(h, p).Some? ==> forall r: nat :: p <= r < q ==> LengthAt(h, r).None?
    ensures ContentLength(h, p).None? ==> forall r: nat :: p <= r ==> LengthAt(h, r).None?
    decreases |h| - p
  {
    hide LengthAt;
    q := p;
    if p >= |h| {
      forall r: nat | p <= r ensures LengthAt(h, r).None? { NothingPastTheEnd(h, r); }
    } else if LengthAt(h, p).None? {
      q := Leftmost(h, p + 1);
    }
  }

  /** The length a header announces is that of its leftmost match. */
  lemma ContentLengthIff(h: Str, n: nat)
    ensures ContentLength(h, 0) == Some(n) <==>
      exists p: nat, i: nat, j: nat :: MatchesAt(h, p, i, j) && DecimalValue(h[i..j]) == n && NoneBefore(h, p)
  {
    hide LengthAt, ContentLength, NoneBefore, Fold, IsSpace, DecimalValue;
    var q := Leftmost(h, 0);
    if ContentLength(h, 0) == Some(n) {
      var i, j := LengthMatches(h, q);
      NoMatchesBefore(h, q);
      assert MatchesAt(h, q, i, j) && DecimalValue(h[i..j]) == n && NoneBefore(h, q);
    }
    if p: nat, i: nat, j: nat :| MatchesAt(h, p, i, j) && DecimalValue(h[i..j]) == n && NoneBefore(h, p) {
      MatchLength(h, p, i, j);
      NoMatchesBefore(h, p);
    }
  }

  lemma NoMatchesBefore(h: Str, p: nat)
    ensures NoneBefore(h, p) <==> forall q: nat :: q < p ==> LengthAt(h, q).None?
  {
    hide LengthAt, MatchesAt;
    forall q: nat, i: nat, j: nat | q < p && MatchesAt(h, q, i, j) ensures LengthAt(h, q).Some? {
      MatchLength(h, q, i, j);
    }
    forall q: nat | q < p && LengthAt(h, q).Some? ensures exists i: nat, j: nat :: MatchesAt(h, q, i, j) {
      var i, j := LengthMatches(h, q);
    }
  }

  datatype Step =
    | Wait                          // the header or the body is not all there
    | Skip(rest: Str)               // a header without a length
    | Cut(body: Str, rest: Str)

  /** One round of the parser's loop. */
  function Next(buffer: Str): (r: Step)
    ensures !r.Wait? ==> |r.rest| < |buffer|
  {
    var end := HeaderEnd(buffer);
    if end == |buffer| then Wait
    else
      var length := ContentLength(buffer[..end], 0);
      var start := end + 4;
      if length.None? then Skip(buffer[start..])
      else if |buffer| < start + length.value then Wait
      else Cut(buffer[start..start + length.value], buffer[start + length.value..])
  }

  datatype Parsed = Parsed(bodies: seq<Str>, rest: Str)

  /** All of a text at once: the bodies in it, and what is left waiting for more. */
  function Parse(s: Str): Parsed
    decreases |s|
  {
    match Next(s)
    case Wait => Parsed([], s)
    case Skip(rest) => Parse(rest)
    case Cut(body, rest) => Parsed([body] + Parse(rest).bodies, Parse(rest).rest)
  }

  // ----- more text never changes what was already decided -----

  lemma {:induction false} HeaderEndStays(s: Str, t: Str)
    requires HeaderEnd(s) < |s|
    ensures HeaderEnd(s + t) == HeaderEnd(s)
  {
    if TERMINATOR <= s {
      assert TERMINATOR <= s + t;
    } else {
      var i := HeaderEnd(s);
      assert (s + t)[1..] == s[1..] + t;
      HeaderEndStays(s[1..], t);
      assert !(TERMINATOR <= s + t) by {
        assert |s| >= 4;
        assert (s + t)[..4] == s[..4];
      }
    }
  }

  lemma SliceStays(s: Str, t: Str, i: nat, j: nat)
    requires i <= j <= |s|
    ensures (s + t)[i..j] == s[i..j] && (s + t)[..j] == s[..j] && (s + t)[j..] == s[j..] + t
  {
  }

  lemma NextStays(s: Str, t: Str)
    requires !Next(s).Wait?
    ensures Next(s + t) == Next(s).(rest := Next(s).rest + t)
  {
    HeaderEndStays(s, t);
    hide HeaderEnd, ContentLength;
    var end := HeaderEnd(s);
    assert HeaderEnd(s + t) == end && (s + t)[..end] == s[..end];
    var length := ContentLength(s[..end], 0);
    assert ContentLength((s + t)[..end], 0) == length;
    if length.None? {
      assert Next(s + t) == Skip((s + t)[end + 4..]);
      SliceStays(s, t, 0, end + 4);
    } else {
      var stop := end + 4 + length.value;
      assert Next(s + t) == Cut((s + t)[end + 4..stop], (s + t)[stop..]);
      SliceStays(s, t, end + 4, stop);
    }
  }

  lemma {:induction false} ParseAppend(s: Str, t: Str)
    ensures Parse(s + t) == Parsed(Parse(s).bodies + Parse(Parse(s).rest + t).bodies, Parse(Parse(s).rest + t).rest)
    decreases |s|
  {
    hide Next;
    match Next(s)
    case Wait =>
    case Skip(rest) =>
      NextStays(s, t);
      ParseAppend(rest, t);
    case Cut(body, rest) =>
      NextStays(s, t);
      ParseAppend(rest, t);
      var tail := Parse(rest).bodies;
      var more := Parse(Parse(rest).rest + t).bodies;
      assert ([body] + tail) + more == [body] + (tail + more);
  }

  // ----- the sender -----

  predicate IsSurrogatePair(s: Str) {
    |s| >= 2 && 0xD800 <= s[0] < 0xDC00 <= s[1] < 0xE000
  }

  /** `Buffer.byteLength`: the size in UTF-8; a lone surrogate becomes U+FFFD. */
  function ByteLength(s: Str): nat {
    if s == [] then 0
    else if IsSurrogatePair(s) then 4 + ByteLength(s[2..])
    else (if s[0] < 0x80 then 1 else if s[0] < 0x800 then 2 else 3) + ByteLength(s[1..])
  }

  predicate Ascii(s: Str) {
    forall u :: u in s ==> u < 0x80
  }

  lemma AsciiCons(s: Str)
    requires s != []
    ensures Ascii(s) <==> s[0] < 0x80 && Ascii(s[1..])
  {
    assert s[0] in s && forall u :: u in s[1..] ==> u in s;
    assert forall u :: u in s ==> u == s[0] || u in s[1..];
  }

  lemma {:induction false} ByteLengthIsLengthIffAscii(s: Str)
    ensures ByteLength(s) >= |s|
    ensures ByteLength(s) == |s| <==> Ascii(s)
  {
    if s != [] {
      if IsSurrogatePair(s) {
        ByteLengthIsLengthIffAscii(s[2..]);
        assert s[0] in s;
      } else {
        ByteLengthIsLengthIffAscii(s[1..]);
        AsciiCons(s);
      }
    }
  }

  function Header(n: nat): Str { U("Content-Length: ") + Decimal(n) }

  function Frame(json: Str): Str { Header(ByteLength(json)) + TERMINATOR + json }

  function Wire(ms: seq<Str>): Str {
    if ms == [] then [] else Frame(ms[0]) + Wire(ms[1..])
  }

  lemma {:induction false} FirstTerminator(h: Str, x: Str)
    requires 13 !in h
    ensures HeaderEnd(h + TERMINATOR + x) == |h|
  {
    var s := h + TERMINATOR + x;
    if h == [] {
      assert TERMINATOR <= s;
    } else {
      assert s[0] == h[0] && s[1..] == h[1..] + TERMINATOR + x;
      assert !(TERMINATOR <= s);
      FirstTerminator(h[1..], x);
    }
  }

  lemma {:induction false} DigitsRun(h: Str, i: nat)
    requires i <= |h| && forall k :: i <= k < |h| ==> 48 <= h[k] < 58
    ensures DigitsEnd(h, i) == |h|
    decreases |h| - i
  {
    if i < |h| { DigitsRun(h, i + 1); }
  }

  /** The sender's header is read back as the length it was made with. */
  lemma HeaderRoundTrip(n: nat)
    ensures 13 !in Header(n) && ContentLength(Header(n), 0) == Some(n)
  {
    var h, d := Header(n), Decimal(n);
    assert NameAt(h, 0) && h[15] == 32 && |NAME| == 15;
    assert h[16..] == d;
    assert forall k :: 16 <= k < |h| ==> h[k] == d[k - 16];
    assert SpaceEnd(h, 15) == 16;
    DigitsRun(h, 16);
    DecimalRoundTrip(n);
    assert h[16..|h|] == d;
  }

  /** A header that announces `n` units cuts them off what follows it. */
  lemma NextAfterHeader(h: Str, n: nat, x: Str)
    requires 13 !in h && ContentLength(h, 0) == Some(n)
    ensures Next(h + TERMINATOR + x) == if |x| < n then Wait else Cut(x[..n], x[n..])
  {
    var s, start := h + TERMINATOR + x, |h| + 4;
    FirstTerminator(h, x);
    hide HeaderEnd, ContentLength;
    assert s[..|h|] == h;
    if |x| >= n {
      assert s[start..start + n] == x[..n];
      assert s[start + n..] == x[n..];
    }
  }

  /** What the parser makes of one frame: the message, exactly when it is all ASCII. */
  lemma NextOfFrame(m: Str, t: Str)
    ensures Ascii(m) ==> Next(Frame(m) + t) == Cut(m, t)
    ensures !Ascii(m) ==> !Next(Frame(m) + t).Skip? && (Next(Frame(m) + t).Cut? ==> |Next(Frame(m) + t).body| > |m|)
  {
    hide Next, ContentLength, Header, ByteLength, Ascii;
    var n := ByteLength(m);
    HeaderRoundTrip(n);
    ByteLengthIsLengthIffAscii(m);
    NextAfterHeader(Header(n), n, m + t);
    assert Frame(m) + t == Header(n) + TERMINATOR + (m + t);
    assert (m + t)[..|m|] == m && (m + t)[|m|..] == t;
  }

  /** The whole stream comes back as the messages that were sent, if and only if every one is ASCII. */
  lemma {:induction false} SentIsParsedIffAscii(ms: seq<Str>)
    ensures Parse(Wire(ms)) == Parsed(ms, []) <==> forall m :: m in ms ==> Ascii(m)
    ensures Parse(Wire(ms)).bodies == ms <==> forall m :: m in ms ==> Ascii(m)
  {
    hide Next, Ascii, Frame;
    if ms == [] {
      NothingToParse();
    } else {
      SentIsParsedIffAscii(ms[1..]);
      NextOfFrame(ms[0], Wire(ms[1..]));
      assert ms == [ms[0]] + ms[1..];
      var p := Parse(Wire(ms));
      if Ascii(ms[0]) {
        assert p.bodies[1..] == Parse(Wire(ms[1..])).bodies;
      } else {
        assert p.bodies != [] ==> |p.bodies[0]| > |ms[0]|;
      }
    }
  }

  lemma NothingToParse()
    ensures Parse([]) == Parsed([], [])
  {
  }

  // ----- the parser -----

  /** Bodies that parse as JSON; the others are dropped. */
  function Readable(bodies: seq<Str>, parses: Str -> bool): seq<Str> {
    if bodies == [] then [] else (if parses(bodies[0]) then [bodies[0]] else []) + Readable(bodies[1..], parses)
  }

  lemma {:induction false} ReadableAppend(a: seq<Str>, b: seq<Str>, parses: Str -> bool)
    ensures Readable(a + b, parses) == Readable(a, parses) + Readable(b, parses)
  {
    if a == [] {
      assert a + b == b;
    } else {
      assert (a + b)[1..] == a[1..] + b;
      ReadableAppend(a[1..], b, parses);
      var first := if parses(a[0]) then [a[0]] else [];
      var x, y := Readable(a[1..], parses), Readable(b, parses);
      assert first + (x + y) == first + x + y;
    }
  }

  lemma {:induction false} AllReadable(bodies: seq<Str>, parses: Str -> bool)
    requires forall b :: b in bodies ==> parses(b)
    ensures Readable(bodies, parses) == bodies
  {
    if bodies != [] { AllReadable(bodies[1..], parses); }
  }

  lemma ParseUnfolds(s: Str, cut: seq<Str>)
    ensures Next(s).Skip? ==> Parse(s) == Parse(Next(s).rest) && |Next(s).rest| < |s|
    ensures Next(s).Cut? ==> |Next(s).rest| < |s| && Parse(s).rest == Parse(Next(s).rest).rest
    ensures Next(s).Cut? ==> cut + Parse(s).bodies == cut + [Next(s).body] + Parse(Next(s).rest).bodies
  {
    hide Next;
    if Next(s).Cut? {
      var more := Parse(Next(s).rest).bodies;
      assert cut + ([Next(s).body] + more) == cut + [Next(s).body] + more;
    }
  }

  lemma NothingToCut()
    ensures Next([]) == Wait
  {
  }

  class StdioTransport {
    /** `JSON.parse` does not throw. */
    const parses: Str -> bool
    var buffer: Str
    /** Messages given to `handleMessage`, in order. */
    var dispatched: seq<Str>
    /** Loops of `processBuffer` that wait for their handler. */
    var suspended: nat
    ghost var fed: Str
    ghost var cut: seq<Str>

    /**
     * What was cut and what is still in the buffer are together what the whole text parses to; with no
     * loop suspended there is nothing left to cut.
     */
    ghost predicate Valid()
      reads this
    {
      && Parse(fed) == Parsed(cut + Parse(buffer).bodies, Parse(buffer).rest)
      && dispatched == Readable(cut, parses)
      && (suspended == 0 ==> Next(buffer).Wait?)
    }

    constructor (parses: Str -> bool)
      ensures Valid() && fed == [] && dispatched == [] && suspended == 0 && this.parses == parses
    {
      NothingToParse();
      this.parses := parses;
      buffer, dispatched, suspended, fed, cut := [], [], 0, [], [];
    }

    /** A `data` event: the chunk joins the buffer and another loop starts, whatever loops are suspended. */
    method Data(chunk: Str)
      requires Valid()
      modifies this
      ensures Valid() && fed == old(fed) + chunk && old(dispatched) <= dispatched
      ensures suspended == old(suspended) || suspended == old(suspended) + 1
    {
      ParseAppend(fed, chunk);
      ParseAppend(buffer, chunk);
      hide Parse, Next, Readable;
      ghost var rest := Parse(Parse(buffer).rest + chunk);
      assert cut + Parse(buffer).bodies + rest.bodies == cut + (Parse(buffer).bodies + rest.bodies);
      fed := fed + chunk;
      buffer := buffer + chunk;
      Segment();
    }

    /** A handler finished and its loop goes on with the buffer as it is now. */
    method Resume()
      requires Valid() && suspended > 0
      modifies this
      ensures Valid() && fed == old(fed) && old(dispatched) <= dispatched
      ensures suspended == old(suspended) || suspended == old(suspended) - 1
    {
      suspended := suspended - 1;
      Segment();
    }

    /** One loop from its start, or from where it waited, to its end or to its next wait. */
    method Segment()
      requires Parse(fed) == Parsed(cut + Parse(buffer).bodies, Parse(buffer).rest)
      requires dispatched == Readable(cut, parses)
      modifies this
      ensures Valid() && fed == old(fed) && old(dispatched) <= dispatched
      ensures suspended == old(suspended) || suspended == old(suspended) + 1
    {
      hide Next, Readable, Parse;
      NothingToCut();
      while |buffer| > 0
        invariant fed == old(fed) && suspended == old(suspended) && old(dispatched) <= dispatched
        invariant Parse(fed) == Parsed(cut + Parse(buffer).bodies, Parse(buffer).rest)
        invariant dispatched == Readable(cut, parses)
        decreases |buffer|
      {
        ParseUnfolds(buffer, cut);
        hide Next, Readable, Parse;
        match Next(buffer) {
          case Wait =>
            return;
          case Skip(rest) =>
            buffer := rest;
          case Cut(body, rest) =>
            OneMoreReadable(body);
            cut := cut + [body];
            buffer := rest;
            if parses(body) {
              dispatched := dispatched + [body];
              suspended := suspended + 1;
              return;
            }
        }
      }
    }

    lemma OneMoreReadable(body: Str)
      ensures Readable(cut + [body], parses) == Readable(cut, parses) + if parses(body) then [body] else []
    {
      assert [body][1..] == [];
      ReadableAppend(cut, [body], parses);
    }

    /** However the text was split and the loops overlapped, the dispatched messages are those of the whole text. */
    lemma SplittingDoesNotMatter()
      requires Valid()
      ensures dispatched <= Readable(Parse(fed).bodies, parses)
      ensures suspended == 0 ==> dispatched == Readable(Parse(fed).bodies, parses) && buffer == Parse(fed).rest
    {
      ReadableAppend(cut, Parse(buffer).bodies, parses);
      hide Next, Readable;
      if suspended == 0 { assert Parse(buffer) == Parsed([], buffer) && cut + [] == cut; }
    }

    /** ASCII messages are dispatched as they were sent, in wire order, and all of them once the loops are done. */
    lemma DispatchesWhatWasSent(ms: seq<Str>)
      requires Valid() && fed == Wire(ms) && forall m :: m in ms ==> Ascii(m) && parses(m)
      ensures dispatched <= ms
      ensures suspended == 0 ==> dispatched == ms && buffer == []
    {
      SplittingDoesNotMatter();
      SentIsParsedIffAscii(ms);
      AllReadable(ms, parses);
    }
  }
}
