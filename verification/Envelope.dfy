/** The signed envelope: what the signature covers, and when a message still verifies after transport. */
module Envelope {
  import opened Options
  import opened Text
  import opened CanonicalJson

  const VERSION := 2
  const MAX_MESSAGE_AGE_MS := 60000
  const MAX_CLOCK_AHEAD_MS := 5000

  /** The declared message types; some of them contain the separator. */
  predicate IsTypeName(t: string) {
    || t in {"ping", "pong", "discover", "discover:response", "auth:challenge", "auth:response", "auth:result"}
    || t in {"task:delegate", "task:result", "task:status", "memory:sync", "memory:search", "memory:results"}
    || t in {"session:sync", "tool:list", "tool:list:response", "tool:call", "tool:result"}
    || t in {"leader:heartbeat", "leader:claim", "leader:ack", "chat:message", "sealed", "sealed:direct"}
    || t in {"room:create", "room:join", "room:leave", "room:invite", "room:list", "room:list:response"}
    || t in {"room:info", "room:members", "room:error", "roster"}
    || t in {"relay:deliver", "relay:error", "relay:ack", "relay:pending"}
    || t in {"relay:connect-request", "relay:connect-accept", "relay:connect-deny"}
    || t in {"file:offer", "file:accept", "file:reject", "file:relay-ready", "file:done", "file:error", "file:cancel"}
    || t in {"relay:blob:create", "relay:blob:grant", "relay:blob:deny", "relay:blob:fetch", "relay:blob:done"}
  }

  datatype Stamp = At(ms: int) | NotANumber

  datatype Message = Message(
    version: int,
    id: Str,
    typ: Str,
    from: Str,
    to: Str,
    timestamp: Stamp,
    signature: Str,
    sigPq: Option<Str>,
    payload: Json)

  /** `${n}` for an integer below 10^21 in size. */
  function IntText(n: int): Str {
    if n < 0 then ['-' as int] + Decimal(-n) else Decimal(n)
  }

  function Join(a: Str, rest: Str): Str { a + [COLON] + rest }

  function PayloadText(payload: Json): Str {
    if payload.Undefined? || payload.Null? then [] else Canonical(payload)
  }

  /** The string that is signed. */
  function Canonicalize(id: Str, typ: Str, from: Str, to: Str, timestamp: int, payload: Json): Str {
    Join(Decimal(VERSION), Join(id, Join(typ, Join(from, Join(to, Join(IntText(timestamp), PayloadText(payload)))))))
  }

  // ----- the signed string determines what it was made from -----

  predicate IsHexId(s: Str) {
    |s| == 16 && forall u :: u in s ==> IsDigit(u) || 97 <= u < 103
  }

  predicate IsAddress(s: Str) { IsHexId(s) || s == U("*") }

  ghost predicate IsDeclaredType(s: Str) {
    exists t: string :: IsTypeName(t) && |t| == |s| && forall i :: 0 <= i < |t| ==> s[i] == t[i] as int
  }

  /** No sixteen units in a row are free of the separator, so an instance id never looks like part of it. */
  ghost predicate SeparatedOften(s: Str) {
    forall i, j :: 0 <= i && j == i + 16 && j <= |s| ==> COLON in s[i..j]
  }

  lemma DeclaredTypeSeparated(s: Str)
    requires IsDeclaredType(s)
    ensures SeparatedOften(s)
  {
    hide IsTypeName;
    var t :| IsTypeName(t) && |t| == |s| && forall i :: 0 <= i < |t| ==> s[i] == t[i] as int;
    TypeSeparator(t);
    if |t| >= 16 {
      var c :| |t| - 16 <= c < 16 && t[c] == ':';
      forall i, j | 0 <= i && j == i + 16 && j <= |s| ensures COLON in s[i..j] {
        assert s[i..j][c - i] == s[c];
      }
    }
  }

  /** Every long type has a separator that all of its windows of sixteen units contain. */
  lemma TypeSeparator(t: string)
    requires IsTypeName(t)
    ensures |t| < 16 || exists c :: |t| - 16 <= c < 16 && t[c] == ':'
  {
    if |t| >= 16 {
      assert t[4] == ':' || t[5] == ':' || t[6] == ':' || t[8] == ':';
    }
  }

  lemma SeparatorInWindow(s: Str, i: nat)
    requires SeparatedOften(s)
    ensures i + 16 <= |s| ==> exists c :: i <= c < i + 16 && s[c] == COLON
  {
    if i + 16 <= |s| {
      var j := i + 16;
      var w := s[i..j];
      assert COLON in w;
    }
  }

  lemma HexHasNoColon(h: Str)
    requires IsHexId(h)
    ensures COLON !in h
  {
  }

  /** A type may contain the separator; the instance id after it tells where the type ends. */
  lemma TypeNotLonger(a: Str, b: Str, h: Str, x: Str, y: Str)
    requires SeparatedOften(b) && IsHexId(h)
    requires Join(a, Join(h, x)) == b + [COLON] + y
    ensures |b| <= |a|
  {
    var s := Join(a, Join(h, x));
    HexHasNoColon(h);
    assert s[|b|] == COLON && s[|a| + 1..|a| + 17] == h;
    assert forall i :: |a| < i <= |a| + 16 ==> s[i] == h[i - |a| - 1];
    SeparatorInWindow(b, |a| + 1);
    assert forall i :: 0 <= i < |b| ==> s[i] == b[i];
  }

  lemma TypeDetermined(a: Str, b: Str, h: Str, g: Str, x: Str, y: Str)
    requires SeparatedOften(a) && SeparatedOften(b) && IsHexId(h) && IsHexId(g)
    requires Join(a, Join(h, x)) == Join(b, Join(g, y))
    ensures a == b && h == g && x == y
  {
    TypeNotLonger(a, b, h, x, Join(g, y));
    TypeNotLonger(b, a, g, y, Join(h, x));
    var s := Join(a, Join(h, x));
    assert a == s[..|a|] && b == s[..|a|];
    assert Join(h, x) == s[|a| + 1..] && Join(g, y) == s[|a| + 1..];
    HexHasNoColon(h);
    HexHasNoColon(g);
    SplitAtSeparator(h, g, x, y, COLON);
  }

  lemma IntTextPlain(n: int)
    ensures COLON !in IntText(n)
  {
    var ds := Decimal(if n < 0 then -n else n);
    assert forall i :: 0 <= i < |ds| ==> ds[i] < 58;
  }

  lemma IntTextInjective(m: int, n: int)
    requires IntText(m) == IntText(n)
    ensures m == n
  {
    var d: Digit, e: Digit := Decimal(if m < 0 then -m else m)[0], Decimal(if n < 0 then -n else n)[0];
    assert (m < 0 <==> IntText(m)[0] == '-' as int) && (n < 0 <==> IntText(n)[0] == '-' as int);
    if m < 0 {
      assert IntText(m)[1..] == Decimal(-m) && IntText(n)[1..] == Decimal(-n);
      DecimalInjective(-m, -n);
    } else {
      DecimalInjective(m, n);
    }
  }

  /** What the payload contributes to the signed string. */
  function PayloadMeaning(payload: Json): Option<Value> {
    if payload.Undefined? || payload.Null? then None else Some(Meaning(payload))
  }

  lemma PayloadTextIffMeaning(p: Json, q: Json)
    requires WellFormed(p) && WellFormed(q)
    ensures PayloadText(p) == PayloadText(q) <==> PayloadMeaning(p) == PayloadMeaning(q)
  {
    CanonicalIffMeaning(p, q);
    FirstUnit(p);
    FirstUnit(q);
  }

  /** The parts of an envelope as honest nodes form them. */
  ghost predicate EnvelopeParts(id: Str, typ: Str, from: Str, to: Str, payload: Json) {
    COLON !in id && IsDeclaredType(typ) && IsHexId(from) && IsAddress(to) && WellFormed(payload)
  }

  /** The signed string is equal exactly when every part of the envelope is. */
  lemma CanonicalizeInjective(
      id: Str, typ: Str, from: Str, to: Str, ts: int, p: Json,
      id': Str, typ': Str, from': Str, to': Str, ts': int, p': Json)
    requires EnvelopeParts(id, typ, from, to, p) && EnvelopeParts(id', typ', from', to', p')
    ensures Canonicalize(id, typ, from, to, ts, p) == Canonicalize(id', typ', from', to', ts', p') <==>
      id == id' && typ == typ' && from == from' && to == to' && ts == ts' && PayloadMeaning(p) == PayloadMeaning(p')
  {
    PayloadTextIffMeaning(p, p');
    if Canonicalize(id, typ, from, to, ts, p) == Canonicalize(id', typ', from', to', ts', p') {
      var a := Join(typ, Join(from, Join(to, Join(IntText(ts), PayloadText(p)))));
      var b := Join(typ', Join(from', Join(to', Join(IntText(ts'), PayloadText(p')))));
      SplitAtSeparator(Decimal(VERSION), Decimal(VERSION), Join(id, a), Join(id', b), COLON);
      SplitAtSeparator(id, id', a, b, COLON);
      DeclaredTypeSeparated(typ);
      DeclaredTypeSeparated(typ');
      TypeDetermined(typ, typ', from, from', Join(to, Join(IntText(ts), PayloadText(p))),
        Join(to', Join(IntText(ts'), PayloadText(p'))));
      AddressDetermined(to, to', ts, ts', PayloadText(p), PayloadText(p'));
    }
  }

  lemma AddressDetermined(to: Str, to': Str, ts: int, ts': int, x: Str, y: Str)
    requires IsAddress(to) && IsAddress(to')
    requires Join(to, Join(IntText(ts), x)) == Join(to', Join(IntText(ts'), y))
    ensures to == to' && ts == ts' && x == y
  {
    SplitAtSeparator(to, to', Join(IntText(ts), x), Join(IntText(ts'), y), COLON);
    IntTextPlain(ts);
    IntTextPlain(ts');
    SplitAtSeparator(IntText(ts), IntText(ts'), x, y, COLON);
    IntTextInjective(ts, ts');
  }

  // ----- signing and verifying -----

  /** A signing identity: the private half signs, the public half verifies. */
  datatype Key = Key(sign: Str -> Str, verify: (Str, Str) -> bool)

  /** A signature is not empty and verifies for the data it was made for and for nothing else. */
  ghost predicate Lawful(k: Key) {
    && (forall d: Str :: k.sign(d) != [])
    && (forall d: Str, e: Str :: k.verify(d, k.sign(e)) <==> d == e)
  }

  lemma LawfulKeyExists()
    ensures Lawful(Key((d: Str) => [0] + d, (d: Str, s: Str) => s == [0] + d))
  {
    forall d: Str, e: Str ensures [0] + d == [0] + e <==> d == e {
      assert ([0] + d)[1..] == d && ([0] + e)[1..] == e;
    }
  }

  /** `createMessage`, given the random id and the clock. */
  function Create(typ: Str, from: Str, to: Str, payload: Json, key: Key, pq: Option<Key>, id: Str, now: int): Message {
    var data := Canonicalize(id, typ, from, to, now, payload);
    var sigPq := if pq.Some? && pq.value.sign(data) != [] then Some(pq.value.sign(data)) else None;
    Message(VERSION, id, typ, from, to, At(now), key.sign(data), sigPq, payload)
  }

  datatype Verdict =
    | Valid | UnsupportedVersion | InvalidTimestamp | TooOld | FromTheFuture
    | InvalidSignature | MissingPqSignature | InvalidPqSignature

  function Verify(m: Message, key: Key, pq: Option<Key>, now: int): Verdict {
    if m.version != VERSION then UnsupportedVersion
    else if m.timestamp.NotANumber? then InvalidTimestamp
    else if now - m.timestamp.ms > MAX_MESSAGE_AGE_MS then TooOld
    else if now - m.timestamp.ms < -MAX_CLOCK_AHEAD_MS then FromTheFuture
    else
      var data := Canonicalize(m.id, m.typ, m.from, m.to, m.timestamp.ms, m.payload);
      if !key.verify(data, m.signature) then InvalidSignature
      else if pq.None? then Valid
      else if m.sigPq.None? || m.sigPq.value == [] then MissingPqSignature
      else if !pq.value.verify(data, m.sigPq.value) then InvalidPqSignature
      else Valid
  }

  /** `JSON.parse(serialize(m))`: only the payload can change on the wire. */
  function OverTheWire(m: Message): Message {
    m.(payload := if Unwritable(m.payload) then Undefined else Wire(m.payload))
  }

  /** `deserialize`, from the parsed message on. */
  function Deserialize(m: Message): Option<Message> {
    if m.version == 0 || m.typ == [] || m.from == [] || m.id == [] then None else Some(m)
  }

  /** What may be in a payload: nothing callable that is not an array item, and not NaN or an infinity by itself. */
  predicate Transportable(payload: Json) {
    NoCallableProperty(payload) && !payload.Callable? && !payload.NonFinite?
  }

  /** The signed payload text is unchanged by the wire exactly for a transportable payload. */
  lemma WirePayloadText(p: Json)
    requires WellFormed(p)
    ensures var q := if Unwritable(p) then Undefined else Wire(p);
      PayloadText(q) == PayloadText(p) <==> Transportable(p)
  {
    WireCanonical(p);
    FirstUnit(p);
  }

  /**
   * An honestly created message verifies after transport exactly when the receiver's clock is between
   * five seconds before and sixty seconds after its timestamp, its payload is transportable, and the
   * sender signed with every key the receiver holds.
   */
  lemma VerifiesAfterTransport(
      typ: Str, from: Str, to: Str, payload: Json, key: Key, senderPq: Option<Key>, receiverPq: Option<Key>,
      id: Str, sentAt: int, now: int)
    requires Lawful(key) && (senderPq.Some? ==> Lawful(senderPq.value))
    requires senderPq.Some? && receiverPq.Some? ==> receiverPq == senderPq
    requires typ != [] && from != [] && id != [] && WellFormed(payload)
    ensures var m := Create(typ, from, to, payload, key, senderPq, id, sentAt);
      var r := Deserialize(OverTheWire(m));
      r.Some? && (Verify(r.value, key, receiverPq, now).Valid? <==>
        && -MAX_CLOCK_AHEAD_MS <= now - sentAt <= MAX_MESSAGE_AGE_MS
        && Transportable(payload)
        && (receiverPq.Some? ==> senderPq.Some?))
  {
    var m := Create(typ, from, to, payload, key, senderPq, id, sentAt);
    var w := OverTheWire(m);
    WirePayloadText(payload);
    var data := Canonicalize(id, typ, from, to, sentAt, payload);
    var arrived := Canonicalize(id, typ, from, to, sentAt, w.payload);
    SamePrefix(id, typ, from, to, sentAt, payload, w.payload);
    assert key.verify(arrived, key.sign(data)) <==> arrived == data;
    hide Canonicalize, PayloadText, Transportable;
  }

  lemma SamePrefix(id: Str, typ: Str, from: Str, to: Str, ts: int, p: Json, q: Json)
    ensures Canonicalize(id, typ, from, to, ts, p) == Canonicalize(id, typ, from, to, ts, q) <==>
      PayloadText(p) == PayloadText(q)
  {
    forall a: Str, x: Str, y: Str ensures Join(a, x) == Join(a, y) <==> x == y {
      assert Join(a, x)[|a| + 1..] == x && Join(a, y)[|a| + 1..] == y;
    }
  }

  /** A NaN payload is signed as the text null and arrives as null, which signs as the empty text. */
  lemma NaNPayloadDoesNotVerify(typ: Str, from: Str, to: Str, key: Key, id: Str, now: int)
    requires Lawful(key) && typ != [] && from != [] && id != []
    ensures var m := Create(typ, from, to, NonFinite, key, None, id, now);
      Verify(OverTheWire(m), key, None, now) == InvalidSignature
  {
    VerifiesAfterTransport(typ, from, to, NonFinite, key, None, None, id, now, now);
  }

  /** The string a receiver checks the signatures of a message against. */
  function SignedText(m: Message): Str
    requires m.timestamp.At?
  {
    Canonicalize(m.id, m.typ, m.from, m.to, m.timestamp.ms, m.payload)
  }

  /** A message is valid exactly when version, clock and every signature the receiver holds a key for are right. */
  lemma ValidIff(m: Message, key: Key, held: Option<Key>, now: int)
    ensures Verify(m, key, held, now).Valid? <==>
      && m.version == 2 && m.timestamp.At? && -5000 <= now - m.timestamp.ms <= 60000
      && key.verify(SignedText(m), m.signature)
      && (held.Some? ==> m.sigPq.Some? && m.sigPq.value != [] && held.value.verify(SignedText(m), m.sigPq.value))
  {
    hide Canonicalize;
  }

  /** Up to the clock everything is in order. */
  predicate InWindow(m: Message, now: int) {
    m.version == 2 && m.timestamp.At? && -5000 <= now - m.timestamp.ms <= 60000
  }

  /** Which refusal it is: the version first, then the clock, then the signature, then the post-quantum one. */
  lemma WhyRefused(m: Message, key: Key, held: Option<Key>, now: int)
    ensures var v, dated := Verify(m, key, held, now), m.version == 2 && m.timestamp.At?;
      && (v == UnsupportedVersion <==> m.version != 2)
      && (v == InvalidTimestamp <==> m.version == 2 && m.timestamp.NotANumber?)
      && (v == TooOld <==> dated && now - m.timestamp.ms > 60000)
      && (v == FromTheFuture <==> dated && m.timestamp.ms - now > 5000)
      && (v == InvalidSignature <==> InWindow(m, now) && !key.verify(SignedText(m), m.signature))
    ensures InWindow(m, now) && key.verify(SignedText(m), m.signature) ==>
      var v := Verify(m, key, held, now);
      var signed := m.sigPq.Some? && m.sigPq.value != [];
      && (v == MissingPqSignature <==> held.Some? && !signed)
      && (v == InvalidPqSignature <==> held.Some? && signed && !held.value.verify(SignedText(m), m.sigPq.value))
  {
    hide Canonicalize;
  }

  /** A valid message with a key's signature on a text carries that text. */
  lemma SignatureCovers(m: Message, key: Key, held: Option<Key>, now: int, e: Str)
    requires Lawful(key) && m.signature == key.sign(e) && Verify(m, key, held, now).Valid?
    ensures e == SignedText(m)
  {
    hide Canonicalize;
    assert key.verify(SignedText(m), key.sign(e)) <==> SignedText(m) == e;
  }

  /** So does one with the post-quantum signature, whatever the other key is worth. */
  lemma PqSignatureCovers(m: Message, key: Key, held: Option<Key>, now: int, e: Str)
    requires held.Some? && Lawful(held.value) && m.sigPq == Some(held.value.sign(e)) && Verify(m, key, held, now).Valid?
    ensures e == SignedText(m)
  {
    hide Canonicalize;
    var pq := held.value;
    assert pq.verify(SignedText(m), pq.sign(e)) <==> SignedText(m) == e;
  }

  /** One of the two signatures is of a lawful key that made it for this text. */
  ghost predicate SignedBy(m: Message, key: Key, held: Option<Key>, text: Str) {
    || (Lawful(key) && m.signature == key.sign(text))
    || (held.Some? && Lawful(held.value) && m.sigPq == Some(held.value.sign(text)))
  }

  /** A message that carries somebody's signature, of either key, and verifies says what that somebody signed. */
  lemma VerifiedMeansUnaltered(
      typ: Str, from: Str, to: Str, payload: Json, id: Str, sentAt: int,
      m: Message, key: Key, held: Option<Key>, now: int)
    requires EnvelopeParts(id, typ, from, to, payload) && EnvelopeParts(m.id, m.typ, m.from, m.to, m.payload)
    requires SignedBy(m, key, held, Canonicalize(id, typ, from, to, sentAt, payload))
    requires Verify(m, key, held, now).Valid?
    ensures m.id == id && m.typ == typ && m.from == from && m.to == to && m.timestamp == At(sentAt)
    ensures PayloadMeaning(m.payload) == PayloadMeaning(payload)
  {
    hide Canonicalize, EnvelopeParts;
    var text := Canonicalize(id, typ, from, to, sentAt, payload);
    if Lawful(key) && m.signature == key.sign(text) {
      SignatureCovers(m, key, held, now, text);
    } else {
      PqSignatureCovers(m, key, held, now, text);
    }
    CanonicalizeInjective(m.id, m.typ, m.from, m.to, m.timestamp.ms, m.payload, id, typ, from, to, sentAt, payload);
  }

  /** What a message carries when it is created: both signatures are of its own text. */
  lemma CreatedIsSigned(
      typ: Str, from: Str, to: Str, payload: Json, key: Key, pq: Option<Key>, id: Str, now: int)
    requires pq.Some? ==> Lawful(pq.value)
    ensures var m := Create(typ, from, to, payload, key, pq, id, now);
      && m.timestamp == At(now) && m.signature == key.sign(SignedText(m))
      && m.sigPq == if pq.Some? then Some(pq.value.sign(SignedText(m))) else None
  {
    hide Canonicalize;
  }

  /** The parts in their order, with one separator between any two. */
  lemma SignedTextParts(id: Str, typ: Str, from: Str, to: Str, ts: int, payload: Json)
    ensures var c: Str := [':' as int];
      Canonicalize(id, typ, from, to, ts, payload) ==
        ['2' as int] + c + id + c + typ + c + from + c + to + c + IntText(ts) + c + PayloadText(payload)
  {
    assert Decimal(VERSION) == ['2' as int];
    hide PayloadText, IntText, Decimal;
    var c: Str := [':' as int];
    var j4 := Join(IntText(ts), PayloadText(payload));
    var j3 := Join(to, j4);
    var j2 := Join(from, j3);
    var j1 := Join(typ, j2);
    var x0 := ['2' as int] + c;
    var x1 := x0 + id + c;
    var x2 := x1 + typ + c;
    var x3 := x2 + from + c;
    assert Join(['2' as int], Join(id, j1)) == x0 + Join(id, j1);
    hide Join;
    JoinFlat(x0, id, j1);
    JoinFlat(x1, typ, j2);
    JoinFlat(x2, from, j3);
    JoinFlat(x3, to, j4);
    JoinFlat(x3 + to + c, IntText(ts), PayloadText(payload));
  }

  lemma JoinFlat(x: Str, a: Str, rest: Str)
    ensures x + Join(a, rest) == x + a + [COLON] + rest
  {
  }
}
