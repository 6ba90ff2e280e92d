/**
 * The canonical text that gets signed: JSON with the keys sorted at every level.
 * A decoder that never sees the value recovers its meaning from that text, so the text is shared
 * by exactly the values that mean the same.
 */
module CanonicalJson {
  import opened Text

  /** A payload as JavaScript holds it; the fields of an object are in the order of `Object.keys`. */
  datatype Json =
    | Undefined
    | Null
    | Bool(b: bool)
    | Number(text: Str)   // a finite number, by the text `JSON.stringify` prints
    | NonFinite           // NaN and the infinities
    | Callable            // a function or a symbol
    | String(s: Str)
    | Array(items: seq<Json>)
    | Object(fields: seq<Field>)
  datatype Field = Field(key: Str, value: Json)

  /** What a payload means: objects are unordered, undefined properties are absent. */
  datatype Value =
    | VNull
    | VBool(b: bool)
    | VNumber(text: Str)
    | VString(s: Str)
    | VArray(items: seq<Value>)
    | VObject(members: map<Str, Value>)

  const QUOTE: Unit := '"' as int
  const BACKSLASH: Unit := '\\' as int
  const COMMA: Unit := ',' as int
  const COLON: Unit := ':' as int
  const OPEN_ARRAY: Unit := '[' as int
  const CLOSE_ARRAY: Unit := ']' as int
  const OPEN_OBJECT: Unit := '{' as int
  const CLOSE_OBJECT: Unit := '}' as int

  predicate IsDigit(u: Unit) { 48 <= u < 58 }

  predicate IsNumberUnit(u: Unit) {
    IsDigit(u) || u == '-' as int || u == '+' as int || u == '.' as int || u == 'e' as int || u == 'E' as int
  }

  predicate IsNumberText(s: Str) {
    s != [] && (IsDigit(s[0]) || s[0] == '-' as int) && forall u :: u in s ==> IsNumberUnit(u)
  }

  function Keys(fs: seq<Field>): (ks: seq<Str>)
    ensures |ks| == |fs| && forall i :: 0 <= i < |fs| ==> ks[i] == fs[i].key
  {
    seq(|fs|, i requires 0 <= i < |fs| => fs[i].key)
  }

  predicate Distinct(ks: seq<Str>) {
    forall i, j :: 0 <= i < j < |ks| ==> ks[i] != ks[j]
  }

  predicate WellFormed(v: Json) {
    match v
    case Number(t) => IsNumberText(t)
    case Array(xs) => forall i :: 0 <= i < |xs| ==> WellFormed(xs[i])
    case Object(fs) => Distinct(Keys(fs)) && forall i :: 0 <= i < |fs| ==> WellFormed(fs[i].value)
    case _ => true
  }

  function Find(ks: seq<Str>, k: Str): (i: nat)
    requires k in ks
    ensures i < |ks| && ks[i] == k
  {
    if ks[0] == k then 0 else 1 + Find(ks[1..], k)
  }

  /** `obj[k]`. */
  function Lookup(fs: seq<Field>, k: Str): (v: Json)
    requires k in Keys(fs)
  {
    fs[Find(Keys(fs), k)].value
  }

  // ----- the printer -----

  function Insert(k: Str, ks: seq<Str>): seq<Str> {
    if ks == [] || Less(k, ks[0]) then [k] + ks else [ks[0]] + Insert(k, ks[1..])
  }

  /** `Array.prototype.sort` on strings. */
  function Sort(ks: seq<Str>): seq<Str> {
    if ks == [] then [] else Insert(ks[0], Sort(ks[1..]))
  }

  /** The keys whose value is not undefined. */
  function Defined(fs: seq<Field>, ks: seq<Str>): (r: seq<Str>)
    requires forall k :: k in ks ==> k in Keys(fs)
    ensures forall k :: k in r <==> k in ks && !Lookup(fs, k).Undefined?
  {
    if ks == [] then []
    else if Lookup(fs, ks[0]).Undefined? then Defined(fs, ks[1..])
    else [ks[0]] + Defined(fs, ks[1..])
  }

  function HexDigit(n: nat): Unit
    requires n < 16
  {
    if n < 10 then 48 + n else 87 + n
  }

  function Hex4(u: Unit): Str {
    [HexDigit(u / 4096), HexDigit(u / 256 % 16), HexDigit(u / 16 % 16), HexDigit(u % 16)]
  }

  predicate IsLead(u: Unit) { 0xD800 <= u < 0xDC00 }
  predicate IsTrail(u: Unit) { 0xDC00 <= u < 0xE000 }

  function Escape(u: Unit): Str {
    if u == 8 then U("\\b")
    else if u == 9 then U("\\t")
    else if u == 10 then U("\\n")
    else if u == 12 then U("\\f")
    else if u == 13 then U("\\r")
    else if u == QUOTE || u == BACKSLASH then [BACKSLASH, u]
    else if u < 32 || IsLead(u) || IsTrail(u) then U("\\u") + Hex4(u)
    else [u]
  }

  /** The inside of a quoted string; a surrogate pair is kept, a lone surrogate is escaped. */
  function QuotedBody(s: Str): Str {
    if s == [] then []
    else if IsLead(s[0]) && |s| > 1 && IsTrail(s[1]) then s[..2] + QuotedBody(s[2..])
    else Escape(s[0]) + QuotedBody(s[1..])
  }

  /** `JSON.stringify` of a string. */
  function Quote(s: Str): Str { [QUOTE] + QuotedBody(s) + [QUOTE] }

  function Canonical(v: Json): Str
    decreases v, 1, 0
  {
    match v
    case Undefined => U("null")
    case Null => U("null")
    case NonFinite => U("null")
    case Callable => U("null")
    case Bool(b) => if b then U("true") else U("false")
    case Number(t) => t
    case String(s) => Quote(s)
    case Array(xs) => [OPEN_ARRAY] + Items(xs) + [CLOSE_ARRAY]
    case Object(fs) => SortKeeps(Keys(fs)); [OPEN_OBJECT] + Members(fs, Defined(fs, Sort(Keys(fs)))) + [CLOSE_OBJECT]
  }

  function Items(xs: seq<Json>): Str
    decreases xs, 0, 0
  {
    if xs == [] then []
    else if |xs| == 1 then Canonical(xs[0])
    else Canonical(xs[0]) + [COMMA] + Items(xs[1..])
  }

  function Members(fs: seq<Field>, ks: seq<Str>): Str
    requires forall k :: k in ks ==> k in Keys(fs)
    decreases fs, 0, |ks|
  {
    if ks == [] then []
    else
      var member := Quote(ks[0]) + [COLON] + Canonical(Lookup(fs, ks[0]));
      if |ks| == 1 then member else member + [COMMA] + Members(fs, ks[1..])
  }

  lemma {:induction false} InsertKeeps(k: Str, ks: seq<Str>)
    ensures multiset(Insert(k, ks)) == multiset(ks) + multiset{k}
  {
    if ks != [] && !Less(k, ks[0]) {
      InsertKeeps(k, ks[1..]);
      assert ks == [ks[0]] + ks[1..];
    }
  }

  lemma {:induction false} SortKeeps(ks: seq<Str>)
    ensures multiset(Sort(ks)) == multiset(ks)
    ensures forall k :: k in Sort(ks) <==> k in ks
  {
    if ks != [] {
      SortKeeps(ks[1..]);
      InsertKeeps(ks[0], Sort(ks[1..]));
      assert ks == [ks[0]] + ks[1..];
    }
    forall k ensures k in Sort(ks) <==> k in ks {
      assert k in multiset(Sort(ks)) <==> k in multiset(ks);
    }
  }

  // ----- the meaning -----

  function Meaning(v: Json): Value {
    match v
    case Bool(b) => VBool(b)
    case Number(t) => VNumber(t)
    case String(s) => VString(s)
    case Array(xs) => VArray(seq(|xs|, i requires 0 <= i < |xs| => Meaning(xs[i])))
    case Object(fs) => VObject(map k | k in Keys(fs) && !Lookup(fs, k).Undefined? :: Meaning(Lookup(fs, k)))
    case _ => VNull
  }

  // ----- a decoder of the canonical text -----

  datatype Parsed<T> = Fail | Ok(value: T, rest: Str)

  predicate IsHexDigit(u: Unit) { IsDigit(u) || 97 <= u < 103 }

  function HexValue(u: Unit): nat {
    if IsDigit(u) then u - 48 else if 97 <= u < 103 then u - 87 else 0
  }

  /** The letters of the short escapes and the units they stand for. */
  const SHORT: seq<(char, Unit)> :=
    [('b', 8), ('t', 9), ('n', 10), ('f', 12), ('r', 13), ('"', QUOTE), ('\\', BACKSLASH)]

  function ParseShort(u: Unit, i: nat): (r: seq<Unit>)
    requires i <= |SHORT|
    ensures |r| <= 1
    decreases |SHORT| - i
  {
    if i == |SHORT| then [] else if SHORT[i].0 as int == u then [SHORT[i].1] else ParseShort(u, i + 1)
  }

  /** The units that have no other spelling than four hexadecimal digits. */
  predicate NeedsHex(u: Unit) {
    (u < 32 && u !in {8, 9, 10, 12, 13}) || IsLead(u) || IsTrail(u)
  }

  /** Reads one unit of a quoted string, in the one spelling that `JSON.stringify` has for it. */
  function ParseUnit(t: Str): (p: Parsed<Unit>)
    ensures p.Ok? ==> |p.rest| < |t|
  {
    if t == [] then Fail
    else if t[0] != BACKSLASH then (if t[0] < 32 then Fail else Ok(t[0], t[1..]))
    else if |t| < 2 then Fail
    else if t[1] != 'u' as int then (var r := ParseShort(t[1], 0); if r == [] then Fail else Ok(r[0], t[2..]))
    else if |t| < 6 || !(IsHexDigit(t[2]) && IsHexDigit(t[3]) && IsHexDigit(t[4]) && IsHexDigit(t[5])) then Fail
    else
      var u := HexValue(t[2]) * 4096 + HexValue(t[3]) * 256 + HexValue(t[4]) * 16 + HexValue(t[5]);
      if NeedsHex(u) then Ok(u, t[6..]) else Fail
  }

  /** Reads up to and over the closing quote. */
  function ParseBody(t: Str): (p: Parsed<Str>)
    ensures p.Ok? ==> |p.rest| < |t|
  {
    if t != [] && t[0] == QUOTE then Ok([], t[1..])
    else
      var u := ParseUnit(t);
      if u.Fail? then Fail
      else
        var p := ParseBody(u.rest);
        if p.Fail? then Fail else Ok([u.value] + p.value, p.rest)
  }

  function NumberRun(t: Str): (r: Str)
    ensures |r| <= |t| && r == t[..|r|]
  {
    if t != [] && IsNumberUnit(t[0]) then [t[0]] + NumberRun(t[1..]) else []
  }

  /** A value that is neither an array nor an object. */
  function ParseScalar(t: Str): (p: Parsed<Value>)
    ensures p.Ok? ==> |p.rest| < |t|
  {
    if t == [] then Fail
    else if U("null") <= t then Ok(VNull, t[4..])
    else if U("true") <= t then Ok(VBool(true), t[4..])
    else if U("false") <= t then Ok(VBool(false), t[5..])
    else if t[0] == QUOTE then
      var p := ParseBody(t[1..]);
      if p.Fail? then Fail else Ok(VString(p.value), p.rest)
    else if IsNumberUnit(t[0]) then Ok(VNumber(NumberRun(t)), t[|NumberRun(t)|..])
    else Fail
  }

  function ParseValue(t: Str): (p: Parsed<Value>)
    ensures p.Ok? ==> |p.rest| < |t|
    decreases |t|, 0
  {
    if t == [] then Fail
    else if t[0] == OPEN_ARRAY then
      if |t| > 1 && t[1] == CLOSE_ARRAY then Ok(VArray([]), t[2..])
      else
        var p := ParseItems(t[1..]);
        if p.Fail? then Fail else Ok(VArray(p.value), p.rest)
    else if t[0] == OPEN_OBJECT then
      if |t| > 1 && t[1] == CLOSE_OBJECT then Ok(VObject(map[]), t[2..])
      else
        var p := ParseMembers(t[1..]);
        if p.Fail? then Fail else Ok(VObject(p.value), p.rest)
    else ParseScalar(t)
  }

  function ParseItems(t: Str): (p: Parsed<seq<Value>>)
    ensures p.Ok? ==> |p.rest| < |t|
    decreases |t|, 1
  {
    var p := ParseValue(t);
    if p.Fail? || p.rest == [] then Fail
    else if p.rest[0] == CLOSE_ARRAY then Ok([p.value], p.rest[1..])
    else if p.rest[0] != COMMA then Fail
    else
      var q := ParseItems(p.rest[1..]);
      if q.Fail? then Fail else Ok([p.value] + q.value, q.rest)
  }

  function ParseMembers(t: Str): (p: Parsed<map<Str, Value>>)
    ensures p.Ok? ==> |p.rest| < |t|
    decreases |t|, 1
  {
    if t == [] || t[0] != QUOTE then Fail
    else
      var k := ParseBody(t[1..]);
      if k.Fail? || k.rest == [] || k.rest[0] != COLON then Fail
      else
        var p := ParseValue(k.rest[1..]);
        if p.Fail? || p.rest == [] then Fail
        else if p.rest[0] == CLOSE_OBJECT then Ok(map[k.value := p.value], p.rest[1..])
        else if p.rest[0] != COMMA then Fail
        else
          var q := ParseMembers(p.rest[1..]);
          if q.Fail? then Fail else Ok(q.value[k.value := p.value], q.rest)
  }

  /** The whole text is one value. */
  function Decode(t: Str): Parsed<Value> {
    var p := ParseValue(t);
    if p.Ok? && p.rest == [] then p else Fail
  }

  // ----- decoding undoes printing -----

  /** What may follow a value inside a canonical text. */
  predicate Delimited(r: Str) {
    r == [] || r[0] == COMMA || r[0] == CLOSE_ARRAY || r[0] == CLOSE_OBJECT
  }

  lemma HexRoundTrip(u: Unit)
    ensures var h := Hex4(u);
      && HexValue(h[0]) * 4096 + HexValue(h[1]) * 256 + HexValue(h[2]) * 16 + HexValue(h[3]) == u
      && IsHexDigit(h[0]) && IsHexDigit(h[1]) && IsHexDigit(h[2]) && IsHexDigit(h[3])
  {
    forall n: nat | n < 16 ensures HexValue(HexDigit(n)) == n && IsHexDigit(HexDigit(n)) { }
    assert u == u / 16 * 16 + u % 16;
    assert u / 16 == u / 256 * 16 + u / 16 % 16;
    assert u / 256 == u / 4096 * 16 + u / 256 % 16;
  }

  /** One escaped unit is read back, whatever follows. */
  lemma EscapeRoundTrip(u: Unit, r: Str)
    ensures Escape(u)[0] != QUOTE && ParseUnit(Escape(u) + r) == Ok(u, r)
  {
    var t := Escape(u) + r;
    if |Escape(u)| == 6 {
      HexRoundTrip(u);
      assert t[6..] == r;
    } else if |Escape(u)| == 2 {
      assert t[2..] == r;
    } else {
      assert t[1..] == r;
    }
  }

  lemma BodyStep(t: Str, u: Unit, rest: Str, s: Str, r: Str)
    requires t != [] && t[0] != QUOTE && ParseUnit(t) == Ok(u, rest)
    requires ParseBody(rest) == Ok(s, r)
    ensures ParseBody(t) == Ok([u] + s, r)
  {
  }

  /** The text of a body with the quote and whatever follows it. */
  function Quoted(s: Str, r: Str): Str { QuotedBody(s) + ([QUOTE] + r) }

  lemma QuotedPair(s: Str, r: Str)
    requires |s| > 1 && IsLead(s[0]) && IsTrail(s[1])
    ensures Quoted(s, r) == [s[0]] + ([s[1]] + Quoted(s[2..], r))
  {
  }

  lemma QuotedUnit(s: Str, r: Str)
    requires s != [] && !(|s| > 1 && IsLead(s[0]) && IsTrail(s[1]))
    ensures Quoted(s, r) == Escape(s[0]) + Quoted(s[1..], r)
  {
    hide Escape;
    assert QuotedBody(s) == Escape(s[0]) + QuotedBody(s[1..]);
  }

  lemma PlainUnit(u: Unit, rest: Str)
    requires u != BACKSLASH && u >= 32
    ensures ParseUnit([u] + rest) == Ok(u, rest)
  {
  }

  lemma QuotedEnd(r: Str)
    ensures ParseBody(Quoted([], r)) == Ok([], r)
  {
    assert Quoted([], r)[1..] == r;
  }

  lemma {:induction false} BodyRoundTrip(s: Str, r: Str)
    ensures ParseBody(Quoted(s, r)) == Ok(s, r)
    decreases |s|, 1
  {
    hide Quoted, ParseBody, ParseUnit;
    if s == [] {
      QuotedEnd(r);
    } else if IsLead(s[0]) && |s| > 1 && IsTrail(s[1]) {
      var rest := Quoted(s[2..], r);
      BodyRoundTrip(s[2..], r);
      QuotedPair(s, r);
      PlainUnit(s[1], rest);
      BodyStep([s[1]] + rest, s[1], rest, s[2..], r);
      PlainUnit(s[0], [s[1]] + rest);
      BodyStep(Quoted(s, r), s[0], [s[1]] + rest, [s[1]] + s[2..], r);
      assert s == [s[0]] + ([s[1]] + s[2..]);
    } else {
      EscapedBodyRoundTrip(s, r);
    }
  }

  lemma {:induction false} EscapedBodyRoundTrip(s: Str, r: Str)
    requires s != [] && !(|s| > 1 && IsLead(s[0]) && IsTrail(s[1]))
    ensures ParseBody(Quoted(s, r)) == Ok(s, r)
    decreases |s|, 0
  {
    hide Quoted, ParseBody, ParseUnit;
    var rest := Quoted(s[1..], r);
    BodyRoundTrip(s[1..], r);
    QuotedUnit(s, r);
    EscapeRoundTrip(s[0], rest);
    BodyStep(Quoted(s, r), s[0], rest, s[1..], r);
    assert s == [s[0]] + s[1..];
  }

  lemma {:induction false} NumberRoundTrip(s: Str, r: Str)
    requires Delimited(r) && forall u :: u in s ==> IsNumberUnit(u)
    ensures NumberRun(s + r) == s
  {
    if s == [] {
      assert s + r == r;
    } else {
      assert (s + r)[1..] == s[1..] + r;
      NumberRoundTrip(s[1..], r);
    }
  }

  function Meanings(xs: seq<Json>): seq<Value> {
    seq(|xs|, i requires 0 <= i < |xs| => Meaning(xs[i]))
  }

  function MeaningOf(fs: seq<Field>, ks: seq<Str>): map<Str, Value>
    requires forall k :: k in ks ==> k in Keys(fs)
  {
    map k | k in ks :: Meaning(Lookup(fs, k))
  }

  /** The first unit of a printed value, which tells the decoder what follows. */
  lemma FirstUnit(v: Json)
    requires WellFormed(v)
    ensures |Canonical(v)| > 0 && Canonical(v)[0] != CLOSE_ARRAY
    ensures !v.Array? ==> Canonical(v)[0] != OPEN_ARRAY
    ensures !v.Object? ==> Canonical(v)[0] != OPEN_OBJECT
  {
  }

  /** A text with another first unit begins with none of the literals. */
  lemma NoLiteral(t: Str)
    requires t != []
    ensures t[0] != 'n' as int ==> !(U("null") <= t)
    ensures t[0] != 't' as int ==> !(U("true") <= t)
    ensures t[0] != 'f' as int ==> !(U("false") <= t)
  {
    assert U("null")[0] == 'n' as int && U("true")[0] == 't' as int && U("false")[0] == 'f' as int;
  }

  lemma LiteralRoundTrip(v: Json, r: Str)
    requires v.Undefined? || v.Null? || v.NonFinite? || v.Callable? || v.Bool?
    ensures ParseScalar(Canonical(v) + r) == Ok(Meaning(v), r)
  {
    hide ParseBody, NumberRun;
    var l, t := Canonical(v), Canonical(v) + r;
    NoLiteral(t);
    assert t[0] == l[0] && l <= t && t[|l|..] == r;
  }

  lemma StringRoundTrip(s: Str, r: Str)
    ensures ParseScalar(Quote(s) + r) == Ok(VString(s), r)
  {
    hide QuotedBody, ParseBody, NumberRun;
    NoLiteral(Quote(s) + r);
    assert (Quote(s) + r)[1..] == Quoted(s, r);
    BodyRoundTrip(s, r);
  }

  lemma NumberScalarRoundTrip(s: Str, r: Str)
    requires IsNumberText(s) && Delimited(r)
    ensures ParseScalar(s + r) == Ok(VNumber(s), r)
  {
    hide ParseBody;
    NoLiteral(s + r);
    NumberRoundTrip(s, r);
    assert (s + r)[|s|..] == r;
  }

  lemma ScalarRoundTrip(v: Json, r: Str)
    requires WellFormed(v) && Delimited(r) && !v.Array? && !v.Object?
    ensures ParseScalar(Canonical(v) + r) == Ok(Meaning(v), r)
  {
    hide ParseBody, Quote, NumberRun;
    if v.String? {
      StringRoundTrip(v.s, r);
    } else if v.Number? {
      NumberScalarRoundTrip(v.text, r);
    } else {
      LiteralRoundTrip(v, r);
    }
  }

  lemma {:induction false} ValueRoundTrip(v: Json, r: Str)
    requires WellFormed(v) && Delimited(r)
    ensures ParseValue(Canonical(v) + r) == Ok(Meaning(v), r)
    decreases v, 1, 0
  {
    match v {
      case Array(xs) => ArrayRoundTrip(xs, r);
      case Object(fs) => ObjectRoundTrip(fs, r);
      case _ =>
        FirstUnit(v);
        ScalarRoundTrip(v, r);
        assert (Canonical(v) + r)[0] == Canonical(v)[0];
    }
  }

  /** The text of the items, the closing bracket and whatever follows. */
  function ItemsText(xs: seq<Json>, r: Str): Str { Items(xs) + ([CLOSE_ARRAY] + r) }

  /** What follows the first item. */
  function ItemsTail(xs: seq<Json>, r: Str): Str
    requires xs != []
  {
    if |xs| == 1 then [CLOSE_ARRAY] + r else [COMMA] + ItemsText(xs[1..], r)
  }

  lemma ItemsSplit(xs: seq<Json>, r: Str)
    requires xs != []
    ensures ItemsText(xs, r) == Canonical(xs[0]) + ItemsTail(xs, r)
  {
  }

  lemma ItemsStep(t: Str, x: Value, rest: Str, q: seq<Value>, r: Str)
    requires ParseValue(t) == Ok(x, [COMMA] + rest) && ParseItems(rest) == Ok(q, r)
    ensures ParseItems(t) == Ok([x] + q, r)
  {
    assert ([COMMA] + rest)[1..] == rest;
  }

  lemma ItemsLast(t: Str, x: Value, r: Str)
    requires ParseValue(t) == Ok(x, [CLOSE_ARRAY] + r)
    ensures ParseItems(t) == Ok([x], r)
  {
    assert ([CLOSE_ARRAY] + r)[1..] == r;
  }

  lemma ArrayStep(body: Str, xs: seq<Value>, r: Str)
    requires body != [] && body[0] != CLOSE_ARRAY && ParseItems(body) == Ok(xs, r)
    ensures ParseValue([OPEN_ARRAY] + body) == Ok(VArray(xs), r)
  {
    assert ([OPEN_ARRAY] + body)[1..] == body;
  }

  lemma EmptyArray(r: Str)
    ensures ParseValue([OPEN_ARRAY] + ItemsText([], r)) == Ok(VArray([]), r)
  {
    assert ([OPEN_ARRAY] + ItemsText([], r))[2..] == r;
  }

  lemma {:induction false} ArrayRoundTrip(xs: seq<Json>, r: Str)
    requires WellFormed(Array(xs)) && Delimited(r)
    ensures ParseValue(Canonical(Array(xs)) + r) == Ok(VArray(Meanings(xs)), r)
    decreases xs, 1, 0
  {
    assert Canonical(Array(xs)) + r == [OPEN_ARRAY] + ItemsText(xs, r);
    hide ParseValue, ParseItems, Canonical, Meaning, WellFormed;
    if xs == [] {
      EmptyArray(r);
      assert Meanings(xs) == [];
    } else {
      ItemsRoundTrip(xs, r);
      ArrayStep(ItemsText(xs, r), Meanings(xs), r);
    }
  }

  lemma {:induction false} ItemsRoundTrip(xs: seq<Json>, r: Str)
    requires xs != [] && forall i :: 0 <= i < |xs| ==> WellFormed(xs[i])
    ensures |Items(xs)| > 0 && Items(xs)[0] != CLOSE_ARRAY
    ensures ParseItems(ItemsText(xs, r)) == Ok(Meanings(xs), r)
    decreases xs, 0, 0
  {
    hide Canonical, ParseValue, ParseItems, Meaning, WellFormed;
    FirstUnit(xs[0]);
    ItemsSplit(xs, r);
    ValueRoundTrip(xs[0], ItemsTail(xs, r));
    if |xs| == 1 {
      ItemsLast(ItemsText(xs, r), Meaning(xs[0]), r);
      assert Meanings(xs) == [Meaning(xs[0])];
    } else {
      ItemsRoundTrip(xs[1..], r);
      ItemsStep(ItemsText(xs, r), Meaning(xs[0]), ItemsText(xs[1..], r), Meanings(xs[1..]), r);
      assert Meanings(xs) == [Meaning(xs[0])] + Meanings(xs[1..]);
    }
  }

  /** The text of the members, the closing brace and whatever follows. */
  function MembersText(fs: seq<Field>, ks: seq<Str>, r: Str): Str
    requires forall k :: k in ks ==> k in Keys(fs)
  {
    Members(fs, ks) + ([CLOSE_OBJECT] + r)
  }

  lemma ObjectStep(body: Str, m: map<Str, Value>, r: Str)
    requires body != [] && body[0] != CLOSE_OBJECT && ParseMembers(body) == Ok(m, r)
    ensures ParseValue([OPEN_OBJECT] + body) == Ok(VObject(m), r)
  {
    assert ([OPEN_OBJECT] + body)[1..] == body;
  }

  lemma EmptyObject(fs: seq<Field>, r: Str)
    ensures ParseValue([OPEN_OBJECT] + MembersText(fs, [], r)) == Ok(VObject(map[]), r)
  {
    assert ([OPEN_OBJECT] + MembersText(fs, [], r))[2..] == r;
  }

  lemma ObjectText(fs: seq<Field>, ks: seq<Str>, r: Str)
    requires Distinct(Keys(fs)) && ks == PrintedKeys(fs)
    ensures Canonical(Object(fs)) + r == [OPEN_OBJECT] + MembersText(fs, ks, r)
    ensures MeaningOf(fs, ks) == Meaning(Object(fs)).members
  {
    hide Members, Sort, Defined, Lookup;
  }

  lemma {:induction false} ObjectRoundTrip(fs: seq<Field>, r: Str)
    requires WellFormed(Object(fs)) && Delimited(r)
    ensures ParseValue(Canonical(Object(fs)) + r) == Ok(Meaning(Object(fs)), r)
    decreases fs, 1, 0
  {
    var ks := PrintedKeys(fs);
    ObjectText(fs, ks, r);
    assert Meaning(Object(fs)).VObject?;
    if ks == [] {
      EmptyObject(fs, r);
    } else {
      MembersHead(fs, ks);
      MembersRoundTrip(fs, ks, r);
      ObjectStep(MembersText(fs, ks, r), MeaningOf(fs, ks), r);
    }
  }

  /** What follows the first member. */
  function MembersTail(fs: seq<Field>, ks: seq<Str>, r: Str): Str
    requires ks != [] && forall k :: k in ks ==> k in Keys(fs)
  {
    if |ks| == 1 then [CLOSE_OBJECT] + r else [COMMA] + MembersText(fs, ks[1..], r)
  }

  lemma Reassociate(a: Str, b: Str, c: Str, d: Str)
    ensures (a + b + c) + d == a + (b + (c + d))
  {
  }

  lemma MemberText(k: Str, v: Str, tail: Str)
    ensures (Quote(k) + [COLON] + v) + tail == [QUOTE] + Quoted(k, [COLON] + (v + tail))
  {
    hide QuotedBody;
  }

  lemma MembersSplit(fs: seq<Field>, ks: seq<Str>, r: Str)
    requires ks != [] && forall k :: k in ks ==> k in Keys(fs)
    ensures MembersText(fs, ks, r) ==
      [QUOTE] + Quoted(ks[0], [COLON] + (Canonical(Lookup(fs, ks[0])) + MembersTail(fs, ks, r)))
  {
    hide Canonical, Quote, Lookup, Quoted;
    var v := Canonical(Lookup(fs, ks[0]));
    MemberText(ks[0], v, MembersTail(fs, ks, r));
    if |ks| > 1 {
      Reassociate(Quote(ks[0]) + [COLON] + v, [COMMA], Members(fs, ks[1..]), [CLOSE_OBJECT] + r);
    }
  }

  lemma MembersHead(fs: seq<Field>, ks: seq<Str>)
    requires ks != [] && forall k :: k in ks ==> k in Keys(fs)
    ensures |Members(fs, ks)| > 0 && Members(fs, ks)[0] == QUOTE
  {
    hide Canonical, QuotedBody, Lookup;
  }

  /** What the members decoder does once it has read a key and a value. */
  lemma MembersStep(k: Str, v: Str, x: Value, tail: Str)
    requires ParseValue(v) == Ok(x, tail) && tail != []
    ensures tail[0] == CLOSE_OBJECT ==>
      ParseMembers([QUOTE] + Quoted(k, [COLON] + v)) == Ok(map[k := x], tail[1..])
    ensures tail[0] == COMMA && ParseMembers(tail[1..]).Ok? ==>
      ParseMembers([QUOTE] + Quoted(k, [COLON] + v)) ==
        Ok(ParseMembers(tail[1..]).value[k := x], ParseMembers(tail[1..]).rest)
  {
    var t := [QUOTE] + Quoted(k, [COLON] + v);
    BodyRoundTrip(k, [COLON] + v);
    assert t[1..] == Quoted(k, [COLON] + v);
    assert ([COLON] + v)[1..] == v;
  }

  lemma {:induction false} MembersRoundTrip(fs: seq<Field>, ks: seq<Str>, r: Str)
    requires ks != [] && forall k :: k in ks ==> k in Keys(fs)
    requires forall i :: 0 <= i < |fs| ==> WellFormed(fs[i].value)
    ensures ParseMembers(MembersText(fs, ks, r)) == Ok(MeaningOf(fs, ks), r)
    decreases fs, 0, |ks|
  {
    hide Canonical, ParseValue, ParseMembers, Meaning, WellFormed, Members, QuotedBody;
    var v, tail := Lookup(fs, ks[0]), MembersTail(fs, ks, r);
    ValueRoundTrip(v, tail);
    MembersSplit(fs, ks, r);
    MembersStep(ks[0], Canonical(v) + tail, Meaning(v), tail);
    if |ks| == 1 {
      assert tail[1..] == r;
      assert MeaningOf(fs, ks) == map[ks[0] := Meaning(v)];
    } else {
      MembersRoundTrip(fs, ks[1..], r);
      assert tail[1..] == MembersText(fs, ks[1..], r);
      assert MeaningOf(fs, ks) == MeaningOf(fs, ks[1..])[ks[0] := Meaning(v)];
    }
  }

  /** The decoder recovers what a payload means from its canonical text. */
  lemma DecodeCanonical(v: Json)
    requires WellFormed(v)
    ensures Decode(Canonical(v)) == Ok(Meaning(v), [])
  {
    hide Canonical, ParseValue, Meaning, WellFormed;
    ValueRoundTrip(v, []);
    assert Canonical(v) + [] == Canonical(v);
  }

  // ----- values that mean the same have one text -----

  predicate Ascending(ks: seq<Str>) {
    forall i, j :: 0 <= i < j < |ks| ==> Less(ks[i], ks[j])
  }

  lemma {:induction false} InsertAscending(k: Str, ks: seq<Str>)
    requires Ascending(ks) && k !in ks
    ensures Ascending(Insert(k, ks))
  {
    if ks == [] {
    } else if Less(k, ks[0]) {
      forall j | 0 <= j < |ks| ensures Less(k, ks[j]) {
        if j > 0 { LessTransitive(k, ks[0], ks[j]); }
      }
    } else {
      LessTrichotomy(k, ks[0]);
      InsertAscending(k, ks[1..]);
      InsertKeeps(k, ks[1..]);
      forall x | x in Insert(k, ks[1..]) ensures Less(ks[0], x) {
        assert x in multiset(Insert(k, ks[1..]));
      }
    }
  }

  lemma {:induction false} SortAscending(ks: seq<Str>)
    requires Distinct(ks)
    ensures Ascending(Sort(ks))
  {
    if ks != [] {
      SortAscending(ks[1..]);
      SortKeeps(ks[1..]);
      InsertAscending(ks[0], Sort(ks[1..]));
    }
  }

  lemma {:induction false} DefinedAscending(fs: seq<Field>, ks: seq<Str>)
    requires Ascending(ks) && forall k :: k in ks ==> k in Keys(fs)
    ensures Ascending(Defined(fs, ks))
  {
    if ks != [] {
      DefinedAscending(fs, ks[1..]);
      var r := Defined(fs, ks[1..]);
      forall k | k in r ensures Less(ks[0], k) { }
    }
  }

  /** The keys an object prints, in order. */
  function PrintedKeys(fs: seq<Field>): (ks: seq<Str>)
    requires Distinct(Keys(fs))
    ensures Ascending(ks) && forall i, j :: 0 <= i < j < |ks| ==> Before(ks[i], ks[j])
    ensures forall k :: k in ks <==> k in Keys(fs) && !Lookup(fs, k).Undefined?
  {
    LessMeansBefore();
    SortKeeps(Keys(fs));
    SortAscending(Keys(fs));
    DefinedAscending(fs, Sort(Keys(fs)));
    Defined(fs, Sort(Keys(fs)))
  }

  lemma HasMember(ks: seq<Str>)
    ensures ks != [] ==> exists k :: k in ks
  {
    if ks != [] { assert ks[0] in ks; }
  }

  lemma {:induction false} AscendingUnique(a: seq<Str>, b: seq<Str>)
    requires Ascending(a) && Ascending(b)
    requires forall k :: k in a <==> k in b
    ensures a == b
  {
    HasMember(a);
    HasMember(b);
    if a != [] {
      assert a[0] in b && b[0] in a;
      LessTrichotomy(a[0], b[0]);
      assert a == [a[0]] + a[1..] && b == [b[0]] + b[1..];
      forall k ensures k in a[1..] <==> k in b[1..] {
        LessTrichotomy(a[0], k);
        assert k in a[1..] ==> Less(a[0], k);
        assert k in b[1..] ==> Less(b[0], k);
        assert k in a <==> k == a[0] || k in a[1..];
        assert k in b <==> k == b[0] || k in b[1..];
      }
      AscendingUnique(a[1..], b[1..]);
    }
  }

  lemma {:induction false} SameItems(xs: seq<Json>, ys: seq<Json>)
    requires forall i :: 0 <= i < |xs| ==> WellFormed(xs[i])
    requires forall i :: 0 <= i < |ys| ==> WellFormed(ys[i])
    requires Meanings(xs) == Meanings(ys)
    ensures Items(xs) == Items(ys)
    decreases xs, 0, 0
  {
    assert |Meanings(xs)| == |Meanings(ys)|;
    if xs != [] {
      assert Meanings(xs)[0] == Meanings(ys)[0];
      SameText(xs[0], ys[0]);
      assert Meanings(xs[1..]) == Meanings(xs)[1..] && Meanings(ys[1..]) == Meanings(ys)[1..];
      SameItems(xs[1..], ys[1..]);
    }
  }

  lemma {:induction false} SameMembers(fs: seq<Field>, gs: seq<Field>, ks: seq<Str>)
    requires WellFormed(Object(fs)) && WellFormed(Object(gs))
    requires forall k :: k in ks ==> k in Keys(fs) && k in Keys(gs)
    requires forall k :: k in ks ==> Meaning(Lookup(fs, k)) == Meaning(Lookup(gs, k))
    ensures Members(fs, ks) == Members(gs, ks)
    decreases fs, 0, |ks|
  {
    if ks != [] {
      SameText(Lookup(fs, ks[0]), Lookup(gs, ks[0]));
      SameMembers(fs, gs, ks[1..]);
    }
  }

  lemma {:induction false} SameText(v: Json, w: Json)
    requires WellFormed(v) && WellFormed(w) && Meaning(v) == Meaning(w)
    ensures Canonical(v) == Canonical(w)
    decreases v, 1, 0
  {
    if v.Array? {
      assert Meaning(v) == VArray(Meanings(v.items)) && Meaning(w) == VArray(Meanings(w.items));
      SameItems(v.items, w.items);
    } else if v.Object? {
      var fs, gs := v.fields, w.fields;
      var ks, ls := PrintedKeys(fs), PrintedKeys(gs);
      forall k ensures k in ks <==> k in ls {
        assert k in ks <==> k in Meaning(v).members;
        assert k in ls <==> k in Meaning(w).members;
      }
      AscendingUnique(ks, ls);
      forall k | k in ks ensures Meaning(Lookup(fs, k)) == Meaning(Lookup(gs, k)) {
        assert Meaning(v).members[k] == Meaning(w).members[k];
      }
      SameMembers(fs, gs, ks);
    }
  }

  /** Two payloads share their canonical text exactly when they mean the same. */
  lemma CanonicalIffMeaning(v: Json, w: Json)
    requires WellFormed(v) && WellFormed(w)
    ensures Canonical(v) == Canonical(w) <==> Meaning(v) == Meaning(w)
  {
    DecodeCanonical(v);
    DecodeCanonical(w);
    if Meaning(v) == Meaning(w) { SameText(v, w); }
  }

  // ----- the JSON wire -----

  /** `JSON.stringify` leaves these out of an object, and writes null for them inside an array. */
  predicate Unwritable(v: Json) { v.Undefined? || v.Callable? }

  /** `JSON.parse(JSON.stringify(v))` for a value that is written. */
  function Wire(v: Json): Json {
    match v
    case Array(xs) => Array(seq(|xs|, i requires 0 <= i < |xs| => Wire(xs[i])))
    case Object(fs) => Object(WireFields(fs))
    case Bool(_) => v
    case Number(_) => v
    case String(_) => v
    case _ => Null
  }

  function WireFields(fs: seq<Field>): seq<Field> {
    if fs == [] then []
    else if Unwritable(fs[0].value) then WireFields(fs[1..])
    else [Field(fs[0].key, Wire(fs[0].value))] + WireFields(fs[1..])
  }

  /** No object, at any depth, has a function or a symbol for a property. */
  predicate NoCallableProperty(v: Json) {
    match v
    case Array(xs) => forall i :: 0 <= i < |xs| ==> NoCallableProperty(xs[i])
    case Object(fs) => forall i :: 0 <= i < |fs| ==> !fs[i].value.Callable? && NoCallableProperty(fs[i].value)
    case _ => true
  }

  lemma LookupAt(fs: seq<Field>, i: nat)
    requires i < |fs| && Distinct(Keys(fs))
    ensures Lookup(fs, fs[i].key) == fs[i].value
  {
    var j := Find(Keys(fs), Keys(fs)[i]);
    assert Keys(fs)[j] == Keys(fs)[i];
  }

  lemma LookupRest(fs: seq<Field>, k: Str)
    requires fs != [] && k in Keys(fs[1..]) && k != fs[0].key
    ensures k in Keys(fs) && Lookup(fs, k) == Lookup(fs[1..], k)
  {
    assert Keys(fs) == [fs[0].key] + Keys(fs[1..]) && Keys(fs)[1..] == Keys(fs[1..]);
    assert Find(Keys(fs), k) == 1 + Find(Keys(fs)[1..], k);
    hide Find, Keys;
  }

  /** The fields and the fields they become have the same key in front, or that key is not written. */
  lemma WireHead(fs: seq<Field>)
    requires fs != [] && Distinct(Keys(fs))
    ensures Keys(fs) == [fs[0].key] + Keys(fs[1..]) && Distinct(Keys(fs[1..]))
    ensures Lookup(fs, fs[0].key) == fs[0].value
    ensures forall k :: k in Keys(fs[1..]) ==> k != fs[0].key && Lookup(fs, k) == Lookup(fs[1..], k)
  {
    assert Keys(fs) == [fs[0].key] + Keys(fs[1..]);
    LookupAt(fs, 0);
    forall k | k in Keys(fs[1..]) ensures k != fs[0].key && Lookup(fs, k) == Lookup(fs[1..], k) {
      LookupRest(fs, k);
    }
  }

  lemma ConsField(head: Field, rest: seq<Field>)
    requires head.key !in Keys(rest) && Distinct(Keys(rest))
    ensures Keys([head] + rest) == [head.key] + Keys(rest)
    ensures Distinct(Keys([head] + rest))
    ensures Lookup([head] + rest, head.key) == head.value
    ensures forall k :: k in Keys(rest) ==> Lookup([head] + rest, k) == Lookup(rest, k)
  {
    var ws := [head] + rest;
    assert ws[1..] == rest;
    assert Keys(ws) == [head.key] + Keys(rest);
    WireHead(ws);
  }

  lemma WireKeepsHead(fs: seq<Field>)
    requires fs != [] && !Unwritable(fs[0].value)
    requires fs[0].key !in Keys(WireFields(fs[1..])) && Distinct(Keys(WireFields(fs[1..])))
    ensures var ws, rest := WireFields(fs), WireFields(fs[1..]);
      && Keys(ws) == [fs[0].key] + Keys(rest)
      && Distinct(Keys(ws))
      && Lookup(ws, fs[0].key) == Wire(fs[0].value)
      && forall k :: k in Keys(rest) ==> Lookup(ws, k) == Lookup(rest, k)
  {
    hide Wire, Unwritable, Lookup;
    var head, rest := Field(fs[0].key, Wire(fs[0].value)), WireFields(fs[1..]);
    assert WireFields(fs) == [head] + rest;
    ConsField(head, rest);
  }

  /** The wire keeps the keys that are written, and the wire image of their values. */
  lemma {:induction false} WireKeeps(fs: seq<Field>)
    requires Distinct(Keys(fs))
    ensures Distinct(Keys(WireFields(fs)))
    ensures forall k :: k in Keys(WireFields(fs)) <==> k in Keys(fs) && !Unwritable(Lookup(fs, k))
    ensures forall k :: k in Keys(WireFields(fs)) ==> Lookup(WireFields(fs), k) == Wire(Lookup(fs, k))
  {
    hide Wire, Unwritable, Lookup;
    if fs != [] {
      WireHead(fs);
      WireKeeps(fs[1..]);
      if !Unwritable(fs[0].value) { WireKeepsHead(fs); }
    }
  }

  lemma {:induction false} WireWellFormed(v: Json)
    requires WellFormed(v)
    ensures WellFormed(Wire(v))
  {
    match v {
      case Array(xs) => forall i | 0 <= i < |xs| { WireWellFormed(xs[i]); }
      case Object(fs) => WireFieldsWellFormed(fs); WireKeeps(fs);
      case _ =>
    }
  }

  lemma {:induction false} WireFieldsWellFormed(fs: seq<Field>)
    requires forall i :: 0 <= i < |fs| ==> WellFormed(fs[i].value)
    ensures forall i :: 0 <= i < |WireFields(fs)| ==> WellFormed(WireFields(fs)[i].value)
  {
    if fs != [] {
      WireWellFormed(fs[0].value);
      WireFieldsWellFormed(fs[1..]);
    }
  }

  /** The wire keeps the meaning exactly when no object has a callable property. */
  lemma {:induction false} WireMeaning(v: Json)
    requires WellFormed(v)
    ensures Meaning(Wire(v)) == Meaning(v) <==> NoCallableProperty(v)
  {
    if v.Array? {
      var xs, ys := v.items, Wire(v).items;
      forall i | 0 <= i < |xs| ensures Meaning(ys[i]) == Meaning(xs[i]) <==> NoCallableProperty(xs[i]) {
        WireMeaning(xs[i]);
      }
      var a, b := Meaning(v).items, Meaning(Wire(v)).items;
      assert |a| == |b| == |xs| && |ys| == |xs|;
      assert forall i :: 0 <= i < |xs| ==> a[i] == Meaning(xs[i]) && b[i] == Meaning(ys[i]);
      if a == b {
        forall i | 0 <= i < |xs| ensures NoCallableProperty(xs[i]) { assert a[i] == b[i]; }
      }
      if NoCallableProperty(v) {
        forall i | 0 <= i < |xs| ensures a[i] == b[i] { assert NoCallableProperty(xs[i]); }
        assert a == b;
      }
    } else if v.Object? {
      WireObjectMeaning(v.fields);
    }
  }

  lemma WireIsDefined(v: Json)
    ensures !Wire(v).Undefined?
  {
  }

  /** One property in the meaning of an object and in the meaning of its wire image. */
  lemma {:induction false} WireProperty(fs: seq<Field>, i: nat)
    requires WellFormed(Object(fs)) && i < |fs|
    ensures var m, w := Meaning(Object(fs)).members, Meaning(Object(WireFields(fs))).members;
      && (fs[i].key in m <==> !fs[i].value.Undefined?)
      && (fs[i].key in w <==> !Unwritable(fs[i].value))
      && (fs[i].key in w ==> (w[fs[i].key] == m[fs[i].key] <==> NoCallableProperty(fs[i].value)))
    decreases fs, 0
  {
    hide Lookup, Wire, NoCallableProperty;
    WireKeeps(fs);
    LookupAt(fs, i);
    assert Keys(fs)[i] == fs[i].key;
    WireMeaning(fs[i].value);
    WireIsDefined(fs[i].value);
  }

  lemma {:induction false} WireObjectMeaning(fs: seq<Field>)
    requires WellFormed(Object(fs))
    ensures Meaning(Wire(Object(fs))) == Meaning(Object(fs)) <==> NoCallableProperty(Object(fs))
    decreases fs, 1
  {
    var m, w := Meaning(Object(fs)).members, Meaning(Object(WireFields(fs))).members;
    forall i | 0 <= i < |fs|
      ensures fs[i].key in m <==> !fs[i].value.Undefined?
      ensures fs[i].key in w <==> !Unwritable(fs[i].value)
      ensures fs[i].key in w ==> (w[fs[i].key] == m[fs[i].key] <==> NoCallableProperty(fs[i].value))
    {
      WireProperty(fs, i);
    }
    if m == w {
      forall i | 0 <= i < |fs| ensures !fs[i].value.Callable? && NoCallableProperty(fs[i].value) {
        assert fs[i].key in m <==> fs[i].key in w;
      }
    }
    if NoCallableProperty(Object(fs)) {
      WireKeeps(fs);
      forall k ensures k in m <==> k in w {
        if k in Keys(fs) { var i := Find(Keys(fs), k); assert fs[i].key == k; }
      }
      forall k | k in m ensures m[k] == w[k] { var i := Find(Keys(fs), k); assert fs[i].key == k; }
      assert m == w;
    }
  }

  /** The canonical text survives the wire exactly when no object has a callable property. */
  lemma WireCanonical(v: Json)
    requires WellFormed(v)
    ensures WellFormed(Wire(v))
    ensures Canonical(Wire(v)) == Canonical(v) <==> NoCallableProperty(v)
  {
    WireWellFormed(v);
    WireMeaning(v);
    CanonicalIffMeaning(Wire(v), v);
  }

  /** A callable property is signed as null and then lost on the wire. */
  lemma CallablePropertyBreaksTheText()
    ensures var v := Object([Field(U("f"), Callable)]);
      WellFormed(v) && Canonical(Wire(v)) != Canonical(v)
  {
    var v := Object([Field(U("f"), Callable)]);
    assert v.fields[0].value.Callable?;
    WireCanonical(v);
  }
}
