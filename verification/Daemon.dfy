/**
 * The daemon's socket: newline-delimited requests and replies between a session and the node, over
 * connections that come and go.
 */
module Daemon {
  import opened Options
  import opened Text

  const NEWLINE: Unit := 10

  // ----- lines -----

  /** The text that a list of lines makes on the wire. */
  function Written(ls: seq<Str>): Str {
    if ls == [] then [] else ls[0] + [NEWLINE] + Written(ls[1..])
  }

  predicate OneLine(s: Str) { NEWLINE !in s }

  predicate Lines(ls: seq<Str>) { forall l :: l in ls ==> OneLine(l) }

  lemma {:induction false} WrittenAppend(a: seq<Str>, b: seq<Str>)
    ensures Written(a + b) == Written(a) + Written(b)
  {
    if a == [] {
      assert a + b == b;
    } else {
      assert (a + b)[1..] == a[1..] + b;
      WrittenAppend(a[1..], b);
      assert a[0] + [NEWLINE] + (Written(a[1..]) + Written(b)) == a[0] + [NEWLINE] + Written(a[1..]) + Written(b);
    }
  }

  lemma WrittenPush(a: seq<Str>, l: Str)
    ensures Written(a + [l]) == Written(a) + l + [NEWLINE]
  {
    WrittenAppend(a, [l]);
    assert [l][1..] == [] && Written([l]) == l + [NEWLINE] + Written([l][1..]);
    assert Written(a) + (l + [NEWLINE]) == Written(a) + l + [NEWLINE];
  }

  /**
   * A reader's buffer: of the lines written, `read` units have arrived, and what arrived is the first
   * `done` lines and the buffer.
   */
  ghost predicate Buffered(ls: seq<Str>, read: nat, done: nat, buffer: Str) {
    && read <= |Written(ls)| && done <= |ls|
    && Written(ls[..done]) + buffer == Written(ls)[..read]
  }

  lemma BufferedWrite(ls: seq<Str>, l: Str, read: nat, done: nat, buffer: Str)
    requires Buffered(ls, read, done, buffer)
    ensures Buffered(ls + [l], read, done, buffer)
  {
    WrittenPush(ls, l);
    assert (ls + [l])[..done] == ls[..done];
    hide Written;
    assert Written(ls + [l])[..read] == Written(ls)[..read];
  }

  lemma BufferedArrive(ls: seq<Str>, read: nat, done: nat, buffer: Str, n: nat)
    requires Buffered(ls, read, done, buffer) && read + n <= |Written(ls)|
    ensures Buffered(ls, read + n, done, buffer + Written(ls)[read..read + n])
  {
    hide Written;
    assert Written(ls)[..read + n] == Written(ls)[..read] + Written(ls)[read..read + n];
    var before, chunk := Written(ls[..done]), Written(ls)[read..read + n];
    assert before + (buffer + chunk) == before + buffer + chunk;
  }

  lemma {:induction false} IndexOfStays(s: Str, t: Str, u: Unit)
    requires u in s
    ensures IndexOf(s + t, u) == IndexOf(s, u) < |s|
  {
    if s[0] != u {
      assert (s + t)[1..] == s[1..] + t;
      IndexOfStays(s[1..], t, u);
    }
  }

  lemma BeginsWith(l: Str, rest: Str, buffer: Str)
    requires buffer <= l + [NEWLINE] + rest && |l| < |buffer|
    ensures buffer == l + [NEWLINE] + buffer[|l| + 1..]
  {
    var all := l + [NEWLINE] + rest;
    assert buffer[..|l|] == all[..|l|] == l && buffer[|l|] == all[|l|];
  }

  /** The first line of a text that begins with a line. */
  lemma HeadLine(l: Str, rest: Str, buffer: Str)
    requires OneLine(l) && buffer <= l + [NEWLINE] + rest && NEWLINE in buffer
    ensures IndexOf(buffer, NEWLINE) == |l| < |buffer| && buffer == l + [NEWLINE] + buffer[|l| + 1..]
  {
    var all := l + [NEWLINE] + rest;
    IndexOfSeparator(l, rest, NEWLINE);
    hide IndexOf;
    assert all == buffer + all[|buffer|..];
    IndexOfStays(buffer, all[|buffer|..], NEWLINE);
    BeginsWith(l, rest, buffer);
  }

  lemma BufferedPart(ls: seq<Str>, read: nat, done: nat, buffer: Str)
    requires Buffered(ls, read, done, buffer)
    ensures buffer <= Written(ls[done..])
    ensures buffer != [] ==> done < |ls|
  {
    WrittenAppend(ls[..done], ls[done..]);
    assert ls == ls[..done] + ls[done..];
    var before, after := Written(ls[..done]), Written(ls[done..]);
    assert Written([]) == [] && (done == |ls| ==> ls[done..] == []);
    hide Written;
    assert Written(ls)[..read][|before|..] == buffer && Written(ls)[|before|..] == after;
  }

  lemma BufferedNext(ls: seq<Str>, read: nat, done: nat, rest: Str)
    requires done < |ls| && Buffered(ls, read, done, ls[done] + [NEWLINE] + rest)
    ensures Buffered(ls, read, done + 1, rest)
  {
    WrittenPush(ls[..done], ls[done]);
    assert ls[..done + 1] == ls[..done] + [ls[done]];
    hide Written;
    var before := Written(ls[..done]);
    assert before + ls[done] + [NEWLINE] + rest == before + (ls[done] + [NEWLINE] + rest);
  }

  /** A line cut off the buffer is the next line that was written. */
  lemma BufferedCut(ls: seq<Str>, read: nat, done: nat, buffer: Str)
    requires Buffered(ls, read, done, buffer) && Lines(ls) && NEWLINE in buffer
    ensures done < |ls| && IndexOf(buffer, NEWLINE) == |ls[done]| < |buffer| && buffer[..|ls[done]|] == ls[done]
    ensures Buffered(ls, read, done + 1, buffer[|ls[done]| + 1..])
  {
    hide IndexOf, Buffered;
    BufferedPart(ls, read, done, buffer);
    var l := ls[done];
    assert l in ls && Written(ls[done..]) == ls[done..][0] + [NEWLINE] + Written(ls[done..][1..]);
    HeadLine(l, Written(ls[done..][1..]), buffer);
    hide Written;
    BufferedNext(ls, read, done, buffer[|l| + 1..]);
  }

  lemma NewlineShows(a: seq<Str>, x: Str)
    ensures NEWLINE in Written(a) + x <==> a != [] || NEWLINE in x
    ensures a == [] ==> Written(a) + x == x
  {
    if a != [] { assert (Written(a) + x)[|a[0]|] == NEWLINE; }
  }

  /** The lines of a text and what is left over do not depend on how the text was split. */
  lemma {:induction false} LinesAreDetermined(a: seq<Str>, x: Str, b: seq<Str>, y: Str)
    requires Lines(a) && Lines(b) && OneLine(x) && OneLine(y)
    requires Written(a) + x == Written(b) + y
    ensures a == b && x == y
  {
    NewlineShows(a, x);
    NewlineShows(b, y);
    if a != [] && b != [] {
      var s, t := Written(a[1..]) + x, Written(b[1..]) + y;
      assert a[0] in a && b[0] in b;
      assert Written(a) + x == a[0] + [NEWLINE] + s && Written(b) + y == b[0] + [NEWLINE] + t;
      SplitAtSeparator(a[0], b[0], s, t, NEWLINE);
      LinesAreDetermined(a[1..], x, b[1..], y);
      assert a == [a[0]] + a[1..] && b == [b[0]] + b[1..];
    }
  }

  // ----- messages -----

  /** `args` is the text of the arguments. */
  datatype Request = Request(id: nat, operation: Str, args: Str)
  datatype Outcome = Ok(result: Str) | Failed(error: Str)
  datatype Response = Response(id: nat, outcome: Outcome)

  /** How messages are printed and parsed. `JSON.stringify` escapes newlines and never prints a blank. */
  datatype Codec = Codec(
    printRequest: Request -> Str,
    parseRequest: Str -> Option<Request>,
    printResponse: Response -> Str,
    parseResponse: Str -> Option<Response>)

  ghost predicate Lawful(c: Codec) {
    && (forall r :: OneLine(c.printRequest(r)) && c.parseRequest(c.printRequest(r)) == Some(r))
    && (forall r :: OneLine(c.printResponse(r)) && c.parseResponse(c.printResponse(r)) == Some(r))
  }

  // There is such a codec: fields in two digits to the unit, with a separator between them.

  ghost function Digits(s: Str): (t: Str)
    ensures |t| == 2 * |s| && forall u :: u in t ==> u >= 48
  {
    if s == [] then [] else [48 + s[0] / 256, 48 + s[0] % 256] + Digits(s[1..])
  }

  lemma {:induction false} DigitsInjective(s: Str, t: Str)
    requires Digits(s) == Digits(t)
    ensures s == t
  {
    if s != [] {
      assert |s| == |t| && Digits(s)[0] == Digits(t)[0] && Digits(s)[1] == Digits(t)[1];
      assert Digits(s)[2..] == Digits(s[1..]) && Digits(t)[2..] == Digits(t[1..]);
      assert s[0] == s[0] / 256 * 256 + s[0] % 256 && t[0] == t[0] / 256 * 256 + t[0] % 256;
      DigitsInjective(s[1..], t[1..]);
      assert s == [s[0]] + s[1..] && t == [t[0]] + t[1..];
    }
  }

  ghost function Number(n: nat): (t: Str)
    ensures forall u :: u in t ==> u >= 48
  {
    Decimal(n)
  }

  ghost function PlainRequest(r: Request): Str { Number(r.id) + [1] + (Digits(r.operation) + [1] + Digits(r.args)) }

  ghost function TextOf(o: Outcome): Str { if o.Ok? then o.result else o.error }

  ghost function Tail(o: Outcome): Str { [if o.Ok? then 2 else 3] + Digits(TextOf(o)) }

  ghost function PlainResponse(r: Response): Str {
    Number(r.id) + [1] + Tail(r.outcome)
  }

  lemma PlainRequestInjective(r: Request, q: Request)
    requires PlainRequest(r) == PlainRequest(q)
    ensures r == q
  {
    var x, y := Digits(r.operation) + [1] + Digits(r.args), Digits(q.operation) + [1] + Digits(q.args);
    SplitAtSeparator(Number(r.id), Number(q.id), x, y, 1);
    SplitAtSeparator(Digits(r.operation), Digits(q.operation), Digits(r.args), Digits(q.args), 1);
    DecimalInjective(r.id, q.id);
    DigitsInjective(r.operation, q.operation);
    DigitsInjective(r.args, q.args);
  }

  lemma PlainResponseInjective(r: Response, q: Response)
    requires PlainResponse(r) == PlainResponse(q)
    ensures r == q
  {
    var x, y := Tail(r.outcome), Tail(q.outcome);
    SplitAtSeparator(Number(r.id), Number(q.id), x, y, 1);
    DecimalInjective(r.id, q.id);
    assert x[0] == y[0] && x[1..] == y[1..];
    DigitsInjective(TextOf(r.outcome), TextOf(q.outcome));
  }

  ghost function RequestOf(line: Str): (r: Option<Request>)
    ensures forall q :: PlainRequest(q) == line ==> r == Some(q)
  {
    if exists q :: PlainRequest(q) == line then
      var q :| PlainRequest(q) == line;
      assert forall p :: PlainRequest(p) == line ==> p == q by {
        forall p | PlainRequest(p) == line ensures p == q { PlainRequestInjective(p, q); }
      }
      Some(q)
    else None
  }

  ghost function ResponseOf(line: Str): (r: Option<Response>)
    ensures forall q :: PlainResponse(q) == line ==> r == Some(q)
  {
    if exists q :: PlainResponse(q) == line then
      var q :| PlainResponse(q) == line;
      assert forall p :: PlainResponse(p) == line ==> p == q by {
        forall p | PlainResponse(p) == line ensures p == q { PlainResponseInjective(p, q); }
      }
      Some(q)
    else None
  }

  /** The laws asked of the codec can be kept. */
  lemma LawfulCodecExists()
    ensures exists c: Codec :: Lawful(c)
  {
    var c := Codec(r => PlainRequest(r), line => RequestOf(line), r => PlainResponse(r), line => ResponseOf(line));
    forall r ensures OneLine(c.printRequest(r)) && c.parseRequest(c.printRequest(r)) == Some(r) {
      assert c.printRequest(r) == PlainRequest(r);
      assert c.parseRequest(PlainRequest(r)) == RequestOf(PlainRequest(r));
    }
    forall r ensures OneLine(c.printResponse(r)) && c.parseResponse(c.printResponse(r)) == Some(r) {
      assert c.printResponse(r) == PlainResponse(r);
      assert c.parseResponse(PlainResponse(r)) == ResponseOf(PlainResponse(r));
    }
    assert Lawful(c);
  }

  function Requests(c: Codec, rs: seq<Request>): (ls: seq<Str>)
    ensures |ls| == |rs| && forall i :: 0 <= i < |rs| ==> ls[i] == c.printRequest(rs[i])
  {
    seq(|rs|, i requires 0 <= i < |rs| => c.printRequest(rs[i]))
  }

  function Responses(c: Codec, rs: seq<Response>): (ls: seq<Str>)
    ensures |ls| == |rs| && forall i :: 0 <= i < |rs| ==> ls[i] == c.printResponse(rs[i])
  {
    seq(|rs|, i requires 0 <= i < |rs| => c.printResponse(rs[i]))
  }

  lemma RequestsPush(c: Codec, rs: seq<Request>, r: Request)
    ensures Requests(c, rs + [r]) == Requests(c, rs) + [c.printRequest(r)]
  {
  }

  lemma ResponsesPush(c: Codec, rs: seq<Response>, r: Response)
    ensures Responses(c, rs + [r]) == Responses(c, rs) + [c.printResponse(r)]
  {
  }

  // ----- the history of the connections -----

  type Sock = nat
  type Buffers = map<Sock, Str>

  /** Requests whose handlers run, with the connections they came in on. */
  type Running = set<(Request, Sock)>

  /** One connection: requests written and how far they got, replies written and how far they got. */
  datatype Link = Link(sent: seq<Request>, sentRead: nat, got: nat, replied: seq<Response>, repliedRead: nat, seen: nat)

  const NEW_LINK := Link([], 0, 0, [], 0, 0)

  /**
   * Everything that happened: the calls that were made and the connection each went out on, the ids whose
   * handling the daemon began, and what it answered.
   */
  datatype World = World(links: map<Sock, Link>, issued: map<nat, (Request, Sock)>, started: set<nat>,
                         answered: map<nat, Outcome>)

  /** Ids run from one up, and each is one call's on one connection. */
  ghost predicate Numbered(w: World, next: nat) {
    && (forall id :: id in w.issued <==> 1 <= id < next)
    && (forall id :: id in w.issued ==> w.issued[id].0.id == id)
    && w.started <= w.issued.Keys && w.answered.Keys <= w.started
  }

  /** A connection carries the calls that went out on it, each once; those the daemon got are those it began. */
  ghost predicate Carries(w: World, s: Sock) {
    s in w.links ==>
    && w.links[s].got <= |w.links[s].sent|
    && (forall i :: 0 <= i < |w.links[s].sent| ==> Mine(w, s, w.links[s].sent[i]))
    && (forall i, j :: 0 <= i < j < |w.links[s].sent| ==> w.links[s].sent[i].id != w.links[s].sent[j].id)
    && (forall i :: 0 <= i < |w.links[s].sent| ==> (w.links[s].sent[i].id in w.started <==> i < w.links[s].got))
  }

  ghost predicate Mine(w: World, s: Sock, r: Request) {
    r.id in w.issued && w.issued[r.id] == (r, s)
  }

  /** Replies on a connection are the daemon's answers to that connection's requests. */
  ghost predicate Answers(w: World, s: Sock) {
    s in w.links ==> forall i :: 0 <= i < |w.links[s].replied| ==> IsAnswer(w, s, w.links[s].replied[i])
  }

  ghost predicate IsAnswer(w: World, s: Sock, r: Response) {
    r.id in w.answered && w.answered[r.id] == r.outcome && r.id in w.issued && w.issued[r.id].1 == s
  }

  /** Handlers that run are of requests that came in on their connection and are not answered. */
  ghost predicate Runs(w: World, working: Running) {
    forall r :: r in working ==> Mine(w, r.1, r.0) && r.1 in w.links && r.0.id in w.started && r.0.id !in w.answered
  }

  /** What became of a call. */
  datatype Settlement = Answered(outcome: Outcome) | Lost(why: Str)

  type Settled = map<nat, Settlement>

  /** Every call that went out is pending or settled, and one settled by a reply has its own answer. */
  ghost predicate Settles(w: World, pending: set<nat>, settled: Settled) {
    && pending !! settled.Keys && pending + settled.Keys == w.issued.Keys
    && forall id :: id in settled && settled[id].Answered? ==> id in w.answered && w.answered[id] == settled[id].outcome
  }

  /** The two buffers of a connection hold what arrived and is not yet a line. */
  ghost predicate InStep(c: Codec, l: Link, daemonBuffer: Str, clientBuffer: Str) {
    && Buffered(Requests(c, l.sent), l.sentRead, l.got, daemonBuffer)
    && Buffered(Responses(c, l.replied), l.repliedRead, l.seen, clientBuffer)
  }

  // ----- what each step keeps -----

  function LinkOn(w: World, s: Sock): Link {
    if s in w.links then w.links[s] else NEW_LINK
  }

  function Issue(w: World, s: Sock, r: Request): World {
    var l := LinkOn(w, s);
    w.(links := w.links[s := l.(sent := l.sent + [r])], issued := w.issued[r.id := (r, s)])
  }

  lemma IssueKeeps(w: World, next: nat, s: Sock, r: Request, t: Sock)
    requires Numbered(w, next) && Carries(w, s) && Carries(w, t) && Answers(w, t) && s in w.links && r.id == next > 0
    ensures Numbered(Issue(w, s, r), next + 1) && Carries(Issue(w, s, r), t) && Answers(Issue(w, s, r), t)
  {
    var v := Issue(w, s, r);
    assert forall id :: id in w.issued ==> id in v.issued && v.issued[id] == w.issued[id];
    if t in w.links {
      var before, after := w.links[t].sent, v.links[t].sent;
      assert forall i :: 0 <= i < |before| ==> after[i] == before[i] && Mine(w, t, before[i]);
    }
  }

  lemma IssueSettles(w: World, next: nat, s: Sock, r: Request, pending: set<nat>, settled: Settled, working: Running)
    requires Numbered(w, next) && s in w.links && r.id == next && Settles(w, pending, settled) && Runs(w, working)
    ensures Settles(Issue(w, s, r), pending + {r.id}, settled) && Runs(Issue(w, s, r), working)
  {
    assert r.id !in w.issued.Keys;
  }

  /** The request whose line comes next at the daemon. */
  function NextRequest(w: World, s: Sock): Request {
    var l := LinkOn(w, s);
    if l.got < |l.sent| then l.sent[l.got] else Request(0, [], [])
  }

  function Begin(w: World, s: Sock): World {
    var l := LinkOn(w, s);
    w.(links := w.links[s := l.(got := l.got + 1)], started := w.started + {NextRequest(w, s).id})
  }

  lemma BeginKeeps(w: World, next: nat, s: Sock, t: Sock)
    requires Numbered(w, next) && Carries(w, s) && Carries(w, t) && Answers(w, t) && s in w.links
    requires w.links[s].got < |w.links[s].sent|
    ensures Numbered(Begin(w, s), next) && Carries(Begin(w, s), t) && Answers(Begin(w, s), t)
  {
    var l := w.links[s];
    assert Mine(w, s, l.sent[l.got]);
    if t in w.links && t != s {
      var sent := w.links[t].sent;
      forall i | 0 <= i < |sent| ensures sent[i].id != l.sent[l.got].id {
        assert Mine(w, t, sent[i]);
      }
    }
  }

  lemma BeginRuns(w: World, next: nat, s: Sock, working: Running)
    requires Numbered(w, next) && Carries(w, s) && s in w.links && w.links[s].got < |w.links[s].sent|
    requires Runs(w, working)
    ensures Runs(Begin(w, s), working + {(w.links[s].sent[w.links[s].got], s)})
  {
    var l := w.links[s];
    assert Mine(w, s, l.sent[l.got]) && l.sent[l.got].id !in w.started;
  }

  function Reply(w: World, s: Sock, r: Response): World {
    var l := LinkOn(w, s);
    w.(links := w.links[s := l.(replied := l.replied + [r])], answered := w.answered[r.id := r.outcome])
  }

  lemma ReplyKeeps(w: World, next: nat, s: Sock, r: Request, outcome: Outcome, working: Running, t: Sock)
    requires Numbered(w, next) && Carries(w, t) && Answers(w, t) && Runs(w, working) && (r, s) in working
    ensures Numbered(Reply(w, s, Response(r.id, outcome)), next)
    ensures Carries(Reply(w, s, Response(r.id, outcome)), t) && Answers(Reply(w, s, Response(r.id, outcome)), t)
  {
    assert Mine(w, s, r);
    var v := Reply(w, s, Response(r.id, outcome));
    if t in w.links {
      var before, after := w.links[t].replied, v.links[t].replied;
      forall i | 0 <= i < |after| ensures IsAnswer(v, t, after[i]) {
        if i < |before| { assert after[i] == before[i] && IsAnswer(w, t, before[i]); }
      }
    }
  }

  lemma ReplyRuns(w: World, next: nat, s: Sock, r: Request, outcome: Outcome, working: Running)
    requires Numbered(w, next) && Runs(w, working) && (r, s) in working
    ensures Runs(Reply(w, s, Response(r.id, outcome)), working - {(r, s)})
  {
    forall o | o in working - {(r, s)} ensures o.0.id != r.id {
      assert Mine(w, s, r) && Mine(w, o.1, o.0);
    }
  }

  lemma ReplySettles(w: World, s: Sock, r: Response, pending: set<nat>, settled: Settled)
    requires s in w.links && Settles(w, pending, settled) && r.id !in w.answered
    ensures Settles(Reply(w, s, r), pending, settled)
  {
  }

  /** A reader moves on along one connection; nothing else happens. */
  function Move(w: World, s: Sock, l: Link): World {
    w.(links := w.links[s := l])
  }

  predicate SameMessages(l: Link, m: Link) {
    l.sent == m.sent && l.got == m.got && l.replied == m.replied
  }

  lemma MoveKeeps(w: World, next: nat, s: Sock, l: Link, t: Sock)
    requires Numbered(w, next) && Carries(w, t) && Answers(w, t) && s in w.links && SameMessages(l, w.links[s])
    ensures Numbered(Move(w, s, l), next) && Carries(Move(w, s, l), t) && Answers(Move(w, s, l), t)
  {
    var v := Move(w, s, l);
    assert forall r: Request :: Mine(w, t, r) <==> Mine(v, t, r);
    assert forall r: Response :: IsAnswer(w, t, r) <==> IsAnswer(v, t, r);
  }

  lemma OpenKeeps(w: World, next: nat, s: Sock, t: Sock)
    requires Numbered(w, next) && Carries(w, t) && Answers(w, t) && s !in w.links
    ensures Numbered(Move(w, s, NEW_LINK), next) && Carries(Move(w, s, NEW_LINK), t) && Answers(Move(w, s, NEW_LINK), t)
  {
    var v := Move(w, s, NEW_LINK);
    assert forall r: Request :: Mine(w, t, r) <==> Mine(v, t, r);
    assert forall r: Response :: IsAnswer(w, t, r) <==> IsAnswer(v, t, r);
  }

  lemma MoveRuns(w: World, s: Sock, l: Link, pending: set<nat>, settled: Settled, working: Running)
    requires Settles(w, pending, settled) && Runs(w, working)
    ensures Settles(Move(w, s, l), pending, settled) && Runs(Move(w, s, l), working)
  {
    assert forall r: Request, t :: Mine(w, t, r) <==> Mine(Move(w, s, l), t, r);
  }

  // ----- both ends -----

  ghost predicate Sound(w: World, next: nat, working: Running, pending: set<nat>, settled: Settled) {
    && next > 0 && Numbered(w, next) && (forall s :: Carries(w, s) && Answers(w, s))
    && Runs(w, working) && Settles(w, pending, settled)
  }

  /** Both buffers of every connection are in step. */
  ghost predicate Wired(c: Codec, links: map<Sock, Link>, daemonBuffers: Buffers, clientBuffers: Buffers) {
    && links.Keys == daemonBuffers.Keys == clientBuffers.Keys
    && forall s :: s in links ==> InStep(c, links[s], daemonBuffers[s], clientBuffers[s])
  }

  lemma WiredSet(c: Codec, links: map<Sock, Link>, db: Buffers, cb: Buffers, s: Sock, l: Link, d: Str, b: Str)
    requires Wired(c, links, db, cb) && InStep(c, l, d, b)
    ensures Wired(c, links[s := l], db[s := d], cb[s := b])
  {
    hide InStep;
  }

  lemma WiredAt(c: Codec, links: map<Sock, Link>, db: Buffers, cb: Buffers, s: Sock)
    requires Wired(c, links, db, cb)
    ensures s in links <==> s in db && s in cb
    ensures s in links ==> InStep(c, links[s], db[s], cb[s])
  {
  }

  lemma NothingInStep(c: Codec)
    ensures InStep(c, NEW_LINK, [], [])
  {
    assert Requests(c, []) == [] && Responses(c, []) == [];
  }

  lemma InStepSent(c: Codec, l: Link, d: Str, b: Str, r: Request)
    requires InStep(c, l, d, b)
    ensures InStep(c, l.(sent := l.sent + [r]), d, b)
  {
    RequestsPush(c, l.sent, r);
    BufferedWrite(Requests(c, l.sent), c.printRequest(r), l.sentRead, l.got, d);
    hide Buffered;
  }

  lemma InStepReplied(c: Codec, l: Link, d: Str, b: Str, r: Response)
    requires InStep(c, l, d, b)
    ensures InStep(c, l.(replied := l.replied + [r]), d, b)
  {
    ResponsesPush(c, l.replied, r);
    BufferedWrite(Responses(c, l.replied), c.printResponse(r), l.repliedRead, l.seen, b);
    hide Buffered;
  }

  /** The text that is on its way to the daemon, and back. */
  ghost function Up(c: Codec, l: Link): Str { Written(Requests(c, l.sent)) }
  ghost function Down(c: Codec, l: Link): Str { Written(Responses(c, l.replied)) }

  /** The daemon's next line is the connection's next request. */
  lemma DaemonCut(c: Codec, l: Link, d: Str, b: Str)
    requires InStep(c, l, d, b) && Lawful(c) && NEWLINE in d
    ensures l.got < |l.sent| && IndexOf(d, NEWLINE) < |d|
    ensures c.parseRequest(d[..IndexOf(d, NEWLINE)]) == Some(l.sent[l.got])
    ensures InStep(c, l.(got := l.got + 1), d[IndexOf(d, NEWLINE) + 1..], b)
  {
    hide Buffered, IndexOf;
    BufferedCut(Requests(c, l.sent), l.sentRead, l.got, d);
  }

  /** The session's next line is the connection's next reply. */
  lemma ClientCut(c: Codec, l: Link, d: Str, b: Str)
    requires InStep(c, l, d, b) && Lawful(c) && NEWLINE in b
    ensures l.seen < |l.replied| && IndexOf(b, NEWLINE) < |b|
    ensures c.parseResponse(b[..IndexOf(b, NEWLINE)]) == Some(l.replied[l.seen])
    ensures InStep(c, l.(seen := l.seen + 1), d, b[IndexOf(b, NEWLINE) + 1..])
  {
    hide Buffered, IndexOf;
    BufferedCut(Responses(c, l.replied), l.repliedRead, l.seen, b);
  }

  function UnknownMethod(r: Request): Outcome { Failed(U("unknown method: ") + r.operation) }

  lemma OpenSound(w: World, next: nat, working: Running, pending: set<nat>, settled: Settled, s: Sock)
    requires Sound(w, next, working, pending, settled) && s !in w.links
    ensures Sound(Move(w, s, NEW_LINK), next, working, pending, settled)
  {
    hide Numbered, Carries, Answers, Runs, Settles;
    OpenKeeps(w, next, s, s);
    forall t ensures Carries(Move(w, s, NEW_LINK), t) && Answers(Move(w, s, NEW_LINK), t) { OpenKeeps(w, next, s, t); }
    MoveRuns(w, s, NEW_LINK, pending, settled, working);
  }

  lemma MoveSound(w: World, next: nat, working: Running, pending: set<nat>, settled: Settled, s: Sock, l: Link)
    requires Sound(w, next, working, pending, settled) && s in w.links && SameMessages(l, w.links[s])
    ensures Sound(Move(w, s, l), next, working, pending, settled)
  {
    hide Numbered, Carries, Answers, Runs, Settles, SameMessages;
    MoveKeeps(w, next, s, l, s);
    forall t ensures Carries(Move(w, s, l), t) && Answers(Move(w, s, l), t) { MoveKeeps(w, next, s, l, t); }
    MoveRuns(w, s, l, pending, settled, working);
  }

  lemma IssueSound(w: World, next: nat, working: Running, pending: set<nat>, settled: Settled, s: Sock, r: Request)
    requires Sound(w, next, working, pending, settled) && s in w.links && r.id == next
    ensures Sound(Issue(w, s, r), next + 1, working, pending + {r.id}, settled) && r.id !in w.issued
  {
    assert r.id !in w.issued;
    hide Numbered, Carries, Answers, Runs, Settles, Issue;
    IssueKeeps(w, next, s, r, s);
    forall t ensures Carries(Issue(w, s, r), t) && Answers(Issue(w, s, r), t) { IssueKeeps(w, next, s, r, t); }
    IssueSettles(w, next, s, r, pending, settled, working);
  }

  lemma OpenWired(c: Codec, w: World, db: Buffers, cb: Buffers, s: Sock)
    requires Wired(c, w.links, db, cb)
    ensures Wired(c, Move(w, s, NEW_LINK).links, db[s := []], cb[s := []])
  {
    hide InStep, Wired;
    NothingInStep(c);
    WiredSet(c, w.links, db, cb, s, NEW_LINK, [], []);
  }

  lemma IssueWired(c: Codec, w: World, db: Buffers, cb: Buffers, s: Sock, r: Request)
    requires Wired(c, w.links, db, cb) && s in w.links
    ensures s in Issue(w, s, r).links && Wired(c, Issue(w, s, r).links, db, cb)
  {
    hide InStep, Wired;
    var l := w.links[s];
    WiredAt(c, w.links, db, cb, s);
    InStepSent(c, l, db[s], cb[s], r);
    WiredSet(c, w.links, db, cb, s, l.(sent := l.sent + [r]), db[s], cb[s]);
    assert db[s := db[s]] == db && cb[s := cb[s]] == cb;
  }

  /** The chunk is the next text on its way, up to wherever the chunk ends. */
  ghost predicate NextUp(c: Codec, l: Link, chunk: Str) {
    l.sentRead + |chunk| <= |Up(c, l)| && chunk == Up(c, l)[l.sentRead..l.sentRead + |chunk|]
  }

  ghost predicate NextDown(c: Codec, l: Link, chunk: Str) {
    l.repliedRead + |chunk| <= |Down(c, l)| && chunk == Down(c, l)[l.repliedRead..l.repliedRead + |chunk|]
  }

  function ArrivedUp(w: World, s: Sock, n: nat): World {
    Move(w, s, LinkOn(w, s).(sentRead := LinkOn(w, s).sentRead + n))
  }

  function ArrivedDown(w: World, s: Sock, n: nat): World {
    Move(w, s, LinkOn(w, s).(repliedRead := LinkOn(w, s).repliedRead + n))
  }

  lemma UpWired(c: Codec, w: World, db: Buffers, cb: Buffers, s: Sock, chunk: Str)
    requires Wired(c, w.links, db, cb) && s in w.links && NextUp(c, w.links[s], chunk)
    ensures s in db && s in ArrivedUp(w, s, |chunk|).links
    ensures Wired(c, ArrivedUp(w, s, |chunk|).links, db[s := db[s] + chunk], cb)
  {
    hide Wired, Buffered, Written;
    var l := w.links[s];
    WiredAt(c, w.links, db, cb, s);
    BufferedArrive(Requests(c, l.sent), l.sentRead, l.got, db[s], |chunk|);
    WiredSet(c, w.links, db, cb, s, l.(sentRead := l.sentRead + |chunk|), db[s] + chunk, cb[s]);
    assert cb[s := cb[s]] == cb;
  }

  lemma DownWired(c: Codec, w: World, db: Buffers, cb: Buffers, s: Sock, chunk: Str)
    requires Wired(c, w.links, db, cb) && s in w.links && NextDown(c, w.links[s], chunk)
    ensures s in cb && s in ArrivedDown(w, s, |chunk|).links
    ensures Wired(c, ArrivedDown(w, s, |chunk|).links, db, cb[s := cb[s] + chunk])
  {
    hide Wired, Buffered, Written;
    var l := w.links[s];
    WiredAt(c, w.links, db, cb, s);
    BufferedArrive(Responses(c, l.replied), l.repliedRead, l.seen, cb[s], |chunk|);
    WiredSet(c, w.links, db, cb, s, l.(repliedRead := l.repliedRead + |chunk|), db[s], cb[s] + chunk);
    assert db[s := db[s]] == db;
  }

  /** The line the daemon cuts off is a call it has not begun: it may begin it. */
  lemma TakeRequest(c: Codec, w: World, db: Buffers, cb: Buffers, s: Sock)
    requires Wired(c, w.links, db, cb) && Lawful(c) && s in w.links && s in db && NEWLINE in db[s]
    ensures w.links[s].got < |w.links[s].sent| && IndexOf(db[s], NEWLINE) < |db[s]|
    ensures c.parseRequest(db[s][..IndexOf(db[s], NEWLINE)]) == Some(w.links[s].sent[w.links[s].got])
    ensures Wired(c, Begin(w, s).links, db[s := db[s][IndexOf(db[s], NEWLINE) + 1..]], cb)
  {
    hide Wired, InStep, IndexOf;
    WiredAt(c, w.links, db, cb, s);
    var l, nl := w.links[s], IndexOf(db[s], NEWLINE);
    DaemonCut(c, l, db[s], cb[s]);
    WiredSet(c, w.links, db, cb, s, l.(got := l.got + 1), db[s][nl + 1..], cb[s]);
    assert cb[s := cb[s]] == cb;
  }

  lemma BeginSound(w: World, next: nat, working: Running, pending: set<nat>, settled: Settled, s: Sock)
    requires Sound(w, next, working, pending, settled) && s in w.links && w.links[s].got < |w.links[s].sent|
    ensures Sound(Begin(w, s), next, working + {(w.links[s].sent[w.links[s].got], s)}, pending, settled)
    ensures w.links[s].sent[w.links[s].got].id !in w.started
  {
    hide Numbered, Answers, Runs, Settles, Mine;
    assert Carries(w, s);
    var id := w.links[s].sent[w.links[s].got].id;
    assert id !in w.started;
    hide Carries;
    BeginKeeps(w, next, s, s);
    forall t ensures Carries(Begin(w, s), t) && Answers(Begin(w, s), t) { BeginKeeps(w, next, s, t); }
    BeginRuns(w, next, s, working);
    BeginSettles(w, s, pending, settled);
  }

  lemma BeginSettles(w: World, s: Sock, pending: set<nat>, settled: Settled)
    requires Settles(w, pending, settled) && s in w.links && w.links[s].got < |w.links[s].sent|
    ensures Settles(Begin(w, s), pending, settled)
  {
  }

  lemma ReplySound(w: World, next: nat, working: Running, pending: set<nat>, settled: Settled, s: Sock, r: Request,
                   outcome: Outcome)
    requires Sound(w, next, working, pending, settled) && (r, s) in working
    ensures Sound(Reply(w, s, Response(r.id, outcome)), next, working - {(r, s)}, pending, settled)
    ensures s in w.links && r.id !in w.answered && Mine(w, s, r)
  {
    hide Numbered, Carries, Answers, Settles, Reply, Mine;
    assert s in w.links && r.id !in w.answered && Mine(w, s, r);
    hide Runs;
    var a := Response(r.id, outcome);
    ReplyKeeps(w, next, s, r, outcome, working, s);
    forall t ensures Carries(Reply(w, s, a), t) && Answers(Reply(w, s, a), t) {
      ReplyKeeps(w, next, s, r, outcome, working, t);
    }
    ReplyRuns(w, next, s, r, outcome, working);
    ReplySettles(w, s, a, pending, settled);
  }

  lemma ReplyWired(c: Codec, w: World, db: Buffers, cb: Buffers, s: Sock, r: Response)
    requires Wired(c, w.links, db, cb) && s in w.links
    ensures Wired(c, Reply(w, s, r).links, db, cb) && Reply(w, s, r).links.Keys == w.links.Keys
  {
    hide InStep, Wired;
    var l := w.links[s];
    WiredAt(c, w.links, db, cb, s);
    InStepReplied(c, l, db[s], cb[s], r);
    WiredSet(c, w.links, db, cb, s, l.(replied := l.replied + [r]), db[s], cb[s]);
    assert db[s := db[s]] == db && cb[s := cb[s]] == cb;
  }

  /** The reply whose line comes next at the session. */
  function NextReply(w: World, s: Sock): Response {
    var l := LinkOn(w, s);
    if l.seen < |l.replied| then l.replied[l.seen] else Response(0, Ok([]))
  }

  /** The session has read one more reply. */
  function Seen(w: World, s: Sock): World {
    var l := LinkOn(w, s);
    Move(w, s, l.(seen := l.seen + 1))
  }

  /** The line the session cuts off is the daemon's answer to a call made on that connection. */
  lemma TakeReply(c: Codec, w: World, db: Buffers, cb: Buffers, s: Sock)
    requires Wired(c, w.links, db, cb) && Lawful(c) && s in w.links && s in cb && NEWLINE in cb[s] && Answers(w, s)
    ensures IndexOf(cb[s], NEWLINE) < |cb[s]| && w.links[s].seen < |w.links[s].replied|
    ensures c.parseResponse(cb[s][..IndexOf(cb[s], NEWLINE)]) == Some(NextReply(w, s))
    ensures IsAnswer(w, s, NextReply(w, s))
    ensures Wired(c, Seen(w, s).links, db, cb[s := cb[s][IndexOf(cb[s], NEWLINE) + 1..]])
  {
    hide Wired, InStep, IndexOf;
    WiredAt(c, w.links, db, cb, s);
    var l, nl := w.links[s], IndexOf(cb[s], NEWLINE);
    ClientCut(c, l, db[s], cb[s]);
    WiredSet(c, w.links, db, cb, s, l.(seen := l.seen + 1), db[s], cb[s][nl + 1..]);
    assert db[s := db[s]] == db;
  }

  lemma SettleSound(w: World, next: nat, working: Running, pending: set<nat>, settled: Settled, id: nat, x: Settlement)
    requires Sound(w, next, working, pending, settled) && id in pending
    requires x.Answered? ==> id in w.answered && w.answered[id] == x.outcome
    ensures Sound(w, next, working, pending - {id}, settled[id := x]) && id !in settled
  {
    hide Numbered, Carries, Answers, Runs;
    assert settled[id := x].Keys == settled.Keys + {id};
  }

  lemma ArriveSound(w: World, next: nat, working: Running, pending: set<nat>, settled: Settled, s: Sock, n: nat)
    requires Sound(w, next, working, pending, settled) && s in w.links
    ensures Sound(ArrivedUp(w, s, n), next, working, pending, settled)
    ensures ArrivedUp(w, s, n) == w.(links := ArrivedUp(w, s, n).links)
    ensures Sound(ArrivedDown(w, s, n), next, working, pending, settled)
    ensures ArrivedDown(w, s, n) == w.(links := ArrivedDown(w, s, n).links)
    ensures ArrivedUp(w, s, n).links.Keys == ArrivedDown(w, s, n).links.Keys == w.links.Keys
  {
    hide Sound;
    var l := w.links[s];
    MoveSound(w, next, working, pending, settled, s, l.(sentRead := l.sentRead + n));
    MoveSound(w, next, working, pending, settled, s, l.(repliedRead := l.repliedRead + n));
  }

  lemma SeenSound(w: World, next: nat, working: Running, pending: set<nat>, settled: Settled, s: Sock)
    requires Sound(w, next, working, pending, settled) && s in w.links
    ensures Sound(Seen(w, s), next, working, pending, settled) && Seen(w, s) == w.(links := Seen(w, s).links)
    ensures Seen(w, s).links.Keys == w.links.Keys
  {
    hide Sound;
    var l := w.links[s];
    MoveSound(w, next, working, pending, settled, s, l.(seen := l.seen + 1));
  }

  lemma AnswersAt(w: World, next: nat, working: Running, pending: set<nat>, settled: Settled, s: Sock)
    requires Sound(w, next, working, pending, settled)
    ensures Answers(w, s)
  {
    hide Numbered, Carries, Answers, Runs, Settles;
    assert Carries(w, s) && Answers(w, s);
  }

  lemma PendingIsNotSettled(w: World, next: nat, working: Running, pending: set<nat>, settled: Settled)
    requires Sound(w, next, working, pending, settled)
    ensures forall id :: id in pending ==> id !in settled
  {
    hide Numbered, Carries, Answers, Runs;
  }

  lemma ReplyIssues(w: World, s: Sock, r: Response)
    ensures Reply(w, s, r).issued == w.issued && Reply(w, s, r).started == w.started
  {
  }

  // ----- nothing that was read is left undone -----

  /** Every call the daemon began on a connection has its handler running or is answered. */
  ghost predicate Begun(w: World, working: Running, s: Sock) {
    s in w.links ==> forall i :: 0 <= i < w.links[s].got && i < |w.links[s].sent| ==>
      (w.links[s].sent[i], s) in working || w.links[s].sent[i].id in w.answered
  }

  /** No call whose reply the session has read on a connection still waits. */
  ghost predicate Heard(w: World, pending: set<nat>, s: Sock) {
    s in w.links ==> forall i :: 0 <= i < w.links[s].seen && i < |w.links[s].replied| ==>
      w.links[s].replied[i].id !in pending
  }

  ghost predicate Progress(w: World, working: Running, pending: set<nat>) {
    forall s :: Begun(w, working, s) && Heard(w, pending, s)
  }

  lemma OpenProgress(w: World, working: Running, pending: set<nat>, s: Sock)
    requires Progress(w, working, pending) && s !in w.links
    ensures Progress(Move(w, s, NEW_LINK), working, pending)
  {
    forall t ensures Begun(Move(w, s, NEW_LINK), working, t) && Heard(Move(w, s, NEW_LINK), pending, t) {
      assert Begun(w, working, t) && Heard(w, pending, t);
    }
  }

  lemma ArriveProgress(w: World, working: Running, pending: set<nat>, s: Sock, n: nat)
    requires Progress(w, working, pending) && s in w.links
    ensures Progress(ArrivedUp(w, s, n), working, pending) && Progress(ArrivedDown(w, s, n), working, pending)
  {
    var u, v := ArrivedUp(w, s, n), ArrivedDown(w, s, n);
    forall t ensures Begun(u, working, t) && Heard(u, pending, t) && Begun(v, working, t) && Heard(v, pending, t) {
      assert Begun(w, working, t) && Heard(w, pending, t);
    }
  }

  lemma SoundParts(w: World, next: nat, working: Running, pending: set<nat>, settled: Settled)
    requires Sound(w, next, working, pending, settled)
    ensures next > 0 && Numbered(w, next) && (forall s :: Carries(w, s) && Answers(w, s))
    ensures Runs(w, working) && Settles(w, pending, settled)
  {
    hide Numbered, Carries, Answers, Runs, Settles;
  }

  lemma IssueProgress(w: World, next: nat, working: Running, pending: set<nat>, settled: Settled, s: Sock, r: Request)
    requires Progress(w, working, pending) && Sound(w, next, working, pending, settled) && s in w.links && r.id == next
    ensures Progress(Issue(w, s, r), working, pending + {r.id})
  {
    hide Runs, Settles, Sound;
    SoundParts(w, next, working, pending, settled);
    var v := Issue(w, s, r);
    forall t ensures Begun(v, working, t) && Heard(v, pending + {r.id}, t) {
      assert Begun(w, working, t) && Heard(w, pending, t) && Carries(w, t) && Answers(w, t);
      if t in w.links {
        forall i | 0 <= i < v.links[t].seen && i < |v.links[t].replied|
          ensures v.links[t].replied[i].id !in pending + {r.id}
        {
          assert IsAnswer(w, t, w.links[t].replied[i]);
        }
      }
    }
  }

  lemma BeginProgress(w: World, working: Running, pending: set<nat>, s: Sock)
    requires Progress(w, working, pending) && s in w.links && w.links[s].got < |w.links[s].sent|
    ensures Progress(Begin(w, s), working + {(NextRequest(w, s), s)}, pending)
  {
    var v, all := Begin(w, s), working + {(NextRequest(w, s), s)};
    forall t ensures Begun(v, all, t) && Heard(v, pending, t) {
      assert Begun(w, working, t) && Heard(w, pending, t);
    }
  }

  lemma ReplyProgress(w: World, working: Running, pending: set<nat>, s: Sock, r: Request, outcome: Outcome)
    requires Progress(w, working, pending) && s in w.links && w.links[s].seen <= |w.links[s].replied|
    ensures Progress(Reply(w, s, Response(r.id, outcome)), working - {(r, s)}, pending)
  {
    var v, rest := Reply(w, s, Response(r.id, outcome)), working - {(r, s)};
    forall t ensures Begun(v, rest, t) && Heard(v, pending, t) {
      assert Begun(w, working, t) && Heard(w, pending, t);
    }
  }

  lemma SeenProgress(w: World, working: Running, pending: set<nat>, s: Sock)
    requires Progress(w, working, pending) && s in w.links && w.links[s].seen < |w.links[s].replied|
    ensures Progress(Seen(w, s), working, pending - {NextReply(w, s).id})
  {
    var v, rest := Seen(w, s), pending - {NextReply(w, s).id};
    forall t ensures Begun(v, working, t) && Heard(v, rest, t) {
      assert Begun(w, working, t) && Heard(w, pending, t);
    }
  }

  lemma FewerWait(w: World, working: Running, pending: set<nat>, rest: set<nat>)
    requires Progress(w, working, pending) && rest <= pending
    ensures Progress(w, working, rest)
  {
    forall t ensures Begun(w, working, t) && Heard(w, rest, t) {
      assert Begun(w, working, t) && Heard(w, pending, t);
    }
  }

  lemma SeenInRange(c: Codec, links: map<Sock, Link>, db: Buffers, cb: Buffers, s: Sock)
    requires Wired(c, links, db, cb) && s in links
    ensures links[s].seen <= |links[s].replied| && links[s].got <= |links[s].sent|
  {
    hide Wired, Written;
    WiredAt(c, links, db, cb, s);
  }

  lemma KnownIsPendingOrSettled(w: World, next: nat, working: Running, pending: set<nat>, settled: Settled, id: nat)
    requires Sound(w, next, working, pending, settled)
    ensures id in w.issued && id !in pending ==> id in settled
  {
    SoundParts(w, next, working, pending, settled);
    hide Sound, Numbered, Carries, Answers, Runs;
    assert id in w.issued ==> id in pending + settled.Keys;
  }

  lemma RepliedIsKnown(w: World, next: nat, working: Running, pending: set<nat>, settled: Settled, s: Sock, i: nat)
    requires Sound(w, next, working, pending, settled) && s in w.links && i < |w.links[s].replied|
    ensures w.links[s].replied[i].id !in pending ==> w.links[s].replied[i].id in settled
  {
    AnswersAt(w, next, working, pending, settled, s);
    KnownIsPendingOrSettled(w, next, working, pending, settled, w.links[s].replied[i].id);
    hide Sound;
    assert IsAnswer(w, s, w.links[s].replied[i]);
  }

  /** The first `i + 1` lines have arrived whole. */
  ghost predicate Complete(ls: seq<Str>, i: nat, read: nat) {
    i < |ls| && |Written(ls[..i + 1])| <= read
  }

  lemma EndsInNewline(ls: seq<Str>)
    requires ls != []
    ensures Written(ls) != [] && Written(ls)[|Written(ls)| - 1] == NEWLINE
  {
    var n := |ls| - 1;
    assert ls == ls[..n] + [ls[n]];
    WrittenPush(ls[..n], ls[n]);
  }

  /** A line that has arrived whole and is not taken yet is in the buffer. */
  lemma UntakenIsBuffered(ls: seq<Str>, read: nat, done: nat, buffer: Str, i: nat)
    requires Buffered(ls, read, done, buffer) && done <= i && Complete(ls, i, read)
    ensures NEWLINE in buffer
  {
    var upto, more := ls[..i + 1], ls[done..i + 1];
    assert ls == upto + ls[i + 1..] && upto == ls[..done] + more;
    WrittenAppend(upto, ls[i + 1..]);
    WrittenAppend(ls[..done], more);
    EndsInNewline(more);
    var n, m := |Written(upto)|, |Written(ls[..done])|;
    hide Written;
    assert Written(ls)[n - 1] == NEWLINE;
    assert (Written(ls[..done]) + buffer)[n - 1] == NEWLINE;
    assert buffer[n - 1 - m] == NEWLINE;
  }

  /** A line that has arrived whole is taken once the buffer holds no whole line. */
  lemma CompleteIsDone(ls: seq<Str>, read: nat, done: nat, buffer: Str, i: nat)
    requires Buffered(ls, read, done, buffer) && OneLine(buffer) && Complete(ls, i, read)
    ensures i < done
  {
    if i >= done { UntakenIsBuffered(ls, read, done, buffer, i); }
  }

  datatype Readiness = Usable | NotRunning | Waits

  /** `remoteNet` of one session and `serve` at the other end of its connections. */
  class DaemonLink {
    const codec: Codec
    const operations: set<Str>
    /** Whether there is a directory to reconnect through. */
    const hasDir: bool
    var next: nat
    var pending: set<nat>
    var settled: Settled
    var socket: Sock
    var live: bool
    /** Connections that are torn down, whether or not their close was reported yet. */
    var destroyed: set<Sock>
    /** Calls that found the line down and wait for a connection, and calls that got past `ready`. */
    var connecting: nat
    var cleared: nat
    var clientBuffers: Buffers
    var daemonBuffers: Buffers
    /** Requests whose handler runs at the daemon, with the connection they came in on. */
    var working: Running
    ghost var w: World

    ghost predicate Consistent()
      reads this
    {
      && Sound(w, next, working, pending, settled) && Wired(codec, w.links, daemonBuffers, clientBuffers)
      && Lawful(codec) && socket in w.links && Progress(w, working, pending)
    }

    /** Between events no buffer holds a whole line. */
    ghost predicate Valid()
      reads this
    {
      && Consistent()
      && (forall s :: s in daemonBuffers ==> OneLine(daemonBuffers[s]))
      && forall s :: s in clientBuffers ==> OneLine(clientBuffers[s])
    }

    /** A call that was answered was answered with what the daemon made of that very call, on its own connection. */
    lemma AnswersAreOwn(id: nat)
      requires Consistent() && id in settled && settled[id].Answered?
      ensures id in w.issued && id in w.answered && settled[id].outcome == w.answered[id]
    {
      hide Wired, Lawful, Numbered, Carries, Answers, Runs;
    }

    constructor (codec: Codec, operations: set<Str>, socket: Sock, hasDir: bool)
      requires Lawful(codec)
      ensures pending == {} && settled == map[] && destroyed == {} && connecting == 0 && cleared == 0
      ensures this.hasDir == hasDir
      ensures Valid() && w == World(map[socket := NEW_LINK], map[], {}, map[])
      ensures this.codec == codec && this.operations == operations && this.socket == socket && live
    {
      this.codec, this.operations, this.socket, live := codec, operations, socket, true;
      next, pending, settled, working := 1, {}, map[], {};
      this.hasDir, destroyed, connecting, cleared := hasDir, {}, 0, 0;
      clientBuffers, daemonBuffers := map[socket := []], map[socket := []];
      w := World(map[socket := NEW_LINK], map[], {}, map[]);
      NothingInStep(codec);
      new;
      hide InStep, Lawful;
    }

    /** A connection is torn down; its `close` is reported later. */
    method Destroy(s: Sock)
      requires Valid()
      modifies `destroyed
      ensures Valid() && destroyed == old(destroyed) + {s}
    {
      hide Sound, Wired, Lawful, Progress;
      destroyed := destroyed + {s};
    }

    /** `ready`: pass on a usable line, else wait for a connection if there is a way to one. */
    method Ready() returns (r: Readiness)
      requires Valid()
      modifies `connecting, `cleared
      ensures Valid() && (r.Usable? <==> live && socket !in destroyed) && (!r.Usable? ==> (r.Waits? <==> hasDir))
      ensures connecting == old(connecting) + (if r.Waits? then 1 else 0)
      ensures cleared == old(cleared) + (if r.Usable? then 1 else 0)
    {
      hide Sound, Wired, Lawful, Progress;
      if live && socket !in destroyed {
        cleared := cleared + 1;
        return Usable;
      }
      if !hasDir {
        return NotRunning;
      }
      connecting := connecting + 1;
      return Waits;
    }

    /** No daemon could be reached or started: the call that waited fails. */
    method Unreachable()
      requires Valid() && connecting > 0
      modifies `connecting
      ensures Valid() && connecting == old(connecting) - 1
    {
      hide Sound, Wired, Lawful, Progress;
      connecting := connecting - 1;
    }

    /** A call that waited gets its connection, the one in use from then on, whatever other calls did meanwhile. */
    method Reconnect(line: Sock)
      requires Valid() && connecting > 0 && line !in w.links
      modifies `socket, `live, `connecting, `cleared, `clientBuffers, `daemonBuffers, `w
      ensures Valid() && socket == line && live
      ensures connecting == old(connecting) - 1 && cleared == old(cleared) + 1
      ensures w == Move(old(w), line, NEW_LINK)
    {
      hide Sound, Wired, Lawful, Progress;
      OpenWired(codec, w, daemonBuffers, clientBuffers, line);
      OpenSound(w, next, working, pending, settled, line);
      OpenProgress(w, working, pending, line);
      socket, live := line, true;
      connecting, cleared := connecting - 1, cleared + 1;
      clientBuffers, daemonBuffers := clientBuffers[line := []], daemonBuffers[line := []];
      w := Move(w, line, NEW_LINK);
    }

    /** A call goes out: a fresh id, a waiter and one line on the connection in use. */
    method Call(operation: Str, args: Str) returns (id: nat)
      requires Valid() && cleared > 0
      modifies `next, `pending, `cleared, `w
      ensures Valid() && id !in old(w).issued && pending == old(pending) + {id} && cleared == old(cleared) - 1
      ensures w == Issue(old(w), socket, Request(id, operation, args))
    {
      hide Sound, Wired, Lawful, Progress, Issue;
      id := next;
      ghost var r := Request(id, operation, args);
      IssueWired(codec, w, daemonBuffers, clientBuffers, socket, r);
      IssueSound(w, next, working, pending, settled, socket, r);
      IssueProgress(w, next, working, pending, settled, socket, r);
      next, cleared := next + 1, cleared - 1;
      pending := pending + {id};
      w := Issue(w, socket, r);
    }

    /** A chunk of what was written to it reaches the daemon; it handles every line that is complete. */
    method DaemonData(s: Sock, chunk: Str)
      requires Valid() && s in w.links && NextUp(codec, w.links[s], chunk)
      modifies `daemonBuffers, `working, `w
      ensures Valid() && w.issued == old(w).issued && old(w).started <= w.started
      ensures s in w.links && w.links[s].sent == old(w).links[s].sent
      ensures w.links[s].sentRead == old(w).links[s].sentRead + |chunk|
      ensures forall i :: 0 <= i && Complete(Requests(codec, w.links[s].sent), i, w.links[s].sentRead) ==>
        (w.links[s].sent[i], s) in working || w.links[s].sent[i].id in w.answered
    {
      hide Sound, Wired, Lawful, Progress, NextUp, IndexOf, Complete;
      UpWired(codec, w, daemonBuffers, clientBuffers, s, chunk);
      ArriveSound(w, next, working, pending, settled, s, |chunk|);
      ArriveProgress(w, working, pending, s, |chunk|);
      daemonBuffers := daemonBuffers[s := daemonBuffers[s] + chunk];
      w := ArrivedUp(w, s, |chunk|);
      while NEWLINE in daemonBuffers[s]
        invariant Consistent() && s in w.links && s in daemonBuffers
        invariant forall t :: t in daemonBuffers && t != s ==> OneLine(daemonBuffers[t])
        invariant w.issued == old(w).issued && old(w).started <= w.started
        invariant w.links[s].sent == old(w).links[s].sent
        invariant w.links[s].sentRead == old(w).links[s].sentRead + |chunk|
        decreases |daemonBuffers[s]|
      {
        DaemonLine(s);
      }
      CompleteIsBegun(s);
    }

    /** Every request whose line has arrived whole is being handled or answered. */
    lemma CompleteIsBegun(s: Sock)
      requires Valid() && s in w.links
      ensures forall i :: 0 <= i && Complete(Requests(codec, w.links[s].sent), i, w.links[s].sentRead) ==>
        (w.links[s].sent[i], s) in working || w.links[s].sent[i].id in w.answered
    {
      hide Sound, Wired, Lawful, Written;
      var l := w.links[s];
      WiredAt(codec, w.links, daemonBuffers, clientBuffers, s);
      forall i | 0 <= i && Complete(Requests(codec, l.sent), i, l.sentRead)
        ensures (l.sent[i], s) in working || l.sent[i].id in w.answered
      {
        CompleteIsDone(Requests(codec, l.sent), l.sentRead, l.got, daemonBuffers[s], i);
        assert Begun(w, working, s);
      }
    }

    /** The request was not begun: its handler starts, or it is answered at once if it names no operation. */
    twostate predicate Taken(s: Sock, r: Request)
      reads this
    {
      var refused := Reply(Begin(old(w), s), s, Response(r.id, UnknownMethod(r)));
      && r.id !in old(w).started
      && (r.operation in operations ==> working == old(working) + {(r, s)} && w == Begin(old(w), s))
      && (r.operation !in operations ==> working == old(working) + {(r, s)} - {(r, s)} && w == refused)
    }

    /** One line at the daemon: a call it had not begun, refused at once when it names no operation. */
    method DaemonLine(s: Sock)
      requires Consistent() && s in w.links && s in daemonBuffers && NEWLINE in daemonBuffers[s]
      modifies `daemonBuffers, `working, `w
      ensures Consistent() && s in w.links && s in daemonBuffers && |daemonBuffers[s]| < |old(daemonBuffers)[s]|
      ensures daemonBuffers == old(daemonBuffers)[s := daemonBuffers[s]]
      ensures w.issued == old(w).issued && old(w).started <= w.started
      ensures Taken(s, NextRequest(old(w), s))
    {
      hide Sound, Wired, Lawful, Progress, IndexOf;
      TakeRequest(codec, w, daemonBuffers, clientBuffers, s);
      BeginSound(w, next, working, pending, settled, s);
      BeginProgress(w, working, pending, s);
      var buffer := daemonBuffers[s];
      var nl := IndexOf(buffer, NEWLINE);
      var line := buffer[..nl];
      daemonBuffers := daemonBuffers[s := buffer[nl + 1..]];
      var parsed := codec.parseRequest(line);
      w := Begin(w, s);
      if parsed.Some? {
        working := working + {(parsed.value, s)};
        if parsed.value.operation !in operations {
          Finish(s, parsed.value, UnknownMethod(parsed.value));
        }
      }
    }

    /** A handler ends, whenever it does, and its reply is written to the connection the request came in on. */
    method Finish(s: Sock, r: Request, outcome: Outcome)
      requires Consistent() && (r, s) in working && (r.operation in operations || outcome == UnknownMethod(r))
      modifies `working, `w
      ensures Consistent() && w == Reply(old(w), s, Response(r.id, outcome)) && working == old(working) - {(r, s)}
      ensures w.links.Keys == old(w).links.Keys
      ensures r.id in w.issued && w.issued[r.id] == (r, s) && r.id !in old(w).answered
    {
      hide Sound, Wired, Lawful, Progress, Reply;
      ReplySound(w, next, working, pending, settled, s, r, outcome);
      ReplyWired(codec, w, daemonBuffers, clientBuffers, s, Response(r.id, outcome));
      SeenInRange(codec, w.links, daemonBuffers, clientBuffers, s);
      ReplyProgress(w, working, pending, s, r, outcome);
      working := working - {(r, s)};
      ReplyIssues(w, s, Response(r.id, outcome));
      w := Reply(w, s, Response(r.id, outcome));
    }

    /** What was settled stays so, and anything newly settled is a call of that connection, by its own answer. */
    twostate predicate SettlesOnly(s: Sock)
      reads this
    {
      && old(settled).Keys <= settled.Keys
      && (forall id :: id in old(settled) ==> settled[id] == old(settled)[id])
      && forall id :: id in settled && id !in old(settled) ==> OwnAnswer(id, s)
    }

    ghost predicate OwnAnswer(id: nat, s: Sock)
      requires id in settled
      reads this
    {
      id in w.issued && w.issued[id].1 == s && id in w.answered && settled[id] == Answered(w.answered[id])
    }

    /** A chunk reaches the session, on the connection in use or on an old one. */
    method ClientData(s: Sock, chunk: Str)
      requires Valid() && s in w.links && NextDown(codec, w.links[s], chunk)
      modifies `clientBuffers, `pending, `settled, `w
      ensures Valid() && SettlesOnly(s) && w.issued == old(w).issued && w.answered == old(w).answered
      ensures s in w.links && w.links[s].replied == old(w).links[s].replied
      ensures w.links[s].repliedRead == old(w).links[s].repliedRead + |chunk|
      ensures forall i :: 0 <= i && Complete(Responses(codec, w.links[s].replied), i, w.links[s].repliedRead) ==>
        w.links[s].replied[i].id in settled
    {
      hide Sound, Wired, Lawful, Progress, NextDown, IndexOf, Complete;
      DownWired(codec, w, daemonBuffers, clientBuffers, s, chunk);
      ArriveSound(w, next, working, pending, settled, s, |chunk|);
      ArriveProgress(w, working, pending, s, |chunk|);
      clientBuffers := clientBuffers[s := clientBuffers[s] + chunk];
      w := ArrivedDown(w, s, |chunk|);
      while NEWLINE in clientBuffers[s]
        invariant Consistent() && s in w.links && s in clientBuffers
        invariant forall t :: t in clientBuffers && t != s ==> OneLine(clientBuffers[t])
        invariant SettlesOnly(s) && w.issued == old(w).issued && w.answered == old(w).answered
        invariant w.links[s].replied == old(w).links[s].replied
        invariant w.links[s].repliedRead == old(w).links[s].repliedRead + |chunk|
        decreases |clientBuffers[s]|
      {
        ClientLine(s);
      }
      CompleteIsSettled(s);
    }

    /** One line at the session: it settles the waiter of its id, if there is one. */
    method ClientLine(s: Sock)
      requires Consistent() && s in w.links && s in clientBuffers && NEWLINE in clientBuffers[s]
      modifies `clientBuffers, `pending, `settled, `w
      ensures Consistent() && s in w.links && s in clientBuffers && |clientBuffers[s]| < |old(clientBuffers)[s]|
      ensures clientBuffers == old(clientBuffers)[s := clientBuffers[s]]
      ensures SettlesOnly(s) && w.issued == old(w).issued && w.answered == old(w).answered
      ensures w == Seen(old(w), s) && NextReply(old(w), s).id in settled
    {
      hide Sound, Wired, Lawful, Progress, IndexOf;
      AnswersAt(w, next, working, pending, settled, s);
      TakeReply(codec, w, daemonBuffers, clientBuffers, s);
      SeenSound(w, next, working, pending, settled, s);
      SeenProgress(w, working, pending, s);
      ghost var id := NextReply(w, s).id;
      KnownIsPendingOrSettled(w, next, working, pending, settled, id);
      assert id !in pending ==> pending - {id} == pending;
      hide Answers;
      var buffer := clientBuffers[s];
      var nl := IndexOf(buffer, NEWLINE);
      var line := buffer[..nl];
      clientBuffers := clientBuffers[s := buffer[nl + 1..]];
      var parsed := codec.parseResponse(line);
      w := Seen(w, s);
      if parsed.Some? && parsed.value.id in pending {
        var x := Settlement.Answered(parsed.value.outcome);
        SettleSound(w, next, working, pending, settled, parsed.value.id, x);
        pending := pending - {parsed.value.id};
        settled := settled[parsed.value.id := x];
      }
    }

    /** Every reply whose line has arrived whole has settled its call. */
    lemma CompleteIsSettled(s: Sock)
      requires Valid() && s in w.links
      ensures forall i :: 0 <= i && Complete(Responses(codec, w.links[s].replied), i, w.links[s].repliedRead) ==>
        w.links[s].replied[i].id in settled
    {
      hide Sound, Wired, Lawful, Written;
      var l := w.links[s];
      WiredAt(codec, w.links, daemonBuffers, clientBuffers, s);
      forall i | 0 <= i && Complete(Responses(codec, l.replied), i, l.repliedRead) ensures l.replied[i].id in settled {
        CompleteIsDone(Responses(codec, l.replied), l.repliedRead, l.seen, clientBuffers[s], i);
        assert Heard(w, pending, s);
        RepliedIsKnown(w, next, working, pending, settled, s, i);
      }
    }

    /**
     * `close` or `error` on a connection: only the one in use declares the line dead, and fails whatever waits. So
     * the calls that wait on the connection that closes are rejected exactly when it is the one in use.
     */
    method Close(s: Sock, why: Str)
      requires Valid()
      modifies `live, `pending, `settled
      ensures Valid() && (s != socket ==> live == old(live) && pending == old(pending) && settled == old(settled))
      ensures s == socket ==> !live && pending == {} && LosesOnly(why)
      ensures forall id :: id in old(pending) && WaitsOn(id, s) ==> (Rejected(id, why) <==> s == socket)
    {
      hide Sound, Wired, Lawful, Progress;
      PendingIsNotSettled(w, next, working, pending, settled);
      if s == socket {
        Fail(why);
      }
    }

    /** The call went out on that connection. */
    ghost predicate WaitsOn(id: nat, s: Sock)
      reads this`w
    {
      id in w.issued && w.issued[id].1 == s
    }

    predicate Rejected(id: nat, why: Str)
      reads this`settled
    {
      id in settled && settled[id] == Lost(why)
    }

    /** Nothing settled changes, and what waited and waits no more is lost. */
    twostate predicate LosesOnly(why: Str)
      reads this
    {
      && (forall id :: id in old(settled) ==> id in settled && settled[id] == old(settled)[id])
      && (forall id :: id in old(pending) && id !in pending ==> id in settled && settled[id] == Lost(why))
      && forall id :: id in settled ==> id in old(settled) || id in old(pending)
    }

    method Fail(why: Str)
      requires Valid()
      modifies `live, `pending, `settled
      ensures Valid() && !live && pending == {} && LosesOnly(why)
    {
      hide Sound, Wired, Lawful, Progress;
      live := false;
      while pending != {}
        invariant Valid() && pending <= old(pending) && !live && LosesOnly(why)
        decreases pending
      {
        var id :| id in pending;
        SettleSound(w, next, working, pending, settled, id, Lost(why));
        FewerWait(w, working, pending, pending - {id});
        pending := pending - {id};
        settled := settled[id := Lost(why)];
      }
    }

    /** A write that could not go out rejects its call, unless it is settled already. */
    method WriteFailed(id: nat, why: Str)
      requires Valid() && id in w.issued
      modifies `pending, `settled
      ensures Valid() && id in settled && pending == old(pending) - {id}
      ensures settled == if id in old(settled) then old(settled) else old(settled)[id := Lost(why)]
    {
      hide Wired, Lawful, Numbered, Carries, Answers, Runs, Progress;
      if id in pending {
        SettleSound(w, next, working, pending, settled, id, Lost(why));
        FewerWait(w, working, pending, pending - {id});
        pending := pending - {id};
        settled := settled[id := Lost(why)];
      }
    }
  }

  /** A line that closed, and two calls that found it down and connect at once. */
  method TwoConnect(codec: Codec, operations: set<Str>, why: Str) returns (l: DaemonLink)
    requires Lawful(codec)
    ensures fresh(l) && l.Valid() && l.connecting == 2 && l.cleared == 0
    ensures l.w == World(map[0 := NEW_LINK], map[], {}, map[])
  {
    hide *;
    l := new DaemonLink(codec, operations, 0, true);
    l.Close(0, why);
    var first := l.Ready();
    var second := l.Ready();
  }

  /**
   * The first of the two calls goes out on its connection, the second replaces that connection, and when the
   * replaced one closes the first call goes on waiting, on a line that is dead.
   */
  method StrandedCall(codec: Codec, operations: set<Str>, operation: Str, args: Str, why: Str)
    returns (l: DaemonLink, id: nat)
    requires Lawful(codec)
    ensures fresh(l) && l.Valid() && l.live && l.socket == 2
    ensures id in l.pending && id in l.w.issued && l.w.issued[id] == (Request(id, operation, args), 1)
  {
    hide Sound, Wired, Lawful, Progress;
    l := TwoConnect(codec, operations, why);
    l.Reconnect(1);
    id := l.Call(operation, args);
    l.Reconnect(2);
    l.Close(1, why);
  }
}
