/** The append-only message log, a reader's cursor over it, and the loop that hands messages over. */
module Inbox {
  import opened Options

  type Peer = string

  const MAX_MESSAGES: nat := 2000

  datatype Direction = In | Out
  datatype Message = Message(peerId: Peer, dir: Direction, text: string, ts: int, id: string)
  type Log = seq<Message>
  /** Per peer, the timestamp up to which its messages were shown. */
  type Cursor = map<Peer, int>

  function ReadAt(c: Cursor, p: Peer): int { if p in c then c[p] else 0 }

  predicate IsUnread(m: Message, c: Cursor) { m.dir == In && m.ts > ReadAt(c, m.peerId) }

  /** Inbound messages above the cursor, in log order. */
  function Unread(log: Log, c: Cursor): Log {
    if log == [] then []
    else if IsUnread(log[0], c) then [log[0]] + Unread(log[1..], c) else Unread(log[1..], c)
  }

  /** Move the cursor over one message. */
  function Past(c: Cursor, m: Message): Cursor {
    if m.ts > ReadAt(c, m.peerId) then c[m.peerId := m.ts] else c
  }

  /** The cursor after marking the messages read, one by one. */
  function Marked(c: Cursor, ms: Log): Cursor {
    if ms == [] then c else Past(Marked(c, ms[..|ms| - 1]), ms[|ms| - 1])
  }

  /** Inbound timestamps of one peer increase along the log. */
  ghost predicate Increasing(log: Log) {
    forall i, j :: 0 <= i < j < |log| && log[i].dir == In && log[j].dir == In && log[i].peerId == log[j].peerId ==>
      log[i].ts < log[j].ts
  }

  lemma {:induction false} UnreadAppend(a: Log, b: Log, c: Cursor)
    ensures Unread(a + b, c) == Unread(a, c) + Unread(b, c)
  {
    if a == [] {
      assert a + b == b;
    } else {
      assert (a + b)[1..] == a[1..] + b;
      UnreadAppend(a[1..], b, c);
    }
  }

  lemma {:induction false} UnreadSame(log: Log, c: Cursor, d: Cursor)
    requires forall i :: 0 <= i < |log| ==> (IsUnread(log[i], c) <==> IsUnread(log[i], d))
    ensures Unread(log, c) == Unread(log, d)
  {
    if log != [] {
      assert IsUnread(log[0], c) <==> IsUnread(log[0], d);
      forall i | 0 <= i < |log[1..]| ensures IsUnread(log[1..][i], c) <==> IsUnread(log[1..][i], d) {
        assert log[1..][i] == log[i + 1];
      }
      UnreadSame(log[1..], c, d);
    }
  }

  lemma {:induction false} UnreadNone(log: Log, c: Cursor)
    requires forall i :: 0 <= i < |log| ==> !IsUnread(log[i], c)
    ensures Unread(log, c) == []
  {
    if log != [] { UnreadNone(log[1..], c); }
  }

  lemma {:induction false} UnreadMember(log: Log, c: Cursor, m: Message)
    ensures m in Unread(log, c) <==> m in log && IsUnread(m, c)
  {
    if log != [] {
      UnreadMember(log[1..], c, m);
      assert log == [log[0]] + log[1..];
    }
  }

  /** Marking only moves the cursor forward, to the latest message marked. */
  lemma {:induction false} MarkedReaches(c: Cursor, ms: Log, p: Peer)
    ensures ReadAt(c, p) <= ReadAt(Marked(c, ms), p)
    ensures forall m :: m in ms && m.peerId == p ==> m.ts <= ReadAt(Marked(c, ms), p)
    ensures ReadAt(Marked(c, ms), p) == ReadAt(c, p) ||
      exists m :: m in ms && m.peerId == p && m.ts == ReadAt(Marked(c, ms), p)
  {
    if ms != [] {
      var k := |ms| - 1;
      MarkedReaches(c, ms[..k], p);
      assert ms == ms[..k] + [ms[k]];
    }
  }

  // ----- where a reader stands -----

  /** The cursor of a peer is still the starting one, or on an inbound message of it among the first `n`. */
  ghost predicate OnMessage(archive: Log, n: nat, start: Cursor, c: Cursor, p: Peer)
    requires n <= |archive|
  {
    && ReadAt(start, p) <= ReadAt(c, p)
    && (ReadAt(c, p) == ReadAt(start, p) ||
        exists i :: 0 <= i < n && archive[i].dir == In && archive[i].peerId == p && archive[i].ts == ReadAt(c, p))
  }

  /** The reader has dealt with the first `n` messages of the archive: none of them is unread any more. */
  ghost predicate StandsAt(archive: Log, n: nat, start: Cursor, c: Cursor) {
    && n <= |archive|
    && (forall i :: 0 <= i < n ==> !IsUnread(archive[i], c))
    && (forall p :: OnMessage(archive, n, start, c, p))
  }

  /** Of the later messages, exactly those above the starting cursor are unread. */
  lemma LaterIsUnread(archive: Log, n: nat, start: Cursor, c: Cursor, i: nat)
    requires StandsAt(archive, n, start, c) && Increasing(archive) && n <= i < |archive|
    ensures IsUnread(archive[i], c) <==> IsUnread(archive[i], start)
  {
    assert OnMessage(archive, n, start, c, archive[i].peerId);
  }

  /** What is unread is what lies above the starting cursor and past the first `n` messages. */
  lemma UnreadFrom(archive: Log, n: nat, k: nat, start: Cursor, c: Cursor)
    requires StandsAt(archive, n, start, c) && Increasing(archive) && n <= k <= |archive|
    ensures Unread(archive[..k], c) == Unread(archive[n..k], start)
    ensures Unread(archive[..k], start) == Unread(archive[..n], start) + Unread(archive[..k], c)
  {
    assert archive[..k] == archive[..n] + archive[n..k];
    UnreadAppend(archive[..n], archive[n..k], c);
    UnreadAppend(archive[..n], archive[n..k], start);
    UnreadNone(archive[..n], c);
    forall i | 0 <= i < k - n ensures IsUnread(archive[n..k][i], c) <==> IsUnread(archive[n..k][i], start) {
      LaterIsUnread(archive, n, start, c, n + i);
    }
    UnreadSame(archive[n..k], c, start);
  }

  /** Marking everything unread of the first `k` messages moves the reader to `k`. */
  lemma MarkingAdvances(archive: Log, n: nat, k: nat, start: Cursor, c: Cursor)
    requires StandsAt(archive, n, start, c) && n <= k <= |archive|
    ensures StandsAt(archive, k, start, Marked(c, Unread(archive[..k], c)))
  {
    var batch := Unread(archive[..k], c);
    var d := Marked(c, batch);
    forall i | 0 <= i < k ensures !IsUnread(archive[i], d) {
      MarkedReaches(c, batch, archive[i].peerId);
      UnreadMember(archive[..k], c, archive[i]);
      assert archive[..k][i] == archive[i];
    }
    forall p ensures OnMessage(archive, k, start, d, p) { MarkingOnMessage(archive, n, k, start, c, p); }
  }

  lemma MarkingOnMessage(archive: Log, n: nat, k: nat, start: Cursor, c: Cursor, p: Peer)
    requires n <= k <= |archive| && OnMessage(archive, n, start, c, p)
    ensures OnMessage(archive, k, start, Marked(c, Unread(archive[..k], c)), p)
  {
    var batch := Unread(archive[..k], c);
    var d := Marked(c, batch);
    MarkedReaches(c, batch, p);
    if ReadAt(d, p) != ReadAt(c, p) {
      var m :| m in batch && m.peerId == p && m.ts == ReadAt(d, p);
      UnreadMember(archive[..k], c, m);
      var j :| 0 <= j < k && archive[..k][j] == m;
      assert archive[j] == m;
    }
  }

  /** Lines that are read may leave the front of the log without changing what is unread. */
  lemma DroppedRead(archive: Log, d: nat, k: nat, c: Cursor)
    requires d <= k <= |archive| && forall i :: 0 <= i < d ==> !IsUnread(archive[i], c)
    ensures Unread(archive[d..k], c) == Unread(archive[..k], c)
  {
    assert archive[..k] == archive[..d] + archive[d..k];
    UnreadAppend(archive[..d], archive[d..k], c);
    UnreadNone(archive[..d], c);
  }

  // ----- the inbox of one reader -----

  /** A peer without a position stands at zero, and positions only go up. */
  ghost predicate FromZero(c: Cursor) { forall p :: 0 <= ReadAt(c, p) }

  /** No position in the files is past the one held. */
  ghost predicate NotAhead(files: seq<Cursor>, c: Cursor) {
    forall f, p :: f in files && p in f ==> f[p] <= ReadAt(c, p)
  }

  /** The later of the position in a file and one held. */
  function Later(f: Cursor, at: int, p: Peer): int {
    if p in f && f[p] > at then f[p] else at
  }

  /** The latest of the position held and those in the files. */
  function Latest(files: seq<Cursor>, c: Cursor, p: Peer): int {
    if files == [] then ReadAt(c, p) else Later(files[|files| - 1], Latest(files[..|files| - 1], c, p), p)
  }

  /** The latest is that of the files and what is held, and is one of them. */
  lemma {:induction false} LatestIsNotBehind(files: seq<Cursor>, c: Cursor, p: Peer)
    ensures ReadAt(c, p) <= Latest(files, c, p)
    ensures forall f :: f in files && p in f ==> f[p] <= Latest(files, c, p)
    ensures Latest(files, c, p) == ReadAt(c, p) || exists f :: f in files && p in f && f[p] == Latest(files, c, p)
  {
    if files != [] {
      LatestIsNotBehind(files[..|files| - 1], c, p);
      assert files == files[..|files| - 1] + [files[|files| - 1]];
    }
  }

  class Inbox {
    /** On disk: the log that every session shares, and this reader's cursor, if it has one. */
    var log: Log
    var cursor: Option<Cursor>
    /** Cursors that this reader left under its older names. */
    const legacy: seq<Cursor>
    /** In memory. */
    var messages: Log
    var readAt: Cursor

    /** The cursor files that count: the older ones only while there is none under this name. */
    function Files(): seq<Cursor>
      reads this`cursor
    {
      if cursor.Some? then [cursor.value] else legacy
    }

    /** `load`: start from what is on disk. */
    constructor (log: Log, cursor: Option<Cursor>, legacy: seq<Cursor>)
      ensures this.log == log && this.cursor == cursor && this.legacy == legacy && messages == log
      ensures NotAhead(Files(), readAt) && forall p :: ReadAt(readAt, p) == Latest(Files(), map[], p)
      ensures FromZero(readAt)
    {
      this.log, this.cursor, this.legacy, messages, readAt := log, cursor, legacy, log, map[];
      new;
      MergeCursors();
      forall p ensures 0 <= ReadAt(readAt, p) { LatestIsNotBehind(Files(), map[], p); }
    }

    /** The first half of `refresh`: a log that cannot be read reads as empty. */
    method ReadLog(readable: bool)
      modifies this`messages
      ensures messages == if readable then log else []
    {
      messages := if readable then log else [];
    }

    /** The second half: take the latest of what is held and what is on disk. */
    method MergeCursors()
      modifies this`readAt
      ensures forall p :: ReadAt(readAt, p) == Latest(Files(), old(readAt), p)
      ensures NotAhead(Files(), readAt)
      ensures NotAhead(Files(), old(readAt)) ==> readAt == old(readAt)
    {
      hide Latest;
      var files := Files();
      NothingLater(readAt);
      for i := 0 to |files|
        invariant forall p :: ReadAt(readAt, p) == Latest(files[..i], old(readAt), p)
        invariant NotAhead(files, old(readAt)) ==> readAt == old(readAt)
      {
        assert files[..i + 1][..i] == files[..i];
        LatestNext(files, i, old(readAt));
        Merge(files[i]);
      }
      assert files[..|files|] == files;
      forall p ensures forall f :: f in files && p in f ==> f[p] <= ReadAt(readAt, p) {
        LatestIsNotBehind(files, old(readAt), p);
      }
    }

    /** One cursor file; a cursor only moves forward. */
    method Merge(f: Cursor)
      modifies this`readAt
      ensures forall p :: ReadAt(readAt, p) == Later(f, ReadAt(old(readAt), p), p)
      ensures NotAhead([f], old(readAt)) ==> readAt == old(readAt)
    {
      var todo := f.Keys;
      while todo != {}
        invariant todo <= f.Keys
        invariant forall p :: p in todo ==> ReadAt(readAt, p) == ReadAt(old(readAt), p)
        invariant forall p :: p !in todo ==> ReadAt(readAt, p) == Later(f, ReadAt(old(readAt), p), p)
        invariant NotAhead([f], old(readAt)) ==> readAt == old(readAt)
        decreases todo
      {
        var p :| p in todo;
        assert NotAhead([f], old(readAt)) && f in [f] ==> f[p] <= ReadAt(old(readAt), p);
        if f[p] > ReadAt(readAt, p) { readAt := readAt[p := f[p]]; }
        todo := todo - {p};
      }
    }

    /** `markRead` up to its file write: everything unread becomes read. */
    method MarkInMemory()
      modifies this`readAt
      ensures readAt == Marked(old(readAt), Unread(messages, old(readAt)))
    {
      var unread := Unread(messages, readAt);
      for i := 0 to |unread|
        invariant readAt == Marked(old(readAt), unread[..i])
      {
        assert unread[..i + 1][..i] == unread[..i];
        readAt := Past(readAt, unread[i]);
      }
      assert unread[..|unread|] == unread;
    }

    method PersistCursor()
      modifies this`cursor
      ensures cursor == Some(readAt)
    {
      cursor := Some(readAt);
    }

    /** `add` while nobody else writes: an id is recorded once, at the end, and lines over the limit go at the front. */
    method Add(m: Message) returns (added: bool)
      modifies this
      ensures added <==> !exists x :: x in old(log) && x.id == m.id
      ensures added ==>
        var over := if |old(log)| + 1 > MAX_MESSAGES then |old(log)| + 1 - MAX_MESSAGES else 0;
        log == old(log)[over..] + [m] && |log| <= MAX_MESSAGES
      ensures !added ==> log == old(log)
      ensures messages == log && cursor == old(cursor)
      ensures forall p :: ReadAt(readAt, p) == Latest(Files(), old(readAt), p)
    {
      hide Latest, NotAhead;
      ReadLog(true);
      MergeCursors();
      if exists x :: x in messages && x.id == m.id {
        return false;
      }
      messages := messages + [m];
      log := log + [m];
      if |messages| > MAX_MESSAGES {
        var keep := messages[|messages| - MAX_MESSAGES..];
        log := keep;
        messages := keep;
      }
      return true;
    }
  }

  lemma NothingLater(c: Cursor)
    ensures forall p :: Latest([], c, p) == ReadAt(c, p)
  {
  }

  lemma LatestNext(files: seq<Cursor>, i: nat, c: Cursor)
    requires i < |files|
    ensures forall p :: Latest(files[..i + 1], c, p) == Later(files[i], Latest(files[..i], c, p), p)
    ensures NotAhead(files, c) ==> NotAhead([files[i]], c)
  {
    assert files[..i + 1][..i] == files[..i];
  }

  // ----- the delivery loop -----

  /** Where a running check waits. */
  datatype Phase = ReadingLog | ReadingCursor | Handling(batch: Log) | Persisting

  class Watcher {
    const inbox: Inbox
    var busy: bool
    var again: bool
    var stopped: bool
    /** The checks that are under way; one starts whenever `check` gets past its flag. */
    var running: seq<Phase>
    /** Every line ever logged, how many have been compacted away, and where the reader stands. */
    ghost var archive: Log
    ghost var dropped: nat
    ghost var stand: nat
    ghost var seen: nat
    ghost const start: Cursor
    /** What handlers were given, and what they took. */
    ghost var handed: seq<Log>
    ghost var accepted: Log

    ghost predicate Valid()
      reads this, inbox
    {
      && |running| == (if busy then 1 else 0)
      && dropped <= |archive| && inbox.log == archive[dropped..] && Increasing(archive)
      && (forall i :: 0 <= i < dropped ==> !IsUnread(archive[i], inbox.readAt))
      && NotAhead(inbox.Files(), inbox.readAt)
      && StandsAt(archive, stand, start, inbox.readAt) && FromZero(start)
      && accepted == Unread(archive[..stand], start)
      && forall k :: 0 <= k < |running| ==> Waits(running[k])
    }

    /** What a waiting check relies on. */
    ghost predicate Waits(at: Phase)
      reads this, inbox
    {
      && (at.ReadingCursor? || at.Handling? ==> Snapshot())
      && (at.Handling? ==> at.batch == Unread(inbox.messages, inbox.readAt) != [])
    }

    /** What this reader holds in memory is the log as it was, or nothing. */
    ghost predicate Snapshot()
      reads this, inbox
    {
      inbox.messages == [] ||
      (stand <= seen <= |archive| && Unread(inbox.messages, inbox.readAt) == Unread(archive[..seen], inbox.readAt))
    }

    constructor (inbox: Inbox)
      requires Increasing(inbox.log) && NotAhead(inbox.Files(), inbox.readAt) && FromZero(inbox.readAt)
      ensures Valid() && this.inbox == inbox && !busy && !again && !stopped && accepted == [] && handed == []
      ensures start == inbox.readAt && archive == inbox.log
    {
      this.inbox := inbox;
      busy, again, stopped, running := false, false, false, [];
      archive, dropped, stand, seen := inbox.log, 0, 0, 0;
      start := inbox.readAt;
      handed, accepted := [], [];
    }

    /** Deliveries never overlap: the flag lets no second check start. */
    lemma AtMostOneDelivery()
      requires Valid()
      ensures |running| <= 1
    {
    }

    /** What was taken and what is unread are together the inbound messages above the starting cursor, in log order. */
    lemma NothingLostOrRepeated()
      requires Valid()
      ensures accepted + Unread(archive, inbox.readAt) == Unread(archive, start)
      ensures Unread(inbox.log, inbox.readAt) == Unread(archive, inbox.readAt)
    {
      UnreadFrom(archive, stand, |archive|, start, inbox.readAt);
      DroppedRead(archive, dropped, |archive|, inbox.readAt);
      assert archive[..|archive|] == archive;
    }

    /** A message a handler is looking at is unread until the handler is done with it. */
    lemma HandledIsNext(k: nat)
      requires Valid() && k < |running| && running[k].Handling?
      ensures running[k].batch <= Unread(archive, inbox.readAt)
    {
      assert archive == archive[..seen] + archive[seen..];
      UnreadAppend(archive[..seen], archive[seen..], inbox.readAt);
    }

    // ----- the world outside -----

    /** Somebody appends a line. */
    method Append(m: Message)
      requires Valid() && Increasing(archive + [m])
      modifies this`archive, inbox`log
      ensures Valid() && archive == old(archive) + [m] && inbox.log == old(inbox.log) + [m]
    {
      hide Increasing, IsUnread, Unread, NotAhead;
      assert (archive + [m])[dropped..] == archive[dropped..] + [m];
      assert forall k :: 0 <= k <= |archive| ==> (archive + [m])[..k] == archive[..k];
      AppendKeeps(archive, stand, start, inbox.readAt, m);
      inbox.log := inbox.log + [m];
      archive := archive + [m];
    }

    /** A compaction rewrites the log with its newest lines; the ones it drops are read. */
    method Compact(lines: nat)
      requires Valid() && lines <= |inbox.log|
      requires forall i :: 0 <= i < lines ==> !IsUnread(inbox.log[i], inbox.readAt)
      modifies this`dropped, inbox`log
      ensures Valid() && inbox.log == old(inbox.log)[lines..]
    {
      hide Increasing, IsUnread, Unread, StandsAt, NotAhead;
      assert forall i :: dropped <= i < dropped + lines ==> archive[i] == inbox.log[i - dropped];
      inbox.log := inbox.log[lines..];
      dropped := dropped + lines;
    }

    // ----- one check -----

    /** The head of the loop: stand aside while paused, else look again. */
    method LoopHead(k: nat, paused: bool)
      requires Valid() && k < |running|
      modifies this`again, this`busy, this`running
      ensures Valid() && !again && busy == !paused && (busy ==> running == old(running)[k := ReadingLog])
    {
      again := false;
      if paused { Finish(k); } else { running := running[k := ReadingLog]; }
    }

    /** `finally`: the check is over. */
    method Finish(k: nat)
      requires Valid() && k < |running|
      modifies this`busy, this`running
      ensures Valid() && !busy
    {
      busy := false;
      running := running[..k] + running[k + 1..];
    }

    /** `check`: a trigger during a delivery is remembered, not handed to a second call. */
    method Check(paused: bool)
      requires Valid()
      modifies this`again, this`busy, this`running
      ensures Valid()
      ensures old(stopped) ==> unchanged(this)
      ensures !old(stopped) && old(busy) ==> busy && again && running == old(running)
      ensures !old(stopped) && !old(busy) ==> !again && busy == !paused && (busy ==> running == [ReadingLog])
    {
      if stopped {
        return;
      }
      if busy {
        again := true;
        return;
      }
      busy, running := true, running + [ReadingLog];
      LoopHead(|running| - 1, paused);
    }

    /** The log was read. */
    method LogRead(k: nat, readable: bool)
      requires Valid() && k < |running| && running[k] == ReadingLog
      modifies this`running, this`seen, inbox`messages
      ensures Valid() && running == old(running)[k := ReadingCursor]
      ensures inbox.messages == if readable then inbox.log else []
    {
      hide Increasing, IsUnread, NotAhead;
      inbox.ReadLog(readable);
      DroppedRead(archive, dropped, |archive|, inbox.readAt);
      assert archive[dropped..|archive|] == archive[dropped..];
      seen := |archive|;
      running := running[k := ReadingCursor];
    }

    /** The cursor was read: hand over what is unread, or finish when nothing is. */
    method CursorRead(k: nat)
      requires Valid() && k < |running| && running[k] == ReadingCursor
      modifies this`busy, this`running, this`handed, inbox`readAt
      ensures Valid() && inbox.readAt == old(inbox.readAt)
      ensures var unread := Unread(inbox.messages, inbox.readAt);
        if unread == [] then !busy && handed == old(handed)
        else busy && running == old(running)[k := Handling(unread)] && handed == old(handed) + [unread]
    {
      inbox.MergeCursors();
      var unread := Unread(inbox.messages, inbox.readAt);
      if unread == [] {
        Finish(k);
      } else {
        running := running[k := Handling(unread)];
        handed := handed + [unread];
      }
    }

    /** The handler resolved: everything it was given is marked read. */
    method HandlerDone(k: nat)
      requires Valid() && k < |running| && running[k].Handling?
      modifies this`running, this`stand, this`accepted, inbox`readAt
      ensures Valid() && running == old(running)[k := Persisting] && accepted == old(accepted) + old(running)[k].batch
      ensures inbox.readAt == Marked(old(inbox.readAt), old(running)[k].batch)
    {
      hide Increasing, IsUnread, NotAhead;
      ghost var c, n := inbox.readAt, seen;
      var batch := running[k].batch;
      assert Waits(running[k]);
      assert inbox.messages != [] by { assert Unread([], c) == []; }
      inbox.MarkInMemory();
      UnreadFrom(archive, stand, n, start, c);
      MarkingAdvances(archive, stand, n, start, c);
      MarkingKeeps(archive, dropped, inbox.Files(), c, batch);
      running := running[k := Persisting];
      accepted := accepted + batch;
      stand := n;
    }

    /** The handler threw: the cursor stays, so the same messages come again. */
    method HandlerThrew(k: nat)
      requires Valid() && k < |running| && running[k].Handling?
      modifies this`busy, this`running
      ensures Valid() && !busy && old(running)[k].batch <= Unread(archive, inbox.readAt)
    {
      HandledIsNext(k);
      Finish(k);
    }

    /** The cursor file was written, or not; then look again if something came in meanwhile. */
    method Persisted(k: nat, written: bool, paused: bool)
      requires Valid() && k < |running| && running[k] == Persisting
      modifies this`again, this`busy, this`running, inbox`cursor
      ensures Valid() && inbox.cursor == if written then Some(inbox.readAt) else old(inbox.cursor)
      ensures busy <==> written && old(again) && !stopped && !paused
      ensures busy ==> running == old(running)[k := ReadingLog]
      ensures !written ==> again == old(again)
    {
      if written {
        inbox.PersistCursor();
      }
      if written && again && !stopped { LoopHead(k, paused); } else { Finish(k); }
    }

    method Stop()
      requires Valid()
      modifies this`stopped
      ensures Valid() && stopped
    {
      stopped := true;
    }
  }

  // ----- from one session to the next -----

  /**
   * The next session of a reader whose cursor was written stands where this one stood: what this one took is not
   * unread in it, and what this one did not take is.
   */
  method NextSession(w: Watcher) returns (v: Watcher)
    requires w.Valid() && w.inbox.cursor == Some(w.inbox.readAt)
    ensures fresh(v) && fresh(v.inbox) && v.Valid() && v.inbox.log == w.inbox.log && v.accepted == []
    ensures Unread(v.inbox.messages, v.inbox.readAt) == Unread(w.archive, w.inbox.readAt)
    ensures w.accepted + Unread(v.archive, v.start) == Unread(w.archive, w.start)
  {
    hide Increasing, StandsAt, NotAhead, Unread, IsUnread, Latest, FromZero;
    w.NothingLostOrRepeated();
    var inbox := new Inbox(w.inbox.log, w.inbox.cursor, w.inbox.legacy);
    SuffixIncreasing(w.archive, w.dropped);
    SameStand(w.inbox.readAt, w.start, inbox.readAt, w.archive, w.stand);
    forall i | 0 <= i < |inbox.log| ensures IsUnread(inbox.log[i], inbox.readAt) <==>
                                            IsUnread(inbox.log[i], w.inbox.readAt) {
      SameUnread(inbox.log[i], inbox.readAt, w.inbox.readAt);
    }
    UnreadSame(inbox.log, inbox.readAt, w.inbox.readAt);
    v := new Watcher(inbox);
  }

  lemma SuffixIncreasing(log: Log, d: nat)
    requires d <= |log| && Increasing(log)
    ensures Increasing(log[d..])
  {
  }

  lemma SameUnread(m: Message, c: Cursor, d: Cursor)
    requires ReadAt(c, m.peerId) == ReadAt(d, m.peerId)
    ensures IsUnread(m, c) <==> IsUnread(m, d)
  {
  }

  /** What is read back from the cursor file is what was written. */
  lemma SameStand(c: Cursor, start: Cursor, d: Cursor, archive: Log, n: nat)
    requires FromZero(start) && StandsAt(archive, n, start, c)
    requires forall p :: ReadAt(d, p) == Latest([c], map[], p)
    ensures forall p :: ReadAt(d, p) == ReadAt(c, p)
  {
    forall p ensures ReadAt(d, p) == ReadAt(c, p) {
      assert OnMessage(archive, n, start, c, p) && [c][..0] == [] && Latest([], map[], p) == 0;
    }
  }

  // ----- when a remembered trigger is answered -----

  /**
   * The rest of a delivery, with triggers while the handler runs or the cursor is written and possibly a stop:
   * it looks again exactly when some trigger came, the handler did not throw, the cursor was written, and nobody
   * stopped or paused it.
   */
  method RestOfDelivery(w: Watcher, k: nat, during: bool, late: bool, threw: bool, written: bool, stops: bool,
                        paused: bool)
    requires w.Valid() && k < |w.running| && w.running[k].Handling?
    modifies w, w.inbox
    ensures w.Valid()
    ensures w.busy <==> (old(w.again) || during || late) && !threw && written && !paused && !stops && !old(w.stopped)
    ensures w.busy ==> w.running == old(w.running)[k := ReadingLog]
  {
    hide Increasing, StandsAt, NotAhead, Unread, IsUnread;
    if during { w.Check(paused); }
    if threw {
      w.HandlerThrew(k);
      return;
    }
    w.HandlerDone(k);
    if late { w.Check(paused); }
    if stops { w.Stop(); }
    w.Persisted(k, written, paused);
  }

  /**
   * The rest of a pass from the read log on: a trigger that came, before or during it, is answered by another
   * look exactly when there was something to deliver and the delivery ended well. Otherwise it is forgotten.
   */
  method RestOfPass(w: Watcher, k: nat, early: bool, during: bool, late: bool, threw: bool, written: bool, stops: bool,
                    paused: bool)
    requires w.Valid() && k < |w.running| && w.running[k] == ReadingCursor
    modifies w, w.inbox
    ensures w.Valid()
    ensures w.busy <==>
      && (old(w.again) || early || during || late) && Unread(old(w.inbox.messages), old(w.inbox.readAt)) != []
      && !threw && written && !paused && !stops && !old(w.stopped)
  {
    hide Increasing, StandsAt, NotAhead, Unread, IsUnread;
    if early { w.Check(paused); }
    w.CursorRead(k);
    if w.busy { RestOfDelivery(w, k, during, late, threw, written, stops, paused); }
  }

  /** A message announced while the handler runs is not looked for when that handler throws. */
  method TriggerWhileHandlerThrows(w: Watcher, k: nat, m: Message)
    requires w.Valid() && k < |w.running| && w.running[k].Handling? && !w.stopped
    requires Increasing(w.archive + [m]) && IsUnread(m, w.inbox.readAt)
    modifies w`archive, w`again, w`busy, w`running, w.inbox`log
    ensures w.Valid() && !w.busy && w.again && m in Unread(w.inbox.log, w.inbox.readAt)
  {
    hide Increasing, StandsAt, NotAhead, Unread, IsUnread;
    w.Append(m);
    assert m in w.inbox.log;
    w.Check(false);
    w.HandlerThrew(k);
    UnreadMember(w.inbox.log, w.inbox.readAt, m);
  }

  /** Nor when the handler is done and the cursor cannot be written. */
  method TriggerBeforeFailedWrite(w: Watcher, k: nat, m: Message)
    requires w.Valid() && k < |w.running| && w.running[k].Handling? && !w.stopped
    requires Increasing(w.archive + [m]) && IsUnread(m, Marked(w.inbox.readAt, w.running[k].batch))
    modifies w, w.inbox
    ensures w.Valid() && !w.busy && w.again && m in Unread(w.inbox.log, w.inbox.readAt)
  {
    hide Increasing, StandsAt, NotAhead, Unread, IsUnread, Marked;
    w.Append(m);
    assert m in w.inbox.log;
    w.Check(false);
    w.HandlerDone(k);
    w.Persisted(k, false, false);
    UnreadMember(w.inbox.log, w.inbox.readAt, m);
  }

  /** Nor when its trigger falls between reading the log and finding nothing in it. */
  method TriggerDuringEmptyRead(w: Watcher, k: nat, m: Message)
    requires w.Valid() && k < |w.running| && w.running[k] == ReadingCursor && !w.stopped
    requires Unread(w.inbox.messages, w.inbox.readAt) == []
    requires Increasing(w.archive + [m]) && IsUnread(m, w.inbox.readAt)
    modifies w, w.inbox
    ensures w.Valid() && !w.busy && w.again && m in Unread(w.inbox.log, w.inbox.readAt)
  {
    hide Increasing, StandsAt, NotAhead, Unread, IsUnread;
    w.Append(m);
    assert m in w.inbox.log;
    w.Check(false);
    w.CursorRead(k);
    UnreadMember(w.inbox.log, w.inbox.readAt, m);
  }

  lemma NoCursor(c: Cursor, m: Message, n: Message)
    requires forall p :: ReadAt(c, p) == Latest([], map[], p)
    requires m.dir == In && n.dir == In && 0 < m.ts < n.ts
    ensures Increasing([m]) && Increasing([m] + [n]) && IsUnread(m, c) && IsUnread(n, c)
  {
    assert Latest([], map[], m.peerId) == 0 && Latest([], map[], n.peerId) == 0;
  }

  /** A reader without a cursor is handed the one message of its log. */
  method FirstDelivery(inbox: Inbox, m: Message) returns (w: Watcher)
    requires inbox.log == [m] && Increasing(inbox.log) && NotAhead(inbox.Files(), inbox.readAt)
    requires IsUnread(m, inbox.readAt) && FromZero(inbox.readAt)
    modifies inbox`messages, inbox`readAt
    ensures fresh(w) && w.inbox == inbox && inbox.readAt == old(inbox.readAt) && w.Valid() && !w.stopped
    ensures w.archive == [m] && |w.running| == 1 && w.running[0].Handling? && w.running[0].batch == [m]
  {
    hide *;
    OneUnread(m, inbox.readAt);
    w := new Watcher(inbox);
    w.Check(false);
    w.LogRead(0, true);
    w.CursorRead(0);
  }

  /** Such a run from the start: the second message is announced while the handler of the first runs and throws. */
  method ForgottenTrigger(first: Message, second: Message) returns (w: Watcher)
    requires first.dir == In && second.dir == In && 0 < first.ts < second.ts
    ensures w.Valid() && !w.busy && w.again && !w.stopped && second in Unread(w.inbox.log, w.inbox.readAt)
  {
    hide Increasing, StandsAt, NotAhead, Unread, IsUnread, Latest;
    var inbox := new Inbox([first], None, []);
    NoCursor(inbox.readAt, first, second);
    w := FirstDelivery(inbox, first);
    TriggerWhileHandlerThrows(w, 0, second);
  }

  lemma OneUnread(m: Message, c: Cursor)
    requires IsUnread(m, c)
    ensures Unread([m], c) == [m]
  {
    assert [m][1..] == [] && Unread([], c) == [];
  }

  /** One more line does not change where the reader stands. */
  lemma AppendKeeps(archive: Log, n: nat, start: Cursor, c: Cursor, m: Message)
    requires StandsAt(archive, n, start, c)
    ensures StandsAt(archive + [m], n, start, c)
  {
    forall p ensures OnMessage(archive + [m], n, start, c, p) {
      assert OnMessage(archive, n, start, c, p);
      if ReadAt(c, p) != ReadAt(start, p) {
        var i :| 0 <= i < n && archive[i].dir == In && archive[i].peerId == p && archive[i].ts == ReadAt(c, p);
        assert (archive + [m])[i] == archive[i];
      }
    }
  }

  /** Marking leaves read what was read, and the file behind the memory. */
  lemma MarkingKeeps(archive: Log, d: nat, files: seq<Cursor>, c: Cursor, batch: Log)
    requires d <= |archive| && NotAhead(files, c) && forall i :: 0 <= i < d ==> !IsUnread(archive[i], c)
    ensures NotAhead(files, Marked(c, batch)) && forall i :: 0 <= i < d ==> !IsUnread(archive[i], Marked(c, batch))
  {
    forall p ensures ReadAt(c, p) <= ReadAt(Marked(c, batch), p) { MarkedReaches(c, batch, p); }
  }
}
