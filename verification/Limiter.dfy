/** The hub's sliding-window rate limit per (from, to) pair, with pruning and a purge of idle pairs. */
module Limiter {
  import opened Text

  const WINDOW_MS := 60000
  const PURGE_ABOVE := 4096

  type Stamps = seq<int>

  function PairKey(from: Str, to: Str): Str { from + ['>' as int] + to }

  /** Distinct pairs have distinct windows, since an instance id holds no separator. */
  lemma PairKeyInjective(from: Str, to: Str, from': Str, to': Str)
    requires '>' as int !in from && '>' as int !in from' && PairKey(from, to) == PairKey(from', to')
    ensures from == from' && to == to'
  {
    SplitAtSeparator(from, from', to, to', '>' as int);
  }

  /** `filter((t) => now - t < 60_000)`. */
  function Recent(ts: Stamps, now: int): (r: Stamps)
    ensures |r| <= |ts|
  {
    if ts == [] then []
    else if now - ts[0] < WINDOW_MS then [ts[0]] + Recent(ts[1..], now)
    else Recent(ts[1..], now)
  }

  function Window(windows: map<Str, Stamps>, key: Str): Stamps {
    if key in windows then windows[key] else []
  }

  // ----- the limiter that forgets nothing -----

  /** Every stamp that was ever let through, per pair. */
  type History = map<Str, Stamps>

  function FullAllows(h: History, key: Str, now: int, max: int): bool {
    |Recent(Window(h, key), now)| < max
  }

  function FullNext(h: History, key: Str, now: int, max: int): History {
    if FullAllows(h, key, now, max) then h[key := Window(h, key) + [now]] else h
  }

  predicate Ordered(ts: Stamps, now: int) {
    (forall i, j :: 0 <= i < j < |ts| ==> ts[i] <= ts[j]) && forall i :: 0 <= i < |ts| ==> ts[i] <= now
  }

  ghost predicate OrderedHistory(h: History, now: int) {
    forall k :: k in h ==> Ordered(h[k], now)
  }

  /**
   * The windows hold what the full history holds of the last minute. What the limiter has dropped is
   * too old to count at `now` or at any later time.
   */
  ghost predicate Agrees(windows: map<Str, Stamps>, h: History, now: int) {
    forall k :: k in windows || k in h ==>
      Ordered(Window(windows, k), now) && SameRecent(Window(windows, k), Window(h, k), now)
  }

  /** The shorter list is the longer one without a head that is out of the window. */
  ghost predicate SameRecent(kept: Stamps, all: Stamps, now: int) {
    && |kept| <= |all| && kept == all[|all| - |kept|..]
    && forall i :: 0 <= i < |all| - |kept| ==> now - all[i] >= WINDOW_MS
  }

  lemma {:induction false} RecentIsTail(all: Stamps, now: int)
    requires Ordered(all, now)
    ensures SameRecent(Recent(all, now), all, now)
    ensures |Recent(all, now)| < |all| ==> now - all[0] >= WINDOW_MS
  {
    if all != [] { RecentIsTail(all[1..], now); }
  }

  /** What was dropped too old stays too old. */
  lemma {:induction false} RecentOfKept(kept: Stamps, all: Stamps, since: int, now: int)
    requires SameRecent(kept, all, since) && since <= now
    ensures Recent(kept, now) == Recent(all, now)
    decreases |all|
  {
    if |kept| < |all| {
      assert now - all[0] >= WINDOW_MS;
      RecentOfKept(kept, all[1..], since, now);
    }
  }

  /** One more stamp keeps the windows and the history in step. */
  lemma SameRecentPush(kept: Stamps, all: Stamps, now: int)
    requires SameRecent(kept, all, now)
    ensures SameRecent(kept + [now], all + [now], now)
  {
  }

  lemma AgreesLater(windows: map<Str, Stamps>, h: History, since: int, now: int)
    requires OrderedHistory(h, since) && Agrees(windows, h, since) && since <= now
    ensures OrderedHistory(h, now) && Agrees(windows, h, now)
  {
  }

  predicate Idle(ts: Stamps, now: int) {
    ts == [] || now - ts[|ts| - 1] > WINDOW_MS
  }

  lemma NoStampsOrdered(now: int)
    ensures Ordered([], now)
  {
  }

  lemma IdleIsStale(kept: Stamps, all: Stamps, now: int)
    requires SameRecent(kept, all, now) && Ordered(kept, now) && Idle(kept, now)
    ensures SameRecent([], all, now)
  {
  }

  /** A window whose last stamp is too old may be forgotten. */
  lemma ForgetIdle(windows: map<Str, Stamps>, h: History, now: int, k: Str)
    requires Agrees(windows, h, now) && k in windows
    requires Idle(windows[k], now)
    ensures Agrees(windows - {k}, h, now)
  {
    hide Ordered, SameRecent, Idle;
    var rest := windows - {k};
    assert Window(windows, k) == windows[k];
    IdleIsStale(windows[k], Window(h, k), now);
    NoStampsOrdered(now);
    forall j | j in rest || j in h
      ensures Ordered(Window(rest, j), now) && SameRecent(Window(rest, j), Window(h, j), now)
    {
      assert j != k ==> Window(rest, j) == Window(windows, j);
    }
  }

  lemma NoneIdle(windows: map<Str, Stamps>, now: int)
    requires forall k :: k in windows ==> !Idle(windows[k], now)
    ensures forall k :: k in windows ==> windows[k] != [] && now - windows[k][|windows[k]| - 1] <= WINDOW_MS
  {
  }

  class RelayLimiter {
    var windows: map<Str, Stamps>
    ghost var history: History
    ghost var clock: int

    ghost predicate Valid()
      reads this
    {
      OrderedHistory(history, clock) && Agrees(windows, history, clock)
    }

    constructor (ghost start: int)
      ensures Valid() && windows == map[] && history == map[] && clock == start
    {
      windows, history, clock := map[], map[], start;
    }

    /** Forget the pairs whose last stamp is out of the window. */
    method Purge(now: int)
      requires Valid() && clock <= now
      modifies this
      ensures Valid() && clock == now && history == old(history)
      ensures windows.Keys <= old(windows).Keys
      ensures forall k :: k in windows ==> windows[k] == old(windows)[k] && windows[k] != []
      ensures forall k :: k in windows ==> now - windows[k][|windows[k]| - 1] <= WINDOW_MS
      ensures forall k :: k in old(windows) && !Idle(old(windows)[k], now) ==> k in windows
    {
      hide Agrees, OrderedHistory, Idle;
      AgreesLater(windows, history, clock, now);
      clock := now;
      var todo := windows.Keys;
      while todo != {}
        invariant Valid() && clock == now && history == old(history)
        invariant todo <= windows.Keys <= old(windows).Keys
        invariant forall k :: k in windows ==> windows[k] == old(windows)[k]
        invariant forall k :: k in windows && k !in todo ==> !Idle(windows[k], now)
        invariant forall k :: k in old(windows) && !Idle(old(windows)[k], now) ==> k in windows
        decreases todo
      {
        var k :| k in todo;
        if Idle(windows[k], now) {
          ForgetIdle(windows, history, now, k);
          windows := windows - {k};
        }
        todo := todo - {k};
      }
      NoneIdle(windows, now);
    }

    /** `relayPairAllow`: decides as the limiter that keeps the full history. */
    method RelayPairAllow(from: Str, to: Str, maxPerMinute: int, now: int) returns (allowed: bool)
      requires Valid() && clock <= now
      modifies this
      ensures Valid() && clock == now
      ensures allowed == FullAllows(old(history), PairKey(from, to), now, maxPerMinute)
      ensures history == FullNext(old(history), PairKey(from, to), now, maxPerMinute)
      ensures Tidied(old(windows), windows, PairKey(from, to), now)
    {
      hide Agrees, OrderedHistory, Idle, PairKey, Recent, Ordered, SameRecent, Tidied;
      var key := PairKey(from, to);
      if |windows| > PURGE_ABOVE {
        Purge(now);
      } else {
        AgreesLater(windows, history, clock, now);
        clock := now;
      }
      SetTidies(old(windows), windows, key, now);
      WindowDecides(windows, history, key, now);
      var win := Recent(Window(windows, key), now);
      if |win| >= maxPerMinute {
        AgreesSet(windows, history, key, win, Window(history, key), now);
        windows := windows[key := win];
        return false;
      }
      var all := Window(history, key) + [now];
      SameRecentPush(win, Window(history, key), now);
      HistoryPush(history, key, now);
      OrderedPush(win, now);
      AgreesSet(windows, history, key, win + [now], all, now);
      windows := windows[key := win + [now]];
      history := history[key := all];
      return true;
    }
  }

  /**
   * What a message does to the windows of other pairs: nothing up to 4096 pairs, and above that it forgets exactly
   * those that have no stamp, or none of the last minute.
   */
  ghost predicate Tidied(before: map<Str, Stamps>, windows: map<Str, Stamps>, key: Str, now: int) {
    forall k :: k != key ==>
      && (k in windows <==> k in before && (|before| <= 4096 || !Idle(before[k], now)))
      && (k in windows ==> windows[k] == before[k])
  }

  lemma SetTidies(before: map<Str, Stamps>, windows: map<Str, Stamps>, key: Str, now: int)
    requires if |before| <= 4096 then windows == before else
      && windows.Keys <= before.Keys && (forall k :: k in windows ==> windows[k] == before[k] && windows[k] != [])
      && (forall k :: k in windows ==> now - windows[k][|windows[k]| - 1] <= WINDOW_MS)
      && forall k :: k in before && !Idle(before[k], now) ==> k in windows
    ensures forall win: Stamps {:trigger windows[key := win]} :: Tidied(before, windows[key := win], key, now)
  {
  }

  lemma WindowDecides(windows: map<Str, Stamps>, h: History, key: Str, now: int)
    requires Agrees(windows, h, now) && OrderedHistory(h, now)
    ensures var win := Recent(Window(windows, key), now);
      && win == Recent(Window(h, key), now)
      && SameRecent(win, Window(h, key), now) && Ordered(win, now) && Ordered(Window(h, key), now)
  {
    if key in windows || key in h {
      RecentOfKept(Window(windows, key), Window(h, key), now, now);
    }
    RecentIsTail(Window(h, key), now);
  }

  lemma AgreesSet(windows: map<Str, Stamps>, h: History, key: Str, kept: Stamps, all: Stamps, now: int)
    requires Agrees(windows, h, now) && Ordered(kept, now) && SameRecent(kept, all, now)
    ensures Agrees(windows[key := kept], h[key := all], now)
    ensures all == Window(h, key) ==> Agrees(windows[key := kept], h, now)
  {
    hide Ordered, SameRecent;
  }

  lemma OrderedPush(ts: Stamps, now: int)
    requires Ordered(ts, now)
    ensures Ordered(ts + [now], now)
  {
  }

  lemma HistoryPush(h: History, key: Str, now: int)
    requires OrderedHistory(h, now) && Ordered(Window(h, key), now)
    ensures OrderedHistory(h[key := Window(h, key) + [now]], now)
  {
    hide Ordered;
    OrderedPush(Window(h, key), now);
  }

  // ----- the bound over whole runs -----

  datatype Call = Call(key: Str, now: int)

  /** The history after a run of calls under one limit. */
  function RunHistory(calls: seq<Call>, max: int): History {
    if calls == [] then map[]
    else var last := calls[|calls| - 1]; FullNext(RunHistory(calls[..|calls| - 1], max), last.key, last.now, max)
  }

  predicate Nondecreasing(calls: seq<Call>) {
    forall i, j :: 0 <= i < j < |calls| ==> calls[i].now <= calls[j].now
  }

  /** How many stamps fall in the minute that starts at `from`. */
  function CountIn(ts: Stamps, from: int): nat {
    if ts == [] then 0
    else (if from <= ts[|ts| - 1] < from + WINDOW_MS then 1 else 0) + CountIn(ts[..|ts| - 1], from)
  }

  /** When the newest stamp is in the minute, the stamps in it are among the recent ones. */
  lemma {:induction false} CountAtMostRecent(ts: Stamps, from: int, now: int)
    requires Ordered(ts, now) && from <= now < from + WINDOW_MS
    ensures CountIn(ts, from) <= |Recent(ts, now)|
    decreases |ts|
  {
    if ts != [] {
      var k := |ts| - 1;
      CountAtMostRecent(ts[..k], from, now);
      RecentPush(ts[..k], ts[k], now);
      assert ts == ts[..k] + [ts[k]];
    }
  }

  lemma {:induction false} RecentPush(ts: Stamps, t: int, now: int)
    ensures |Recent(ts + [t], now)| == |Recent(ts, now)| + (if now - t < WINDOW_MS then 1 else 0)
  {
    if ts == [] {
      assert Recent([], now) == [];
    } else {
      assert (ts + [t])[1..] == ts[1..] + [t];
      RecentPush(ts[1..], t, now);
    }
  }

  lemma {:induction false} RunOrdered(calls: seq<Call>, max: int)
    requires Nondecreasing(calls)
    ensures calls != [] ==> OrderedHistory(RunHistory(calls, max), calls[|calls| - 1].now)
    decreases |calls|
  {
    if |calls| > 1 { RunOrdered(calls[..|calls| - 1], max); }
  }

  /** In every run, every minute lets at most `max` calls of a pair through. */
  lemma {:induction false} AtMostMaxPerMinute(calls: seq<Call>, max: nat, key: Str, from: int)
    requires Nondecreasing(calls)
    ensures CountIn(Window(RunHistory(calls, max), key), from) <= max
    decreases |calls|
  {
    if calls != [] {
      var before, last := calls[..|calls| - 1], calls[|calls| - 1];
      AtMostMaxPerMinute(before, max, key, from);
      var h := RunHistory(before, max);
      if last.key == key && FullAllows(h, key, last.now, max) && from <= last.now < from + WINDOW_MS {
        var ts := Window(h, key);
        RunOrdered(before, max);
        assert Ordered(ts, last.now);
        CountAtMostRecent(ts, from, last.now);
        assert (ts + [last.now])[..|ts|] == ts;
      } else if last.key == key && FullAllows(h, key, last.now, max) {
        assert (Window(h, key) + [last.now])[..|Window(h, key)|] == Window(h, key);
      }
    }
  }

  // ----- the same bound on what the limiter lets through -----

  datatype Message = Message(from: Str, to: Str, at: int)

  function Calls(ms: seq<Message>): (calls: seq<Call>)
    ensures |calls| == |ms| && forall i :: 0 <= i < |ms| ==> calls[i] == Call(PairKey(ms[i].from, ms[i].to), ms[i].at)
  {
    seq(|ms|, i requires 0 <= i < |ms| => Call(PairKey(ms[i].from, ms[i].to), ms[i].at))
  }

  /** The times at which messages of a pair were let through. */
  function LetThrough(ms: seq<Message>, allowed: seq<bool>, key: Str): Stamps
    requires |allowed| == |ms|
  {
    if ms == [] then []
    else
      var i := |ms| - 1;
      var one := if allowed[i] && PairKey(ms[i].from, ms[i].to) == key then [ms[i].at] else [];
      LetThrough(ms[..i], allowed[..i], key) + one
  }

  lemma LetThroughPush(ms: seq<Message>, allowed: seq<bool>, i: nat, ok: bool, key: Str)
    requires i < |ms| && |allowed| == i
    ensures LetThrough(ms[..i + 1], allowed + [ok], key) ==
      LetThrough(ms[..i], allowed, key) + if ok && PairKey(ms[i].from, ms[i].to) == key then [ms[i].at] else []
    ensures Calls(ms[..i + 1])[..i] == Calls(ms[..i])
  {
    hide PairKey;
    assert ms[..i + 1][..i] == ms[..i] && (allowed + [ok])[..i] == allowed;
  }

  /** The stamps the limiter looks at are those of the sixty seconds up to now. */
  lemma {:induction false} RecentIsLastMinute(ts: Stamps, now: int)
    requires Ordered(ts, now)
    ensures |Recent(ts, now)| == CountIn(ts, now - WINDOW_MS + 1)
    decreases |ts|
  {
    if ts != [] {
      var k := |ts| - 1;
      RecentIsLastMinute(ts[..k], now);
      RecentPush(ts[..k], ts[k], now);
      assert ts == ts[..k] + [ts[k]];
    }
  }

  /** Fewer than `max` messages of the pair were let through in the sixty seconds up to the `i`-th. */
  ghost predicate HasRoom(ms: seq<Message>, allowed: seq<bool>, i: nat, max: int)
    requires i < |ms| && i <= |allowed|
  {
    CountIn(LetThrough(ms[..i], allowed[..i], PairKey(ms[i].from, ms[i].to)), ms[i].at - 60000 + 1) < max
  }

  /** The decision is exactly whether there was room. */
  lemma AllowsIffRoom(h: History, ms: seq<Message>, allowed: seq<bool>, i: nat, max: int)
    requires i < |ms| && Tracks(h, ms[..i], allowed, max) && OrderedHistory(h, ms[i].at)
    ensures FullAllows(h, PairKey(ms[i].from, ms[i].to), ms[i].at, max) <==> HasRoom(ms, allowed, i, max)
  {
    hide PairKey, LetThrough, CountIn;
    var key := PairKey(ms[i].from, ms[i].to);
    assert allowed[..i] == allowed;
    assert Window(h, key) == LetThrough(ms[..i], allowed, key);
    assert Ordered(Window(h, key), ms[i].at);
    RecentIsLastMinute(Window(h, key), ms[i].at);
  }

  /** The history is that of the run so far, and its stamps are those of what was let through. */
  ghost predicate Tracks(h: History, ms: seq<Message>, allowed: seq<bool>, max: int) {
    && |allowed| == |ms| && h == RunHistory(Calls(ms), max)
    && forall key :: Window(h, key) == LetThrough(ms, allowed, key)
  }

  lemma TracksNext(h: History, ms: seq<Message>, allowed: seq<bool>, i: nat, max: int)
    requires i < |ms| && Tracks(h, ms[..i], allowed, max)
    ensures var key, ok := PairKey(ms[i].from, ms[i].to), FullAllows(h, PairKey(ms[i].from, ms[i].to), ms[i].at, max);
      Tracks(FullNext(h, key, ms[i].at, max), ms[..i + 1], allowed + [ok], max)
  {
    hide PairKey, FullAllows, LetThrough;
    var k, ok := PairKey(ms[i].from, ms[i].to), FullAllows(h, PairKey(ms[i].from, ms[i].to), ms[i].at, max);
    var next := FullNext(h, k, ms[i].at, max);
    forall key ensures Window(next, key) == LetThrough(ms[..i + 1], allowed + [ok], key) {
      LetThroughPush(ms, allowed, i, ok, key);
    }
    LetThroughPush(ms, allowed, i, ok, []);
    assert next == RunHistory(Calls(ms[..i + 1]), max);
  }

  lemma TracksBound(h: History, ms: seq<Message>, allowed: seq<bool>, max: nat)
    requires Tracks(h, ms, allowed, max) && Nondecreasing(Calls(ms))
    ensures forall key, from :: CountIn(LetThrough(ms, allowed, key), from) <= max
  {
    hide CountIn, LetThrough, RunHistory;
    forall key, from ensures CountIn(LetThrough(ms, allowed, key), from) <= max {
      AtMostMaxPerMinute(Calls(ms), max, key, from);
    }
  }

  lemma NothingTracked(max: int)
    ensures Tracks(map[], [], [], max)
  {
  }

  /** Whether there was room for a message does not depend on what comes after it. */
  lemma RoomStays(ms: seq<Message>, allowed: seq<bool>, ok: bool, max: int)
    requires |allowed| < |ms|
    ensures forall j :: 0 <= j <= |allowed| ==> (HasRoom(ms, allowed + [ok], j, max) <==> HasRoom(ms, allowed, j, max))
  {
    hide PairKey, LetThrough, CountIn;
    forall j | 0 <= j <= |allowed| ensures HasRoom(ms, allowed + [ok], j, max) <==> HasRoom(ms, allowed, j, max) {
      assert (allowed + [ok])[..j] == allowed[..j];
    }
  }

  lemma CallsInOrder(ms: seq<Message>, i: nat)
    requires Nondecreasing(Calls(ms)) && i < |ms|
    ensures forall j :: i <= j < |ms| ==> ms[i].at <= ms[j].at
  {
    forall j | i <= j < |ms| ensures ms[i].at <= ms[j].at {
      assert Calls(ms)[i].now <= Calls(ms)[j].now;
    }
  }

  /** Any run of messages through one limiter: every minute lets at most `max` of each pair through. */
  method Relay(l: RelayLimiter, ms: seq<Message>, max: nat) returns (allowed: seq<bool>)
    requires l.Valid() && l.history == map[] && Nondecreasing(Calls(ms)) && forall m :: m in ms ==> l.clock <= m.at
    modifies l
    ensures l.Valid() && |allowed| == |ms|
    ensures forall key, from :: CountIn(LetThrough(ms, allowed, key), from) <= max
    ensures forall i :: 0 <= i < |ms| ==> (allowed[i] <==> HasRoom(ms, allowed, i, max))
  {
    hide PairKey, FullAllows, FullNext, CountIn, LetThrough, OrderedHistory, Agrees, Nondecreasing, HasRoom;
    allowed := [];
    NothingTracked(max);
    assert ms[..0] == [];
    for i := 0 to |ms|
      invariant l.Valid() && Tracks(l.history, ms[..i], allowed, max)
      invariant forall j :: i <= j < |ms| ==> l.clock <= ms[j].at
      invariant forall j :: 0 <= j < i ==> (allowed[j] <==> HasRoom(ms, allowed, j, max))
    {
      hide Tracks;
      CallsInOrder(ms, i);
      TracksNext(l.history, ms, allowed, i, max);
      AgreesLater(l.windows, l.history, l.clock, ms[i].at);
      AllowsIffRoom(l.history, ms, allowed, i, max);
      var ok := l.RelayPairAllow(ms[i].from, ms[i].to, max, ms[i].at);
      RoomStays(ms, allowed, ok, max);
      allowed := allowed + [ok];
    }
    assert ms[..|ms|] == ms;
    TracksBound(l.history, ms, allowed, max);
  }
}
