/** Notices the hub keeps about attempts to reach a member who is away, until they are handed over. */
module Notices {
  import opened Options

  const MAX_NOTICE_SENDERS := 200

  type Member = string

  datatype Notice = Notice(from: Member, fromName: string, count: nat, first: int, last: int)

  /** What waits for one member, in the order of insertion: `Map<from, notice>`. */
  type Waiting = seq<Notice>

  /** One notice per sender. */
  predicate Unique(w: Waiting) {
    forall i, j :: 0 <= i < j < |w| ==> w[i].from != w[j].from
  }

  /** Attempts the notices stand for. */
  function Total(w: Waiting): nat {
    if w == [] then 0 else w[0].count + Total(w[1..])
  }

  /** The position of a sender; the length when there is none. */
  function At(w: Waiting, from: Member): (i: nat)
    ensures i <= |w| && (i < |w| ==> w[i].from == from)
    ensures forall k :: 0 <= k < i ==> w[k].from != from
  {
    if w == [] || w[0].from == from then 0 else 1 + At(w[1..], from)
  }

  /** `m.get(from)`. */
  function Find(w: Waiting, from: Member): (r: Option<Notice>)
    ensures r.Some? ==> r.value in w && r.value.from == from
    ensures r.None? <==> forall n :: n in w ==> n.from != from
  {
    var i := At(w, from);
    if i < |w| then Some(w[i]) else None
  }

  lemma FindIs(w: Waiting, n: Notice)
    requires Unique(w) && n in w
    ensures Find(w, n.from) == Some(n)
  {
  }

  /** The first of those heard from longest ago, as the loop over the map leaves it. */
  function Oldest(w: Waiting): (i: nat)
    requires w != []
    ensures i < |w| && (forall j :: 0 <= j < |w| ==> w[i].last <= w[j].last)
    ensures forall j :: 0 <= j < i ==> w[i].last < w[j].last
  {
    var n := |w| - 1;
    if n == 0 then 0 else var i := Oldest(w[..n]); if w[n].last < w[i].last then n else i
  }

  function Without(w: Waiting, i: nat): Waiting
    requires i < |w|
  {
    w[..i] + w[i + 1..]
  }

  predicate Evicts(w: Waiting, from: Member) {
    At(w, from) == |w| >= MAX_NOTICE_SENDERS
  }

  function Renewed(n: Notice, fromName: string, now: int): Notice {
    n.(count := n.count + 1, last := now, fromName := if fromName != "" then fromName else n.fromName)
  }

  function Room(w: Waiting, from: Member): Waiting {
    if Evicts(w, from) then Without(w, Oldest(w)) else w
  }

  /** What waits after one more attempt. */
  function Recorded(w: Waiting, from: Member, fromName: string, now: int): Waiting {
    var i := At(w, from);
    if i < |w| then w[i := Renewed(w[i], fromName, now)]
    else Room(w, from) + [Notice(from, fromName, 1, now, now)]
  }

  function Min(a: int, b: int): int { if b < a then b else a }

  function Max(a: int, b: int): int { if b > a then b else a }

  function Merged(n: Notice, back: Notice): Notice {
    n.(count := n.count + back.count, first := Min(n.first, back.first), last := Max(n.last, back.last))
  }

  function RestoredOne(w: Waiting, n: Notice): Waiting {
    var i := At(w, n.from);
    if i < |w| then w[i := Merged(w[i], n)] else w + [n]
  }

  function Restored(w: Waiting, ns: Waiting): Waiting
    decreases |ns|
  {
    if ns == [] then w else Restored(RestoredOne(w, ns[0]), ns[1..])
  }

  /** What a sweep leaves. */
  function Kept(w: Waiting, now: int, ttlMs: int): Waiting {
    if w == [] then [] else (if now - w[0].last > ttlMs then [] else [w[0]]) + Kept(w[1..], now, ttlMs)
  }

  /** What a sweep removes: the notices heard from too long ago. */
  function Expired(w: Waiting, now: int, ttlMs: int): Waiting {
    if w == [] then [] else (if now - w[0].last > ttlMs then [w[0]] else []) + Expired(w[1..], now, ttlMs)
  }

  // ----- sorting for hand-over: latest first, equal ones in their old order -----

  function Insert(n: Notice, s: Waiting): Waiting {
    if s == [] || s[0].last <= n.last then [n] + s else [s[0]] + Insert(n, s[1..])
  }

  function LatestFirst(w: Waiting): Waiting {
    if w == [] then [] else Insert(w[0], LatestFirst(w[1..]))
  }

  predicate Descending(s: Waiting) {
    forall i, j :: 0 <= i < j < |s| ==> s[i].last >= s[j].last
  }

  lemma {:induction false} InsertTotal(n: Notice, s: Waiting)
    ensures Total(Insert(n, s)) == n.count + Total(s)
  {
    if s != [] && s[0].last > n.last {
      InsertTotal(n, s[1..]);
      assert Insert(n, s)[1..] == Insert(n, s[1..]);
    } else {
      assert Insert(n, s)[1..] == s;
    }
  }

  lemma {:induction false} InsertHolds(n: Notice, s: Waiting)
    ensures forall m :: m in Insert(n, s) <==> m == n || m in s
  {
    if s != [] && s[0].last > n.last {
      InsertHolds(n, s[1..]);
      assert forall m :: m in s <==> m == s[0] || m in s[1..];
    }
  }

  /** One more in front keeps senders apart and the order. */
  lemma ConsKeeps(m: Notice, t: Waiting)
    requires Unique(t) && Descending(t) && forall x :: x in t ==> x.from != m.from && x.last <= m.last
    ensures Unique([m] + t) && Descending([m] + t)
  {
  }

  lemma TailKeeps(s: Waiting)
    requires Unique(s) && Descending(s) && s != []
    ensures Unique(s[1..]) && Descending(s[1..])
    ensures forall x :: x in s[1..] ==> x in s && x.from != s[0].from && x.last <= s[0].last
  {
  }

  lemma {:induction false} InsertKeeps(n: Notice, s: Waiting)
    requires Unique(s) && Descending(s) && forall m :: m in s ==> m.from != n.from
    ensures Unique(Insert(n, s)) && Descending(Insert(n, s))
  {
    hide Unique, Descending;
    if s == [] {
      NoneKeep();
      ConsKeeps(n, s);
    } else {
      TailKeeps(s);
      if s[0].last > n.last {
        InsertKeeps(n, s[1..]);
        InsertHolds(n, s[1..]);
        ConsKeeps(s[0], Insert(n, s[1..]));
      } else {
        assert forall x :: x in s ==> x == s[0] || x in s[1..];
        ConsKeeps(n, s);
      }
    }
  }

  lemma NoneKeep()
    ensures Unique([]) && Descending([])
  {
  }

  /** Sorting loses, adds and changes nothing. */
  lemma {:induction false} LatestFirstSorts(w: Waiting)
    requires Unique(w)
    ensures Unique(LatestFirst(w)) && Descending(LatestFirst(w)) && Total(LatestFirst(w)) == Total(w)
    ensures forall n :: n in LatestFirst(w) <==> n in w
  {
    if w == [] {
      NoneKeep();
    } else {
      assert forall n :: n in w <==> n == w[0] || n in w[1..];
      assert Unique(w[1..]) && forall n :: n in w[1..] ==> n.from != w[0].from;
      hide Unique, Descending;
      LatestFirstSorts(w[1..]);
      InsertTotal(w[0], LatestFirst(w[1..]));
      InsertHolds(w[0], LatestFirst(w[1..]));
      InsertKeeps(w[0], LatestFirst(w[1..]));
    }
  }

  // ----- totals -----

  lemma {:induction false} TotalAppend(v: Waiting, w: Waiting)
    ensures Total(v + w) == Total(v) + Total(w)
  {
    if v == [] {
      assert v + w == w;
    } else {
      assert (v + w)[1..] == v[1..] + w;
      TotalAppend(v[1..], w);
    }
  }

  lemma TotalSplit(w: Waiting, i: nat)
    requires i < |w|
    ensures Total(w) == Total(w[..i]) + w[i].count + Total(w[i + 1..])
    ensures Total(Without(w, i)) == Total(w) - w[i].count
    ensures forall n: Notice :: Total(w[i := n]) == Total(w) - w[i].count + n.count
  {
    assert w == w[..i] + w[i..] && w[i..][1..] == w[i + 1..];
    TotalAppend(w[..i], w[i..]);
    TotalAppend(w[..i], w[i + 1..]);
    forall n: Notice ensures Total(w[i := n]) == Total(w) - w[i].count + n.count {
      var v := w[i := n];
      assert v == w[..i] + v[i..] && v[i..][1..] == w[i + 1..];
      TotalAppend(w[..i], v[i..]);
    }
  }

  function EvictedCount(w: Waiting, from: Member): nat {
    if Evicts(w, from) then w[Oldest(w)].count else 0
  }

  lemma RecordedUnique(w: Waiting, from: Member, fromName: string, now: int)
    requires Unique(w)
    ensures Unique(Recorded(w, from, fromName, now))
  {
    hide Total;
  }

  lemma NoTotal()
    ensures Total([]) == 0
  {
  }

  lemma TotalOne(n: Notice)
    ensures Total([n]) == n.count
  {
    assert [n][1..] == [];
  }

  /** An attempt adds one, less what it evicts; the notices stay one per sender. */
  lemma RecordedTotal(w: Waiting, from: Member, fromName: string, now: int)
    requires Unique(w)
    ensures Unique(Recorded(w, from, fromName, now))
    ensures Total(Recorded(w, from, fromName, now)) + EvictedCount(w, from) == Total(w) + 1
  {
    RecordedUnique(w, from, fromName, now);
    hide Unique, Total;
    var i := At(w, from);
    if i < |w| {
      TotalSplit(w, i);
    } else {
      var n := Notice(from, fromName, 1, now, now);
      TotalAppend(Room(w, from), [n]);
      TotalOne(n);
      if Evicts(w, from) { TotalSplit(w, Oldest(w)); }
    }
  }

  lemma RoomHolds(w: Waiting, from: Member, n: Notice)
    requires n in w
    ensures n in Room(w, from) || (Evicts(w, from) && n == w[Oldest(w)])
  {
    var k :| 0 <= k < |w| && w[k] == n;
    if Evicts(w, from) {
      var o := Oldest(w);
      assert w == w[..o] + [w[o]] + w[o + 1..];
    }
  }

  /**
   * An attempt never takes a member past the cap, and what it evicts, never its own sender, is no later
   * than anything that stays.
   */
  lemma RecordedIsCapped(w: Waiting, from: Member, fromName: string, now: int)
    requires Unique(w)
    ensures |Recorded(w, from, fromName, now)| <= Max(|w|, MAX_NOTICE_SENDERS)
    ensures Find(Recorded(w, from, fromName, now), from).Some?
    ensures forall gone :: gone in w && Find(Recorded(w, from, fromName, now), gone.from).None? ==>
      |w| >= MAX_NOTICE_SENDERS && forall n :: n in w ==> gone.last <= n.last
  {
    var r := Recorded(w, from, fromName, now);
    var i := At(w, from);
    if i < |w| {
      assert r[i].from == from;
      forall gone | gone in w ensures Find(r, gone.from).Some? {
        var k :| 0 <= k < |w| && w[k] == gone;
        assert r[k] in r && r[k].from == gone.from;
      }
    } else {
      assert r[|r| - 1].from == from;
      forall n | n in w ensures n in r || (Evicts(w, from) && n == w[Oldest(w)]) {
        RoomHolds(w, from, n);
      }
    }
  }

  /** Putting notices back is not capped. */
  lemma RestoringIsNotCapped(w: Waiting, n: Notice)
    requires Find(w, n.from).None?
    ensures |Restored(w, [n])| == |w| + 1
  {
    assert Restored(w, [n]) == Restored(RestoredOne(w, n), [n][1..]);
  }

  lemma RestoredOneTotal(w: Waiting, n: Notice)
    requires Unique(w)
    ensures Unique(RestoredOne(w, n)) && Total(RestoredOne(w, n)) == Total(w) + n.count
    ensures RestoredOne(w, n) != []
  {
    var i := At(w, n.from);
    if i < |w| {
      TotalSplit(w, i);
    } else {
      TotalAppend(w, [n]);
      TotalOne(n);
    }
  }

  /** Restoring one at a time, from the front. */
  lemma {:induction false} RestoredPush(w: Waiting, ns: Waiting, n: Notice)
    ensures Restored(w, ns + [n]) == RestoredOne(Restored(w, ns), n)
    decreases |ns|
  {
    if ns == [] {
      assert ns + [n] == [n] && Restored(w, [n]) == Restored(RestoredOne(w, n), [n][1..]);
    } else {
      assert (ns + [n])[1..] == ns[1..] + [n];
      RestoredPush(RestoredOne(w, ns[0]), ns[1..], n);
    }
  }

  /** Every notice is kept or expires, and is counted on one side only. */
  lemma {:induction false} KeptOrExpired(w: Waiting, now: int, ttlMs: int)
    ensures Total(Kept(w, now, ttlMs)) + Total(Expired(w, now, ttlMs)) == Total(w)
  {
    if w != [] {
      var one := [w[0]];
      KeptOrExpired(w[1..], now, ttlMs);
      TotalOne(w[0]);
      TotalAppend(one, Kept(w[1..], now, ttlMs));
      TotalAppend(one, Expired(w[1..], now, ttlMs));
      assert [] + Kept(w[1..], now, ttlMs) == Kept(w[1..], now, ttlMs);
      assert [] + Expired(w[1..], now, ttlMs) == Expired(w[1..], now, ttlMs);
    }
  }

  /** What expires is exactly what was heard from too long ago. */
  lemma {:induction false} ExpiredHolds(w: Waiting, now: int, ttlMs: int)
    ensures forall n :: n in Expired(w, now, ttlMs) <==> n in w && now - n.last > ttlMs
  {
    if w != [] {
      ExpiredHolds(w[1..], now, ttlMs);
      assert forall n :: n in w <==> n == w[0] || n in w[1..];
    }
  }

  lemma {:induction false} KeptHolds(w: Waiting, now: int, ttlMs: int)
    ensures forall n :: n in Kept(w, now, ttlMs) <==> n in w && now - n.last <= ttlMs
  {
    if w != [] {
      KeptHolds(w[1..], now, ttlMs);
      assert forall n :: n in w <==> n == w[0] || n in w[1..];
    }
  }

  lemma {:induction false} KeptUnique(w: Waiting, now: int, ttlMs: int)
    requires Unique(w)
    ensures Unique(Kept(w, now, ttlMs))
  {
    if w != [] {
      assert forall n :: n in w[1..] ==> n.from != w[0].from;
      KeptUnique(w[1..], now, ttlMs);
      KeptHolds(w[1..], now, ttlMs);
    }
  }

  // ----- taking, then putting back -----

  datatype Attempt = Attempt(from: Member, fromName: string, at: int)

  function RecordedAll(w: Waiting, rs: seq<Attempt>): Waiting
    decreases |rs|
  {
    if rs == [] then w else RecordedAll(Recorded(w, rs[0].from, rs[0].fromName, rs[0].at), rs[1..])
  }

  predicate NoEviction(w: Waiting, rs: seq<Attempt>)
    decreases |rs|
  {
    rs != [] ==> !Evicts(w, rs[0].from) && NoEviction(Recorded(w, rs[0].from, rs[0].fromName, rs[0].at), rs[1..])
  }

  /** One sender's notice after the attempts that are theirs. */
  function Hit(n: Option<Notice>, r: Attempt): Option<Notice> {
    Some(if n.Some? then Renewed(n.value, r.fromName, r.at) else Notice(r.from, r.fromName, 1, r.at, r.at))
  }

  function HitAll(n: Option<Notice>, rs: seq<Attempt>, from: Member): Option<Notice>
    decreases |rs|
  {
    if rs == [] then n else HitAll(if rs[0].from == from then Hit(n, rs[0]) else n, rs[1..], from)
  }

  function Own(rs: seq<Attempt>, f: Member): seq<Attempt> {
    if rs == [] then [] else (if rs[0].from == f then [rs[0]] else []) + Own(rs[1..], f)
  }

  /**
   * A sender's notice counts its attempts, keeps the time of the first and has that of the last, and bears the last
   * name that one of them gave.
   */
  ghost predicate Tells(n: Option<Notice>, own: seq<Attempt>, h: Option<Notice>) {
    if own == [] then h == n
    else
      && h.Some?
      && h.value.count == (if n.Some? then n.value.count else 0) + |own|
      && h.value.first == (if n.Some? then n.value.first else own[0].at)
      && h.value.last == own[|own| - 1].at
      && LastName(if n.Some? then n.value.fromName else "", own, h.value.fromName)
  }

  ghost predicate LastName(before: string, own: seq<Attempt>, name: string) {
    if forall i :: 0 <= i < |own| ==> own[i].fromName == "" then name == before
    else
      exists i :: 0 <= i < |own| && own[i].fromName == name != "" &&
        forall j :: i < j < |own| ==> own[j].fromName == ""
  }

  lemma LastNameStep(before: string, r: Attempt, more: seq<Attempt>, name: string)
    requires LastName(if r.fromName != "" then r.fromName else before, more, name)
    ensures LastName(before, [r] + more, name)
  {
    var own := [r] + more;
    assert own[0] == r && forall i :: 0 <= i < |more| ==> own[i + 1] == more[i];
    if forall i :: 0 <= i < |more| ==> more[i].fromName == "" {
      assert forall i :: 0 < i < |own| ==> own[i].fromName == "";
      assert r.fromName != "" ==> own[0].fromName == name != "";
    } else {
      var i :|
        0 <= i < |more| && more[i].fromName == name != "" && forall j :: i < j < |more| ==> more[j].fromName == "";
      assert own[i + 1].fromName == name != "";
      assert forall j :: i + 1 < j < |own| ==> own[j] == more[j - 1];
    }
  }

  lemma TellsStep(n: Option<Notice>, r: Attempt, more: seq<Attempt>, h: Option<Notice>)
    requires Tells(Hit(n, r), more, h)
    ensures Tells(n, [r] + more, h)
  {
    LastNameStep(if n.Some? then n.value.fromName else "", r, more, h.value.fromName);
    hide LastName;
    assert more != [] ==> ([r] + more)[|more|] == more[|more| - 1];
  }

  lemma {:induction false} HitsMean(n: Option<Notice>, rs: seq<Attempt>, f: Member)
    ensures Tells(n, Own(rs, f), HitAll(n, rs, f))
    decreases |rs|
  {
    hide Tells;
    if rs == [] {
      NothingTold(n);
    } else if rs[0].from == f {
      HitsMean(Hit(n, rs[0]), rs[1..], f);
      TellsStep(n, rs[0], Own(rs[1..], f), HitAll(n, rs, f));
    } else {
      HitsMean(n, rs[1..], f);
      assert [] + Own(rs[1..], f) == Own(rs[1..], f);
    }
  }

  lemma NothingTold(n: Option<Notice>)
    ensures Tells(n, [], n)
  {
  }

  /** What waits for a member holds for every sender the tale of its attempts, if none was evicted. */
  lemma RecordedTells(w: Waiting, rs: seq<Attempt>, f: Member)
    requires Unique(w) && NoEviction(w, rs)
    ensures Tells(Find(w, f), Own(rs, f), Find(RecordedAll(w, rs), f))
  {
    RecordedAllFinds(w, rs, f);
    HitsMean(Find(w, f), rs, f);
  }

  function Merge(n: Option<Notice>, back: Option<Notice>): Option<Notice> {
    if n.None? then back else if back.None? then n else Some(Merged(n.value, back.value))
  }

  lemma RecordedFinds(w: Waiting, r: Attempt, f: Member)
    requires Unique(w) && !Evicts(w, r.from)
    ensures Find(Recorded(w, r.from, r.fromName, r.at), f) == if f == r.from then Hit(Find(w, f), r) else Find(w, f)
  {
    RecordedTotal(w, r.from, r.fromName, r.at);
    var v := Recorded(w, r.from, r.fromName, r.at);
    var i, k := At(w, r.from), At(w, f);
    if i < |w| {
      assert v[i] in v;
      if k < |w| { assert v[k] in v; FindIs(v, v[k]); }
    } else {
      assert v == w + [Notice(r.from, r.fromName, 1, r.at, r.at)] && v[|w|] in v;
      FindIs(v, v[|w|]);
      if k < |w| { assert v[k] in v; FindIs(v, v[k]); }
    }
  }

  lemma {:induction false} RecordedAllFinds(w: Waiting, rs: seq<Attempt>, f: Member)
    requires Unique(w) && NoEviction(w, rs)
    ensures Unique(RecordedAll(w, rs)) && Find(RecordedAll(w, rs), f) == HitAll(Find(w, f), rs, f)
    decreases |rs|
  {
    hide Unique, Find, Recorded, Evicts, Hit;
    if rs != [] {
      RecordedTotal(w, rs[0].from, rs[0].fromName, rs[0].at);
      RecordedFinds(w, rs[0], f);
      RecordedAllFinds(Recorded(w, rs[0].from, rs[0].fromName, rs[0].at), rs[1..], f);
    }
  }

  lemma RestoredOneFinds(w: Waiting, n: Notice, f: Member)
    requires Unique(w)
    ensures Find(RestoredOne(w, n), f) == if f == n.from then Merge(Find(w, f), Some(n)) else Find(w, f)
  {
    RestoredOneTotal(w, n);
    var v := RestoredOne(w, n);
    var i, k := At(w, n.from), At(w, f);
    if i < |w| {
      assert v[i] in v;
    } else {
      assert v == w + [n] && v[|w|] in v;
      FindIs(v, v[|w|]);
    }
    if k < |w| { assert v[k] in v; FindIs(v, v[k]); }
  }

  lemma FindHead(ns: Waiting, f: Member)
    requires Unique(ns) && ns != []
    ensures Unique(ns[1..])
    ensures Find(ns, f) == if f == ns[0].from then Some(ns[0]) else Find(ns[1..], f)
    ensures f == ns[0].from ==> Find(ns[1..], f) == None
  {
  }

  lemma {:induction false} RestoredFinds(w: Waiting, ns: Waiting, f: Member)
    requires Unique(w) && Unique(ns)
    ensures Find(Restored(w, ns), f) == Merge(Find(w, f), Find(ns, f))
    decreases |ns|
  {
    if ns != [] {
      FindHead(ns, f);
      RestoredOneTotal(w, ns[0]);
      RestoredOneFinds(w, ns[0], f);
      hide Unique, Find, RestoredOne, Merged;
      RestoredFinds(RestoredOne(w, ns[0]), ns[1..], f);
    }
  }

  lemma SortedFinds(w: Waiting, f: Member)
    requires Unique(w)
    ensures Unique(LatestFirst(w)) && Find(LatestFirst(w), f) == Find(w, f)
  {
    LatestFirstSorts(w);
    if Find(w, f).Some? { FindIs(LatestFirst(w), Find(w, f).value); }
  }

  /** The clock does not go back: attempts come in time order, after everything that already waits. */
  predicate InTime(n: Option<Notice>, rs: seq<Attempt>) {
    && (n.Some? ==> n.value.first <= n.value.last && forall r :: r in rs ==> n.value.last <= r.at)
    && forall i, j :: 0 <= i < j < |rs| ==> rs[i].at <= rs[j].at
  }

  /** Same count, first and last. */
  predicate SameTally(a: Option<Notice>, b: Option<Notice>) {
    && (a.None? <==> b.None?)
    && (a.Some? ==> a.value.(fromName := "") == b.value.(fromName := ""))
  }

  predicate Named(rs: seq<Attempt>, f: Member) {
    exists r :: r in rs && r.from == f && r.fromName != ""
  }

  predicate Tried(rs: seq<Attempt>, f: Member) {
    exists r :: r in rs && r.from == f
  }

  /** When attempts counted from `n` end on the same name as those counted from `m` and merged with `back`. */
  predicate SameName(n: Notice, m: Option<Notice>, back: Notice, rs: seq<Attempt>, f: Member) {
    if m.Some? then n.fromName == m.value.fromName || Named(rs, f)
    else if Tried(rs, f) then n.fromName == "" || Named(rs, f)
    else n.fromName == back.fromName
  }

  lemma RestShrinks(n: Option<Notice>, m: Option<Notice>, rs: seq<Attempt>, f: Member)
    requires rs != [] && InTime(n, rs) && InTime(m, rs)
    ensures InTime(if rs[0].from == f then Hit(n, rs[0]) else n, rs[1..])
    ensures InTime(if rs[0].from == f then Hit(m, rs[0]) else m, rs[1..])
    ensures Tried(rs, f) <==> rs[0].from == f || Tried(rs[1..], f)
    ensures Named(rs, f) <==> (rs[0].from == f && rs[0].fromName != "") || Named(rs[1..], f)
  {
    assert forall r :: r in rs <==> r == rs[0] || r in rs[1..];
    assert forall r :: r in rs ==> rs[0].at <= r.at;
  }

  /**
   * Attempts counted from `n` are attempts counted from `m` merged with `back`, when `n` is `m` merged with
   * `back`: the name is the only thing that can differ, and does while no attempt brings one.
   */
  lemma {:induction false} HitsMerge(n: Option<Notice>, m: Option<Notice>, back: Notice, rs: seq<Attempt>, f: Member)
    requires InTime(n, rs) && InTime(m, rs) && n.Some? && back.from == f && back.first <= back.last <= n.value.last
    requires SameTally(n, Merge(m, Some(back))) && (m.Some? ==> m.value.last == n.value.last)
    ensures var whole, part := HitAll(n, rs, f), Merge(HitAll(m, rs, f), Some(back));
      && SameTally(whole, part) && whole.Some?
      && (whole.value.fromName == part.value.fromName <==> SameName(n.value, m, back, rs, f))
    decreases |rs|
  {
    if rs != [] {
      RestShrinks(n, m, rs, f);
      if rs[0].from == f {
        assert InTime(n, rs) && rs[0] in rs;
        HitsMerge(Hit(n, rs[0]), Hit(m, rs[0]), back, rs[1..], f);
      } else {
        HitsMerge(n, m, back, rs[1..], f);
      }
    }
  }

  /**
   * Taken and put back around any attempts, every sender's notice has the count, first and last it would
   * have had without: and the name too, except when the sender tried meanwhile and gave none.
   */
  lemma RestoreUndoesTake(w: Waiting, rs: seq<Attempt>, f: Member)
    requires Unique(w) && NoEviction(w, rs) && NoEviction([], rs)
    requires InTime(Find(w, f), rs)
    ensures var back, straight := Find(Restored(RecordedAll([], rs), LatestFirst(w)), f), Find(RecordedAll(w, rs), f);
      && SameTally(back, straight)
      && (back == straight <==> (Find(w, f).Some? && Tried(rs, f) ==> Find(w, f).value.fromName == "" || Named(rs, f)))
  {
    RecordedAllFinds(w, rs, f);
    RecordedAllFinds([], rs, f);
    SortedFinds(w, f);
    RestoredFinds(RecordedAll([], rs), LatestFirst(w), f);
    assert Find([], f) == None;
    if Find(w, f).Some? {
      HitsMerge(Find(w, f), None, Find(w, f).value, rs, f);
    }
  }

  // ----- the store -----

  /** What happened to attempts at reaching one member, ever. */
  datatype Ledger = Ledger(recorded: nat, handed: nat, restored: nat, evicted: nat, expired: nat)

  ghost function Book(books: map<Member, Ledger>, to: Member): Ledger {
    if to in books then books[to] else Ledger(0, 0, 0, 0, 0)
  }

  function For(byMember: map<Member, Waiting>, to: Member): Waiting {
    if to in byMember then byMember[to] else []
  }

  /** Every attempt is waiting, or was handed over and not put back, or was evicted, or expired. */
  ghost predicate Balanced(w: Waiting, b: Ledger) {
    b.recorded + b.restored == Total(w) + b.handed + b.evicted + b.expired
  }

  /** Members with nothing waiting are not in the map, each sender has one notice, and the books balance. */
  ghost predicate Sound(byMember: map<Member, Waiting>, books: map<Member, Ledger>) {
    && (forall to :: to in byMember ==> byMember[to] != [] && Unique(byMember[to]))
    && forall to :: Balanced(For(byMember, to), Book(books, to))
  }

  /** One attempt more, and what it evicts. */
  function Charged(b: Ledger, w: Waiting, from: Member): Ledger {
    b.(recorded := b.recorded + 1, evicted := b.evicted + EvictedCount(w, from))
  }

  lemma RecordedBalances(w: Waiting, b: Ledger, from: Member, fromName: string, now: int)
    requires Unique(w) && Balanced(w, b)
    ensures var v := Recorded(w, from, fromName, now); v != [] && Unique(v) && Balanced(v, Charged(b, w, from))
  {
    RecordedTotal(w, from, fromName, now);
    hide Unique, Total, EvictedCount;
  }

  lemma SoundAt(byMember: map<Member, Waiting>, books: map<Member, Ledger>, to: Member)
    requires Sound(byMember, books)
    ensures Unique(For(byMember, to)) && Balanced(For(byMember, to), Book(books, to))
    ensures to in byMember <==> For(byMember, to) != []
  {
  }

  lemma SoundSet(byMember: map<Member, Waiting>, books: map<Member, Ledger>, to: Member, w: Waiting, b: Ledger)
    requires Sound(byMember, books) && w != [] && Unique(w) && Balanced(w, b)
    ensures Sound(byMember[to := w], books[to := b])
  {
    hide Unique, Balanced;
    var ws, bs := byMember[to := w], books[to := b];
    assert For(ws, to) == w && Book(bs, to) == b;
    assert forall t :: t != to ==> For(ws, t) == For(byMember, t) && Book(bs, t) == Book(books, t);
  }

  lemma SoundDrop(byMember: map<Member, Waiting>, books: map<Member, Ledger>, to: Member, b: Ledger)
    requires Sound(byMember, books) && Balanced([], b)
    ensures Sound(byMember - {to}, books[to := b])
  {
    hide Unique, Balanced;
    var ws, bs := byMember - {to}, books[to := b];
    assert For(ws, to) == [] && Book(bs, to) == b;
    assert forall t :: t != to ==> For(ws, t) == For(byMember, t) && Book(bs, t) == Book(books, t);
  }

  class RelayNotices {
    const ttlMs: int
    var byMember: map<Member, Waiting>
    ghost var books: map<Member, Ledger>

    ghost predicate Valid()
      reads this
    {
      Sound(byMember, books)
    }

    constructor (ttlMs: int)
      ensures Valid() && byMember == map[] && books == map[] && this.ttlMs == ttlMs
    {
      this.ttlMs := ttlMs;
      byMember, books := map[], map[];
    }

    /** `record`. */
    method Record(to: Member, from: Member, fromName: string, now: int)
      requires Valid()
      modifies this
      ensures Valid() && byMember == old(byMember)[to := Recorded(For(old(byMember), to), from, fromName, now)]
      ensures books == old(books)[to := Charged(Book(old(books), to), For(old(byMember), to), from)]
    {
      var w := For(byMember, to);
      SoundAt(byMember, books, to);
      hide Unique, Total, Balanced, Recorded, Charged;
      ghost var b := Book(books, to);
      RecordedBalances(w, b, from, fromName, now);
      SoundSet(byMember, books, to, Recorded(w, from, fromName, now), Charged(b, w, from));
      hide Sound;
      var m := Noted(w, from, fromName, now);
      byMember := byMember[to := m];
      books := books[to := Charged(b, w, from)];
    }

    static method Noted(w: Waiting, from: Member, fromName: string, now: int) returns (m: Waiting)
      ensures m == Recorded(w, from, fromName, now)
    {
      m := w;
      var i := At(m, from);
      if i < |m| {
        return m[i := Renewed(m[i], fromName, now)];
      }
      if |m| >= MAX_NOTICE_SENDERS {
        var oldest := FindOldest(m);
        m := Without(m, oldest);
      }
      m := m + [Notice(from, fromName, 1, now, now)];
    }

    /** The loop over the senders that looks for the one heard from longest ago. */
    static method FindOldest(m: Waiting) returns (oldest: nat)
      requires m != []
      ensures oldest == Oldest(m)
    {
      oldest := 0;
      var i := 1;
      while i < |m|
        invariant 1 <= i <= |m| && oldest == Oldest(m[..i])
      {
        assert m[..i + 1][..i] == m[..i];
        if m[i].last < m[oldest].last { oldest := i; }
        i := i + 1;
      }
      assert m[..|m|] == m;
    }

    /** The second half of `take`, after its sweep: everything that waits is handed over, and forgotten. */
    method HandOver(to: Member) returns (notices: Waiting)
      requires Valid()
      modifies this
      ensures Valid() && notices == LatestFirst(For(old(byMember), to)) && byMember == old(byMember) - {to}
      ensures var b := Book(old(books), to); Book(books, to) == b.(handed := b.handed + Total(notices))
      ensures forall t :: t != to ==> Book(books, t) == Book(old(books), t)
    {
      var w := For(byMember, to);
      SoundAt(byMember, books, to);
      LatestFirstSorts(w);
      notices := LatestFirst(w);
      if w == [] {
        assert byMember - {to} == byMember;
        return;
      }
      ghost var b := Book(books, to);
      ghost var c := b.(handed := b.handed + Total(notices));
      assert Balanced([], c);
      SoundDrop(byMember, books, to, c);
      hide Sound, Unique, Total, Balanced, LatestFirst;
      byMember := byMember - {to};
      books := books[to := c];
    }

    /** `restore`. */
    method Restore(to: Member, notices: Waiting)
      requires Valid()
      modifies this
      ensures Valid()
      ensures notices == [] ==> byMember == old(byMember) && books == old(books)
      ensures notices != [] ==> byMember == old(byMember)[to := Restored(For(old(byMember), to), notices)]
      ensures var b := Book(old(books), to); Book(books, to) == b.(restored := b.restored + Total(notices))
      ensures forall t :: t != to ==> Book(books, t) == Book(old(books), t)
    {
      if notices == [] {
        return;
      }
      SoundAt(byMember, books, to);
      var m := For(byMember, to);
      ghost var b := Book(books, to);
      ghost var c := b.(restored := b.restored + Total(notices));
      assert Balanced(m, b);
      m := PutBack(m, notices);
      assert Balanced(m, c);
      SoundSet(byMember, books, to, m, c);
      hide Sound, Unique, Total, Balanced, Restored;
      byMember := byMember[to := m];
      books := books[to := c];
    }

    static method PutBack(w: Waiting, notices: Waiting) returns (m: Waiting)
      requires Unique(w)
      ensures m == Restored(w, notices) && Unique(m) && Total(m) == Total(w) + Total(notices)
      ensures notices != [] ==> m != []
    {
      hide Unique, RestoredOne, Total;
      NoTotal();
      m := w;
      var i := 0;
      while i < |notices|
        invariant 0 <= i <= |notices|
        invariant m == Restored(w, notices[..i]) && Unique(m) && Total(m) == Total(w) + Total(notices[..i])
        invariant i > 0 ==> m != []
      {
        assert notices[..i + 1] == notices[..i] + [notices[i]];
        RestoredPush(w, notices[..i], notices[i]);
        RestoredOneTotal(m, notices[i]);
        TotalAppend(notices[..i], [notices[i]]);
        TotalOne(notices[i]);
        m := RestoredOne(m, notices[i]);
        i := i + 1;
      }
      assert notices[..|notices|] == notices;
    }

    /** `sweep`: notices past their time go, and members with nothing left. */
    method Sweep(now: int)
      requires Valid()
      modifies this
      ensures Valid() && forall to :: For(byMember, to) == Kept(For(old(byMember), to), now, ttlMs)
      ensures forall to :: Book(books, to) == Aged(Book(old(books), to), For(old(byMember), to), now)
    {
      NothingAges(now);
      hide Unique, Total, Kept, Aged, Sound;
      var todo := byMember.Keys;
      while todo != {}
        invariant Valid() && todo <= byMember.Keys
        invariant forall to :: to in todo ==> For(byMember, to) == For(old(byMember), to)
        invariant forall to :: to in todo ==> Book(books, to) == Book(old(books), to)
        invariant forall to :: to !in todo ==> For(byMember, to) == Kept(For(old(byMember), to), now, ttlMs)
        invariant forall to :: to !in todo ==>
          Book(books, to) == Aged(Book(old(books), to), For(old(byMember), to), now)
        decreases todo
      {
        var to :| to in todo;
        SweepMember(to, now);
        todo := todo - {to};
      }
    }

    /** The books after a sweep: the attempts that expired, notice by notice, are written off. */
    ghost function Aged(b: Ledger, w: Waiting, now: int): Ledger {
      b.(expired := b.expired + Total(Expired(w, now, ttlMs)))
    }

    lemma NothingAges(now: int)
      ensures Kept([], now, ttlMs) == []
      ensures forall b: Ledger :: Aged(b, [], now) == b
    {
    }

    method SweepMember(to: Member, now: int)
      requires Valid() && to in byMember
      modifies this
      ensures Valid()
      ensures var m := Kept(old(byMember)[to], now, ttlMs);
        byMember == if m == [] then old(byMember) - {to} else old(byMember)[to := m]
      ensures books == old(books)[to := Aged(Book(old(books), to), old(byMember)[to], now)]
    {
      var w := byMember[to];
      SoundAt(byMember, books, to);
      KeptUnique(w, now, ttlMs);
      ghost var c := Aged(Book(books, to), w, now);
      AgedBalances(Book(books, to), w, now);
      var m := StillFresh(w, now);
      hide Kept, Unique, Aged, Sound;
      if m == [] {
        SoundDrop(byMember, books, to, c);
        byMember := byMember - {to};
      } else {
        SoundSet(byMember, books, to, m, c);
        byMember := byMember[to := m];
      }
      books := books[to := c];
    }

    lemma AgedBalances(b: Ledger, w: Waiting, now: int)
      requires Balanced(w, b)
      ensures Balanced(Kept(w, now, ttlMs), Aged(b, w, now))
    {
      KeptOrExpired(w, now, ttlMs);
    }

    method StillFresh(w: Waiting, now: int) returns (m: Waiting)
      ensures m == Kept(w, now, ttlMs)
    {
      m := [];
      var i := |w|;
      while i > 0
        invariant 0 <= i <= |w| && m == Kept(w[i..], now, ttlMs)
      {
        i := i - 1;
        assert w[i..][1..] == w[i + 1..];
        if now - w[i].last <= ttlMs { m := [w[i]] + m; }
      }
    }
  }

  /** What there is to say of one sender after its notice was taken, its attempts recorded and the notice put back. */
  ghost predicate AsIfNotTaken(back: Option<Notice>, straight: Option<Notice>, n: Option<Notice>, rs: seq<Attempt>,
                               f: Member) {
    && SameTally(back, straight)
    && (back == straight <==> (n.Some? && Tried(rs, f) ==> n.value.fromName == "" || Named(rs, f)))
  }

  /** The store itself: everything of a member is handed over, attempts come in, and it is put back. */
  method TakeAndRestore(s: RelayNotices, to: Member, rs: seq<Attempt>)
    requires s.Valid() && NoEviction(For(s.byMember, to), rs) && NoEviction([], rs)
    requires forall f :: InTime(Find(For(s.byMember, to), f), rs)
    modifies s
    ensures s.Valid()
    ensures forall f ::
      var w := For(old(s.byMember), to);
      AsIfNotTaken(Find(For(s.byMember, to), f), Find(RecordedAll(w, rs), f), Find(w, f), rs, f)
  {
    hide Find, Unique, Recorded, Restored, LatestFirst, InTime, SameTally, Tried, Named, Sound;
    ghost var w := For(s.byMember, to);
    SoundAt(s.byMember, s.books, to);
    var taken := s.HandOver(to);
    assert rs[..0] == [];
    for i := 0 to |rs|
      invariant s.Valid() && For(s.byMember, to) == RecordedAll([], rs[..i])
    {
      RecordedAllNext([], rs, i);
      s.Record(to, rs[i].from, rs[i].fromName, rs[i].at);
    }
    assert rs[..|rs|] == rs;
    NothingRestored(RecordedAll([], rs));
    s.Restore(to, taken);
    forall f ensures AsIfNotTaken(Find(For(s.byMember, to), f), Find(RecordedAll(w, rs), f), Find(w, f), rs, f) {
      RestoreUndoesTake(w, rs, f);
    }
  }

  lemma NothingRestored(w: Waiting)
    ensures Restored(w, []) == w
  {
  }

  lemma {:induction false} RecordedAllNext(w: Waiting, rs: seq<Attempt>, i: nat)
    requires i < |rs|
    ensures RecordedAll(w, rs[..i + 1]) == Recorded(RecordedAll(w, rs[..i]), rs[i].from, rs[i].fromName, rs[i].at)
    decreases i
  {
    hide Recorded;
    if i == 0 {
      assert rs[..1][1..] == [] && rs[..0] == [];
    } else {
      var v := Recorded(w, rs[0].from, rs[0].fromName, rs[0].at);
      assert rs[..i + 1][1..] == rs[1..][..i] && rs[..i][1..] == rs[1..][..i - 1];
      RecordedAllNext(v, rs[1..], i - 1);
    }
  }
}
