/** Leader election over a registry of live peers: the lowest instance id leads. */
module Leader {
  import opened Options
  import opened Text

  const HEARTBEAT_INTERVAL_MS := 10000
  const MAX_MISSED_HEARTBEATS := 3
  const HEALTH_INTERVAL_MS := 15000
  const PEER_TIMEOUT_MS := 45000

  datatype Instance = Instance(name: Str, lastSeen: int)
  type Registry = map<Str, Instance>

  // ----- the peer registry -----

  /** The peers a health check keeps. */
  function Fresh(r: Registry, now: int): Registry {
    map id | id in r && now - r[id].lastSeen <= PEER_TIMEOUT_MS :: r[id]
  }

  class Discovery {
    var instances: Registry

    constructor ()
      ensures instances == map[]
    {
      instances := map[];
    }

    /** A verified announcement registers the peer as seen now. */
    method Register(id: Str, name: Str, now: int)
      modifies this
      ensures instances == old(instances)[id := Instance(name, now)]
    {
      instances := instances[id := Instance(name, now)];
    }

    /** A ping or a pong refreshes a registered peer and registers nobody. */
    method Heard(id: Str, now: int)
      modifies this
      ensures id in old(instances) ==> instances == old(instances)[id := old(instances)[id].(lastSeen := now)]
      ensures id !in old(instances) ==> instances == old(instances)
    {
      if id in instances {
        instances := instances[id := instances[id].(lastSeen := now)];
      }
    }

    method HealthCheck(now: int)
      modifies this
      ensures instances == Fresh(old(instances), now)
    {
      var todo := instances.Keys;
      while todo != {}
        invariant todo <= instances.Keys <= old(instances).Keys
        invariant forall id :: id in instances ==> instances[id] == old(instances)[id]
        invariant forall id :: id in old(instances) && id !in todo ==>
          (id in instances <==> now - old(instances)[id].lastSeen <= PEER_TIMEOUT_MS)
        decreases todo
      {
        var id :| id in todo;
        if now - instances[id].lastSeen > PEER_TIMEOUT_MS {
          instances := instances - {id};
        }
        todo := todo - {id};
      }
    }
  }

  // ----- the lowest id -----

  /** The id that comes before all others. */
  ghost predicate IsLowest(m: Str, ids: set<Str>) {
    m in ids && forall i :: i in ids ==> i == m || Before(m, i)
  }

  lemma {:induction false} LowestExists(ids: set<Str>)
    requires ids != {}
    ensures exists m :: IsLowest(m, ids)
    decreases ids
  {
    var x :| x in ids;
    if ids == {x} {
      assert IsLowest(x, ids);
    } else {
      var rest := ids - {x};
      assert rest + {x} == ids && rest != {};
      LowestExists(rest);
      var m :| IsLowest(m, rest);
      LowerOf(m, x, rest);
    }
  }

  /** The lower of the lowest id so far and one more id is the lowest of all of them. */
  lemma LowerOf(m: Str, x: Str, ids: set<Str>)
    requires IsLowest(m, ids)
    ensures IsLowest(if Less(x, m) then x else m, ids + {x})
  {
    hide Less, Before;
    LessMeansBefore();
    LessTrichotomy(x, m);
    if Less(x, m) {
      forall i | i in ids ensures i == x || Before(x, i) {
        if i != m { LessTransitive(x, m, i); }
      }
    }
  }

  lemma LowestUnique(m: Str, n: Str, ids: set<Str>)
    requires IsLowest(m, ids) && IsLowest(n, ids)
    ensures m == n
  {
    hide Less, Before;
    LessMeansBefore();
    LessTrichotomy(m, n);
  }

  ghost function Lowest(ids: set<Str>): (m: Str)
    requires ids != {}
    ensures IsLowest(m, ids)
  {
    LowestExists(ids);
    var m :| IsLowest(m, ids);
    m
  }

  /** Whom a node elects when no leader is forced. */
  ghost function Elected(self: Str, r: Registry): Str { Lowest({self} + r.Keys) }

  // ----- one node -----

  datatype Callback = Become | Lose

  predicate Alternating(trace: seq<Callback>) {
    forall i :: 0 <= i < |trace| - 1 ==> trace[i] != trace[i + 1]
  }

  class VoleNetLeader {
    const instanceId: Str
    const instanceName: Str
    /** The name in the configuration; none stands for `auto`. */
    const forcedLeader: Option<Str>
    const discovery: Discovery
    var leaderId: Option<Str>
    var leaderName: Str
    var lastLeaderHeartbeat: int
    var missedHeartbeats: nat
    var heartbeatTimer: bool
    var monitorTimer: bool
    /** Whether the callbacks are set, and which of them were called. */
    var callbacks: bool
    var called: seq<Callback>
    ghost var stopped: bool

    predicate IsLeader()
      reads this
    {
      leaderId == Some(instanceId)
    }

    /** Heartbeats go out exactly while this node leads; until `stop` callbacks alternate and end on the role it has. */
    ghost predicate Valid()
      reads this
    {
      && (heartbeatTimer <==> IsLeader())
      && (called != [] ==> callbacks)
      && (!stopped ==> Alternating(called) && (called != [] ==> (called[|called| - 1] == Become <==> IsLeader())))
    }

    /** What a change of role does to the record of callbacks. */
    twostate predicate Reported()
      reads this
    {
      called == if !callbacks || old(IsLeader()) == IsLeader() then old(called)
                else old(called) + [if IsLeader() then Become else Lose]
    }

    constructor (instanceId: Str, instanceName: Str, forcedLeader: Option<Str>, discovery: Discovery)
      ensures Valid() && !IsLeader() && !callbacks && !stopped
      ensures this.instanceId == instanceId && this.instanceName == instanceName
      ensures this.forcedLeader == forcedLeader && this.discovery == discovery
    {
      this.instanceId, this.instanceName := instanceId, instanceName;
      this.forcedLeader, this.discovery := forcedLeader, discovery;
      leaderId, leaderName := None, [];
      lastLeaderHeartbeat, missedHeartbeats := 0, 0;
      heartbeatTimer, monitorTimer, callbacks, called, stopped := false, false, false, [], false;
    }

    /** The lowest of the own id and the registered ids: the head of the sorted list. */
    method LowestKnown() returns (m: Str)
      ensures m == Elected(instanceId, discovery.instances)
      ensures m in {instanceId} + discovery.instances.Keys
      ensures forall id :: id in {instanceId} + discovery.instances.Keys ==> id == m || Before(m, id)
    {
      m := instanceId;
      var todo := discovery.instances.Keys;
      ghost var seen := {instanceId};
      while todo != {}
        invariant todo <= discovery.instances.Keys && seen + todo == {instanceId} + discovery.instances.Keys
        invariant IsLowest(m, seen)
        decreases todo
      {
        var id :| id in todo;
        LowerOf(m, id, seen);
        if Less(id, m) { m := id; }
        seen := seen + {id};
        todo := todo - {id};
      }
      LowestUnique(m, Elected(instanceId, discovery.instances), {instanceId} + discovery.instances.Keys);
    }

    predicate Known(name: Str)
      reads discovery
    {
      exists i :: i in discovery.instances && discovery.instances[i].name == name
    }

    /** What the election may decide. */
    ghost predicate Decides(id: Str)
      reads discovery
    {
      var r := discovery.instances;
      match forcedLeader
      case None => id == Elected(instanceId, r)
      case Some(name) =>
        if name == instanceName then id == instanceId
        else if Known(name) then id in r && r[id].name == name
        else id == instanceId
    }

    method ChooseLeader() returns (id: Str)
      ensures Decides(id)
    {
      if forcedLeader.None? {
        id := LowestKnown();
      } else if forcedLeader.value == instanceName || !Known(forcedLeader.value) {
        id := instanceId;
      } else {
        id :| id in discovery.instances && discovery.instances[id].name == forcedLeader.value;
      }
    }

    method ElectLeader()
      requires Valid()
      modifies this`leaderId, this`leaderName, this`heartbeatTimer, this`called
      ensures Valid() && leaderId.Some? && Decides(leaderId.value)
      ensures Reported()
      ensures leaderId == old(leaderId) ==> leaderName == old(leaderName)
      ensures leaderId != old(leaderId) ==>
        var id := leaderId.value;
        leaderName ==
          if id == instanceId then instanceName
          else if id in discovery.instances then discovery.instances[id].name
          else if |id| > 8 then id[..8] else id
    {
      var newLeaderId := ChooseLeader();
      var wasLeader := IsLeader();
      if Some(newLeaderId) != leaderId {
        leaderId := Some(newLeaderId);
        if newLeaderId == instanceId {
          leaderName := instanceName;
          heartbeatTimer := true;
          if !wasLeader && callbacks { called := called + [Become]; }
        } else {
          leaderName := NameOf(newLeaderId);
          heartbeatTimer := false;
          if wasLeader && callbacks { called := called + [Lose]; }
        }
      }
    }

    function NameOf(id: Str): Str
      reads discovery
    {
      if id in discovery.instances then discovery.instances[id].name
      else if |id| > 8 then id[..8] else id
    }

    method Start()
      requires Valid() && !callbacks
      modifies this
      ensures Valid() && callbacks && monitorTimer && leaderId.Some? && Decides(leaderId.value)
      ensures Reported() && stopped == old(stopped)
    {
      callbacks := true;
      ElectLeader();
      monitorTimer := true;
    }

    /** Stopping tells nobody: the last callback may have been `Become`. */
    method Stop()
      requires Valid()
      modifies this
      ensures Valid() && leaderId == None && !heartbeatTimer && !monitorTimer && stopped
      ensures called == old(called) && callbacks == old(callbacks)
    {
      heartbeatTimer, monitorTimer := false, false;
      leaderId, leaderName := None, [];
      stopped := true;
    }

    /** A heartbeat was heard once, and the last one is over fifteen seconds old. */
    predicate Late(now: int)
      reads this
    {
      lastLeaderHeartbeat > 0 && (now - lastLeaderHeartbeat) * 2 > HEARTBEAT_INTERVAL_MS * 3
    }

    /** Elect again; a follower counts late heartbeats, and the third starts the count over with one more election. */
    method Monitor(now: int)
      requires Valid()
      modifies this
      ensures Valid() && leaderId.Some? && Decides(leaderId.value)
      ensures forcedLeader.None? ==> Reported() && Counted(now)
      ensures stopped == old(stopped) && callbacks == old(callbacks)
      ensures old(missedHeartbeats) < MAX_MISSED_HEARTBEATS ==> missedHeartbeats < MAX_MISSED_HEARTBEATS
    {
      ElectLeader();
      if !IsLeader() {
        if Late(now) {
          missedHeartbeats := missedHeartbeats + 1;
          if missedHeartbeats >= MAX_MISSED_HEARTBEATS {
            missedHeartbeats := 0;
            lastLeaderHeartbeat := 0;
            ElectLeader();
          }
        }
      }
    }

    /**
     * What a tick does to the count of missed heartbeats and to the time of the last one: a follower whose leader was
     * silent for more than fifteen seconds counts one more, and the third clears both.
     */
    twostate predicate Counted(now: int)
      reads this
    {
      var counts := !IsLeader() && old(lastLeaderHeartbeat) > 0 && now > old(lastLeaderHeartbeat) + 15000;
      var resets := counts && old(missedHeartbeats) >= 2;
      && missedHeartbeats == (if resets then 0 else if counts then old(missedHeartbeats) + 1 else old(missedHeartbeats))
      && lastLeaderHeartbeat == if resets then 0 else old(lastLeaderHeartbeat)
    }

    method OnHeartbeat(from: Str, now: int)
      requires Valid()
      modifies this`lastLeaderHeartbeat, this`missedHeartbeats
      ensures Valid()
      ensures leaderId == Some(from) ==> lastLeaderHeartbeat == now && missedHeartbeats == 0
      ensures leaderId != Some(from) ==> unchanged(this)
    {
      if leaderId == Some(from) {
        lastLeaderHeartbeat := now;
        missedHeartbeats := 0;
      }
    }

    /** A claim is accepted exactly from a lower id; the result says whether it is acknowledged. */
    method OnClaim(from: Str, now: int) returns (acknowledged: bool)
      requires Valid()
      modifies this
      ensures Valid() && Reported() && callbacks == old(callbacks) && stopped == old(stopped)
      ensures acknowledged <==> Before(from, instanceId)
      ensures leaderId == if acknowledged then Some(from) else old(leaderId)
      ensures acknowledged ==> lastLeaderHeartbeat == now && missedHeartbeats == 0 && leaderName == NameOf(from)
      ensures !acknowledged ==> unchanged(this)
    {
      hide Before;
      LessIsBefore(from, instanceId);
      LessTrichotomy(from, instanceId);
      acknowledged := Less(from, instanceId);
      if acknowledged {
        if IsLeader() {
          heartbeatTimer := false;
          if callbacks { called := called + [Lose]; }
        }
        leaderId, leaderName := Some(from), NameOf(from);
        lastLeaderHeartbeat, missedHeartbeats := now, 0;
      }
    }
  }

  // ----- a dead leader that is still registered -----

  ghost predicate BelowAll(id: Str, self: Str, r: Registry) {
    Before(id, self) && forall i :: i in r && i != id ==> Before(id, i)
  }

  /**
   * An election decides on a dead peer exactly while the registry has it and its id is below all others; else it
   * decides on the lowest of the others.
   */
  lemma DeadIsElectedWhileRegistered(self: Str, r: Registry, dead: Str)
    requires dead != self
    ensures Elected(self, r) == dead <==> dead in r && BelowAll(dead, self, r)
    ensures Elected(self, r) != dead ==> Elected(self, r) == Elected(self, r - {dead})
  {
    var all, e := {self} + r.Keys, Elected(self, r);
    hide Less, Before;
    LessMeansBefore();
    LessTrichotomy(dead, self);
    if dead in r && BelowAll(dead, self, r) {
      assert IsLowest(dead, all);
      LowestUnique(e, dead, all);
    }
    if e != dead {
      LowestUnique(e, Elected(self, r - {dead}), {self} + (r - {dead}).Keys);
    }
  }

  /**
   * The third late heartbeat in a row elects the leader that missed them, as long as no health check has dropped
   * it: the election that is to replace it reads the registry that still has it.
   */
  method MissedHeartbeatsReelect(l: VoleNetLeader, dead: Str, now: int)
    requires l.Valid() && l.forcedLeader.None? && l.missedHeartbeats == MAX_MISSED_HEARTBEATS - 1 && l.Late(now)
    requires l.leaderId == Some(dead) && dead != l.instanceId && Elected(l.instanceId, l.discovery.instances) == dead
    modifies l
    ensures l.Valid() && l.leaderId == Some(dead) && l.missedHeartbeats == 0 && l.lastLeaderHeartbeat == 0
  {
    hide Elected;
    l.Monitor(now);
  }

  lemma LowerLetter()
    ensures U("a") != U("b") && Before(U("a"), U("b"))
  {
    assert U("a")[0] == 97 && U("b")[0] == 98;
    assert DiffersAt(U("a"), U("b"), 0);
  }

  /** Node `b` follows `a`, which is heard of once, a second after it registered: forty seconds on, `a` still leads. */
  method DeadLeaderStillLeads() returns (b: VoleNetLeader)
    ensures b.Valid() && b.leaderId == Some(U("a")) && b.lastLeaderHeartbeat == 0 && b.missedHeartbeats == 0
    ensures U("a") in b.discovery.instances
  {
    var d := new Discovery();
    d.Register(U("a"), U("a"), 0);
    b := new VoleNetLeader(U("b"), U("b"), None, d);
    LowerLetter();
    DeadIsElectedWhileRegistered(U("b"), d.instances, U("a"));
    hide Elected, U, Less, Before;
    b.Start();
    b.OnHeartbeat(U("a"), 1000);
    b.Monitor(10000);
    b.Monitor(20000);
    b.Monitor(30000);
    MissedHeartbeatsReelect(b, U("a"), 40000);
  }

  /** What the events of a node act on. */
  ghost function NodeOf(l: VoleNetLeader): Node
    reads l, l.discovery
  {
    Node(l.discovery.instances, l.leaderId)
  }

  /** One event on a node that elects automatically: the handlers do what `Step` says. */
  method Handle(l: VoleNetLeader, e: Timed)
    requires l.Valid() && l.forcedLeader.None?
    modifies l, l.discovery
    ensures l.Valid() && NodeOf(l) == Step(l.instanceId, old(NodeOf(l)), e)
  {
    hide Elected, Fresh;
    match e.event {
      case Health => l.discovery.HealthCheck(e.at);
      case MonitorTick => l.Monitor(e.at);
      case Seen(id) => l.discovery.Heard(id, e.at);
      case Joined(id, name) =>
        l.discovery.Register(id, name, e.at);
        l.ElectLeader();
      case Claimed(from) =>
        var acknowledged := l.OnClaim(from, e.at);
    }
  }

  // ----- many nodes -----

  /** The ids of a set of nodes. */
  ghost function Ids(nodes: set<VoleNetLeader>): (ids: set<Str>)
    ensures forall n :: n in nodes ==> n.instanceId in ids
    ensures nodes != {} ==> ids != {}
  {
    var ids := set n | n in nodes :: n.instanceId;
    assert forall n :: n in nodes ==> n.instanceId in ids;
    ids
  }

  /** The nodes elect automatically, and every one of them sees exactly the others. */
  ghost predicate FullView(nodes: set<VoleNetLeader>)
    reads set n | n in nodes :: n.discovery
  {
    && (forall m, n :: m in nodes && n in nodes && m.instanceId == n.instanceId ==> m == n)
    && (forall n :: n in nodes ==> n.forcedLeader.None? && n.discovery.instances.Keys == Ids(nodes) - {n.instanceId})
  }

  /** The node has just elected: its leader is what an election decides on from its registry. */
  ghost predicate JustElected(n: VoleNetLeader)
    reads n`leaderId, n.discovery
  {
    n.leaderId.Some? && n.Decides(n.leaderId.value)
  }

  /** All nodes follow the lowest id of theirs, and exactly one of them leads. */
  ghost predicate OneLeads(nodes: set<VoleNetLeader>)
    requires nodes != {}
    reads nodes
  {
    && (forall n :: n in nodes ==> n.leaderId == Some(Lowest(Ids(nodes))))
    && exists l :: l in nodes && l.IsLeader() && forall n :: n in nodes && n.IsLeader() ==> n == l
  }

  /** A node that sees all others elects the lowest id of all. */
  lemma ElectsLowest(nodes: set<VoleNetLeader>, n: VoleNetLeader)
    requires FullView(nodes) && n in nodes && JustElected(n)
    ensures n.leaderId == Some(Lowest(Ids(nodes)))
  {
    hide Lowest;
    assert {n.instanceId} + n.discovery.instances.Keys == Ids(nodes);
  }

  lemma HasLowest(nodes: set<VoleNetLeader>) returns (l: VoleNetLeader)
    requires nodes != {} && FullView(nodes)
    ensures l in nodes && l.instanceId == Lowest(Ids(nodes))
    ensures forall n :: n in nodes && n.instanceId == l.instanceId ==> n == l
  {
    l :| l in nodes && l.instanceId == Lowest(Ids(nodes));
  }

  /** Nodes with full views that have each run an election agree on the lowest id, and exactly that node leads. */
  lemma OneLeader(nodes: set<VoleNetLeader>)
    requires nodes != {} && FullView(nodes) && forall n :: n in nodes ==> JustElected(n)
    ensures OneLeads(nodes)
  {
    hide FullView, JustElected, Ids, Lowest;
    forall n | n in nodes ensures n.leaderId == Some(Lowest(Ids(nodes))) { ElectsLowest(nodes, n); }
    var l := HasLowest(nodes);
    assert l.IsLeader();
  }

  /** Each node runs one election, in any order: then exactly one of them leads. */
  method ElectAll(nodes: set<VoleNetLeader>)
    requires nodes != {} && FullView(nodes) && forall n :: n in nodes ==> n.Valid()
    modifies nodes
    ensures (forall n :: n in nodes ==> n.Valid()) && OneLeads(nodes)
  {
    hide Elected, OneLeads, Ids;
    var todo := nodes;
    while todo != {}
      invariant todo <= nodes && FullView(nodes) && forall n :: n in nodes ==> n.Valid()
      invariant forall n :: n in nodes && n !in todo ==> JustElected(n)
      decreases todo
    {
      var n :| n in todo;
      n.ElectLeader();
      todo := todo - {n};
    }
    OneLeader(nodes);
  }

  lemma NothingLower(self: Str, r: Registry, id: Str)
    requires Elected(self, r) == self && Before(id, self)
    ensures id !in r
  {
    hide Less, Before;
    LessMeansBefore();
    LessTrichotomy(id, self);
    assert id in r ==> id in {self} + r.Keys;
  }

  /** Of two nodes that both lead right after electing, the higher one's registry lacks the lower. */
  lemma TwoLeadersMeansBlind(a: VoleNetLeader, b: VoleNetLeader)
    requires a.forcedLeader.None? && JustElected(a) && a.IsLeader() && b.forcedLeader.None? && JustElected(b)
    requires b.IsLeader()
    requires Before(a.instanceId, b.instanceId)
    ensures a.instanceId !in b.discovery.instances
  {
    NothingLower(b.instanceId, b.discovery.instances, a.instanceId);
  }

  // ----- failover in time -----

  datatype Event = Health | MonitorTick | Seen(id: Str) | Joined(id: Str, name: Str) | Claimed(from: Str)
  datatype Timed = Timed(event: Event, at: int)
  datatype Node = Node(registry: Registry, leader: Option<Str>)

  /** What one event does to the registry and the leader of a node, as the handlers do it. */
  ghost function Step(self: Str, n: Node, e: Timed): Node {
    match e.event
    case Health => n.(registry := Fresh(n.registry, e.at))
    case MonitorTick => n.(leader := Some(Elected(self, n.registry)))
    case Seen(id) => if id in n.registry then n.(registry := n.registry[id := n.registry[id].(lastSeen := e.at)]) else n
    case Joined(id, name) =>
      var r := n.registry[id := Instance(name, e.at)];
      Node(r, Some(Elected(self, r)))
    case Claimed(from) => if Before(from, self) then n.(leader := Some(from)) else n
  }

  ghost function After(self: Str, n: Node, run: seq<Timed>): Node {
    if run == [] then n else Step(self, After(self, n, run[..|run| - 1]), run[|run| - 1])
  }

  /** Timers fire at least once in every span of their period between `start` and `end`. */
  ghost predicate IdealTimers(run: seq<Timed>, start: int, end: int) {
    && (forall i, j :: 0 <= i < j < |run| ==> run[i].at <= run[j].at)
    && (forall x: int :: start <= x && x + HEALTH_INTERVAL_MS <= end ==> FiresIn(run, Health, x, HEALTH_INTERVAL_MS))
    && (forall x: int :: start <= x && x + HEARTBEAT_INTERVAL_MS <= end ==>
          FiresIn(run, MonitorTick, x, HEARTBEAT_INTERVAL_MS))
  }

  ghost predicate FiresIn(run: seq<Timed>, e: Event, x: int, period: int) {
    exists i :: 0 <= i < |run| && run[i].event == e && x < run[i].at <= x + period
  }

  /** The node after the first `i` events. */
  ghost function At(self: Str, n: Node, run: seq<Timed>, i: nat): Node
    requires i <= |run|
  {
    After(self, n, run[..i])
  }

  lemma AtNext(self: Str, n: Node, run: seq<Timed>, i: nat)
    requires i < |run|
    ensures At(self, n, run, i + 1) == Step(self, At(self, n, run, i), run[i])
  {
    assert run[..i + 1][..i] == run[..i];
  }

  /** Nothing more is heard of the dead leader, nobody new joins, and no health check finds a live peer stale. */
  ghost predicate OnlyTheLeaderDied(self: Str, n: Node, run: seq<Timed>, dead: Str, live: set<Str>) {
    forall i :: 0 <= i < |run| ==>
      match run[i].event
      case Health => forall l :: l in live && l in At(self, n, run, i).registry ==>
        run[i].at - At(self, n, run, i).registry[l].lastSeen <= PEER_TIMEOUT_MS
      case Joined(id, _) => id in live
      case Seen(id) => id != dead
      case _ => true
  }

  /** What the registry holds throughout: the live peers, and possibly the dead leader as last seen by `t`. */
  ghost predicate Holds(r: Registry, dead: Str, live: set<Str>, t: int) {
    r.Keys - {dead} == live && (dead in r ==> r[dead].lastSeen <= t)
  }

  lemma {:induction false} RegistryHolds(self: Str, n: Node, run: seq<Timed>, dead: Str, live: set<Str>, t: int, i: nat)
    requires Holds(n.registry, dead, live, t) && dead !in live && OnlyTheLeaderDied(self, n, run, dead, live)
    requires i <= |run|
    ensures Holds(At(self, n, run, i).registry, dead, live, t)
    decreases i
  {
    if i > 0 {
      RegistryHolds(self, n, run, dead, live, t, i - 1);
      AtNext(self, n, run, i - 1);
      HoldsStep(self, At(self, n, run, i - 1), run[i - 1], dead, live, t);
    }
  }

  lemma HoldsStep(self: Str, n: Node, e: Timed, dead: Str, live: set<Str>, t: int)
    requires Holds(n.registry, dead, live, t) && dead !in live
    requires e.event.Health? ==>
      forall l :: l in live && l in n.registry ==> e.at - n.registry[l].lastSeen <= PEER_TIMEOUT_MS
    requires e.event.Joined? ==> e.event.id in live
    requires e.event.Seen? ==> e.event.id != dead
    ensures Holds(Step(self, n, e).registry, dead, live, t)
    ensures e.event.Health? && e.at > t + PEER_TIMEOUT_MS ==> dead !in Step(self, n, e).registry
    ensures dead !in n.registry ==> dead !in Step(self, n, e).registry
  {
    hide Elected;
    var r, s := n.registry, Step(self, n, e).registry;
    assert forall k :: k in live <==> k in r && k != dead;
    assert forall k :: k in live <==> k in s && k != dead;
  }

  /** Once a health check has dropped the dead leader it stays dropped. */
  lemma {:induction false} StaysDropped(self: Str, n: Node, run: seq<Timed>, dead: Str, live: set<Str>, t: int, h: nat,
                                        i: nat)
    requires Holds(n.registry, dead, live, t) && dead !in live && OnlyTheLeaderDied(self, n, run, dead, live)
    requires h < i <= |run| && run[h].event == Health && run[h].at > t + PEER_TIMEOUT_MS
    ensures dead !in At(self, n, run, i).registry
    decreases i
  {
    RegistryHolds(self, n, run, dead, live, t, i - 1);
    AtNext(self, n, run, i - 1);
    HoldsStep(self, At(self, n, run, i - 1), run[i - 1], dead, live, t);
    if h < i - 1 { StaysDropped(self, n, run, dead, live, t, h, i - 1); }
  }

  /**
   * A survivor that last saw the dead leader at `t`, with ideal timers and otherwise fresh peers, elects
   * the lowest live id by t + 70 s: 45 s until the leader is stale, 15 s to the next health check, 10 s
   * to the next monitor tick.
   */
  lemma FailoverBound(self: Str, n: Node, run: seq<Timed>, dead: Str, live: set<Str>, t: int, end: int)
    requires Holds(n.registry, dead, live, t) && dead !in live && OnlyTheLeaderDied(self, n, run, dead, live)
    requires IdealTimers(run, t, end)
    requires t + PEER_TIMEOUT_MS + HEALTH_INTERVAL_MS + HEARTBEAT_INTERVAL_MS <= end
    ensures exists i ::
              && 0 <= i < |run|
              && run[i].at <= t + PEER_TIMEOUT_MS + HEALTH_INTERVAL_MS + HEARTBEAT_INTERVAL_MS
              && At(self, n, run, i + 1).leader == Some(Lowest({self} + live))
  {
    hide OnlyTheLeaderDied, Holds;
    assert FiresIn(run, Health, t + PEER_TIMEOUT_MS, HEALTH_INTERVAL_MS);
    var stale := t + PEER_TIMEOUT_MS;
    var h :| 0 <= h < |run| && run[h].event == Health && stale < run[h].at <= stale + HEALTH_INTERVAL_MS;
    assert FiresIn(run, MonitorTick, run[h].at, HEARTBEAT_INTERVAL_MS);
    var m :|
      0 <= m < |run| && run[m].event == MonitorTick && run[h].at < run[m].at <= run[h].at + HEARTBEAT_INTERVAL_MS;
    assert h < m;
    StaysDropped(self, n, run, dead, live, t, h, m);
    RegistryHolds(self, n, run, dead, live, t, m);
    AtNext(self, n, run, m);
    RegistryIsLive(At(self, n, run, m).registry, dead, live, t);
  }

  /** One event after the other on a node that elects automatically; what it follows after each of them. */
  method HandleAll(l: VoleNetLeader, run: seq<Timed>) returns (leaders: seq<Option<Str>>)
    requires l.Valid() && l.forcedLeader.None?
    modifies l, l.discovery
    ensures l.Valid() && |leaders| == |run|
    ensures forall i :: 0 <= i < |run| ==> leaders[i] == At(l.instanceId, old(NodeOf(l)), run, i + 1).leader
  {
    hide Step;
    leaders := [];
    ghost var n := NodeOf(l);
    assert run[..0] == [];
    for i := 0 to |run|
      invariant l.Valid() && |leaders| == i && NodeOf(l) == At(l.instanceId, n, run, i)
      invariant forall j :: 0 <= j < i ==> leaders[j] == At(l.instanceId, n, run, j + 1).leader
    {
      AtNext(l.instanceId, n, run, i);
      Handle(l, run[i]);
      leaders := leaders + [l.leaderId];
    }
  }

  /** A node object that survives the leader follows the lowest live id after some event by t + 70 s. */
  method Failover(l: VoleNetLeader, run: seq<Timed>, dead: Str, live: set<Str>, t: int, end: int)
    returns (leaders: seq<Option<Str>>)
    requires l.Valid() && l.forcedLeader.None? && Holds(l.discovery.instances, dead, live, t) && dead !in live
    requires OnlyTheLeaderDied(l.instanceId, NodeOf(l), run, dead, live) && IdealTimers(run, t, end)
    requires t + PEER_TIMEOUT_MS + HEALTH_INTERVAL_MS + HEARTBEAT_INTERVAL_MS <= end
    modifies l, l.discovery
    ensures l.Valid() && |leaders| == |run|
    ensures exists i ::
              && 0 <= i < |run|
              && run[i].at <= t + PEER_TIMEOUT_MS + HEALTH_INTERVAL_MS + HEARTBEAT_INTERVAL_MS
              && leaders[i] == Some(Lowest({l.instanceId} + live))
  {
    hide OnlyTheLeaderDied, IdealTimers, Holds, Step, At;
    FailoverBound(l.instanceId, NodeOf(l), run, dead, live, t, end);
    leaders := HandleAll(l, run);
  }

  lemma RegistryIsLive(r: Registry, dead: Str, live: set<Str>, t: int)
    requires Holds(r, dead, live, t) && dead !in r
    ensures r.Keys == live
  {
  }
}
