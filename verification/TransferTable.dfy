/**
 * The transfer records and the capability tokens of one node. Every method is one synchronous segment
 * of a handler; a `beginReceive` that waits for its probe is held in `inFlight` until it resumes.
 */
module TransferTable {
  import opened Options

  type Id = string
  type Peer = string

  const DAY_MS := 24 * 60 * 60000

  datatype Direction = Send | Recv
  datatype State =
    Offered | Pending | Accepted | Transferring | Verifying | Done | Rejected | Failed | Cancelled | Expired
  datatype Mode = Pull | Push | Relay
  datatype Op = PullOp | PushOp | UploadOp | DownloadOp

  datatype Transfer = Transfer(dir: Direction, peerId: Peer, state: State, relayed: bool, pushOffered: bool,
                               createdAt: int, updatedAt: int)
  datatype Token = Token(id: Id, peerId: Peer, op: Op, expiresAt: int)
  datatype InFlight = InFlight(id: Id, startedAt: int)

  type Transfers = map<Id, Transfer>
  /** Tokens by their digest. */
  type Tokens = map<nat, Token>

  predicate Terminal(s: State) { s in {Done, Rejected, Failed, Cancelled, Expired} }

  /** Not answered yet by the receiving side. */
  predicate Unanswered(s: State) { s in {Offered, Pending} }

  predicate PeerOp(op: Op) { op == PullOp || op == PushOp }

  function Touch(ts: Transfers, id: Id, s: State, now: int): Transfers
    requires id in ts
  {
    ts[id := ts[id].(state := s, updatedAt := now)]
  }

  function Revoked(tokens: Tokens, id: Id): Tokens {
    map h | h in tokens && tokens[h].id != id :: tokens[h]
  }

  // ----- the invariant -----

  /** A pull or push token names an existing transfer that is not over, with the matching peer and direction. */
  ghost predicate Backed(e: Token, ts: Transfers, advertised: bool) {
    && e.id in ts && ts[e.id].peerId == e.peerId && !Terminal(ts[e.id].state)
    && (e.op == PullOp ==> ts[e.id].dir == Send)
    && (e.op == PushOp ==> ts[e.id].dir == Recv && !ts[e.id].relayed && advertised && !Unanswered(ts[e.id].state))
  }

  ghost predicate AllBacked(tokens: Tokens, ts: Transfers, advertised: bool) {
    forall h :: h in tokens && PeerOp(tokens[h].op) ==> Backed(tokens[h], ts, advertised)
  }

  /** A waiting `beginReceive` still has its record: what ended meanwhile ended too recently to be dropped. */
  ghost predicate Waiting(f: InFlight, ts: Transfers, clock: int) {
    && f.id in ts && ts[f.id].dir == Recv && !ts[f.id].relayed
    && f.startedAt <= clock <= f.startedAt + DAY_MS
    && (Terminal(ts[f.id].state) ==> f.startedAt <= ts[f.id].updatedAt)
  }

  ghost predicate AllWaiting(fs: seq<InFlight>, ts: Transfers, clock: int) {
    forall i :: 0 <= i < |fs| ==> Waiting(fs[i], ts, clock)
  }

  ghost predicate NoPeerToken(tokens: Tokens, id: Id) {
    forall h :: h in tokens && tokens[h].id == id ==> !PeerOp(tokens[h].op)
  }

  /** A probe, which times out after four seconds, is answered or given up within a day. */
  ghost predicate Timely(fs: seq<InFlight>, clock: int, now: int) {
    clock <= now && forall i :: 0 <= i < |fs| ==> now <= fs[i].startedAt + DAY_MS
  }

  lemma Tick(fs: seq<InFlight>, ts: Transfers, clock: int, now: int)
    requires AllWaiting(fs, ts, clock) && Timely(fs, clock, now)
    ensures AllWaiting(fs, ts, now)
  {
  }

  /** A record may change state if it does not end, or if no pull or push token names it. */
  lemma TouchKeeps(tokens: Tokens, ts: Transfers, fs: seq<InFlight>, advertised: bool, id: Id, s: State, now: int)
    requires AllBacked(tokens, ts, advertised) && AllWaiting(fs, ts, now) && id in ts
    requires NoPeerToken(tokens, id) || (!Terminal(s) && !Unanswered(s))
    ensures AllBacked(tokens, Touch(ts, id, s, now), advertised) && AllWaiting(fs, Touch(ts, id, s, now), now)
  {
  }

  /** Push credentials do not matter to the invariant. */
  lemma CredentialsKeep(tokens: Tokens, ts: Transfers, fs: seq<InFlight>, advertised: bool, id: Id, push: bool,
                        now: int)
    requires AllBacked(tokens, ts, advertised) && AllWaiting(fs, ts, now) && id in ts
    ensures AllBacked(tokens, ts[id := ts[id].(pushOffered := push)], advertised)
    ensures AllWaiting(fs, ts[id := ts[id].(pushOffered := push)], now)
  {
  }

  lemma RevokeKeeps(tokens: Tokens, ts: Transfers, advertised: bool, id: Id)
    requires AllBacked(tokens, ts, advertised)
    ensures AllBacked(Revoked(tokens, id), ts, advertised) && NoPeerToken(Revoked(tokens, id), id)
  {
  }

  /** A record nobody waits for and no token names may go, and a new one may come. */
  lemma UnusedId(tokens: Tokens, ts: Transfers, fs: seq<InFlight>, advertised: bool, id: Id, now: int)
    requires AllBacked(tokens, ts, advertised) && AllWaiting(fs, ts, now) && id !in ts
    ensures NoPeerToken(tokens, id) && forall i :: 0 <= i < |fs| ==> fs[i].id != id
  {
  }

  class VoleNetFiles {
    /** Whether this node advertises an endpoint that peers can reach. */
    const advertised: bool
    const offerTtlMs: nat
    var transfers: Transfers
    var tokens: Tokens
    var inFlight: seq<InFlight>
    ghost var clock: int

    ghost predicate Valid()
      reads this
    {
      AllBacked(tokens, transfers, advertised) && AllWaiting(inFlight, transfers, clock)
    }

    ghost predicate Ready(now: int)
      reads this
    {
      Valid() && Timely(inFlight, clock, now)
    }

    constructor (advertised: bool, offerTtlMs: nat, ghost start: int)
      ensures Valid() && transfers == map[] && tokens == map[] && inFlight == [] && clock == start
    {
      this.advertised, this.offerTtlMs := advertised, offerTtlMs;
      transfers, tokens, inFlight, clock := map[], map[], [], start;
    }

    /** A terminal transfer has no usable pull or push token. */
    lemma TerminalHasNoToken(id: Id)
      requires Valid() && id in transfers && Terminal(transfers[id].state)
      ensures NoPeerToken(tokens, id)
    {
    }

    method RevokeTokensFor(id: Id)
      modifies this`tokens
      ensures tokens == Revoked(old(tokens), id)
    {
      var todo := tokens.Keys;
      while todo != {}
        invariant todo <= tokens.Keys <= old(tokens).Keys
        invariant forall h :: h in tokens ==> tokens[h] == old(tokens)[h]
        invariant forall h :: h in old(tokens) && h !in todo ==> (h in tokens <==> old(tokens)[h].id != id)
        decreases todo
      {
        var h :| h in todo;
        if tokens[h].id == id { tokens := tokens - {h}; }
        todo := todo - {h};
      }
    }

    /** Change the state of an existing record and, when it ends, revoke what names it. */
    method TouchAndRevoke(id: Id, s: State, now: int)
      requires Ready(now) && id in transfers && Terminal(s)
      modifies this
      ensures Valid() && clock == now && inFlight == old(inFlight)
      ensures transfers == Touch(old(transfers), id, s, now) && tokens == Revoked(old(tokens), id)
    {
      Tick(inFlight, transfers, clock, now);
      RevokeKeeps(tokens, transfers, advertised, id);
      TouchKeeps(Revoked(tokens, id), transfers, inFlight, advertised, id, s, now);
      clock := now;
      transfers := Touch(transfers, id, s, now);
      RevokeTokensFor(id);
    }

    /** Change the state of an existing record that goes on. */
    method TouchOnly(id: Id, s: State, now: int)
      requires Ready(now) && id in transfers && !Terminal(s) && !Unanswered(s)
      modifies this
      ensures Valid() && clock == now && inFlight == old(inFlight) && tokens == old(tokens)
      ensures transfers == Touch(old(transfers), id, s, now)
    {
      Tick(inFlight, transfers, clock, now);
      TouchKeeps(tokens, transfers, inFlight, advertised, id, s, now);
      clock := now;
      transfers := Touch(transfers, id, s, now);
    }

    // ----- sending -----

    /** `sendFile`: mint a pull token when peers can reach this node, and record the offer under a fresh id. */
    method SendFile(id: Id, peer: Peer, relayed: bool, digest: nat, now: int)
      requires Ready(now) && id !in transfers && digest !in tokens
      modifies this
      ensures Valid() && clock == now && inFlight == old(inFlight)
      ensures transfers == old(transfers)[id := Transfer(Send, peer, Offered, relayed, false, now, now)]
      ensures advertised && !relayed ==> tokens == old(tokens)[digest := Token(id, peer, PullOp, now + offerTtlMs)]
      ensures !advertised || relayed ==> tokens == old(tokens)
    {
      Tick(inFlight, transfers, clock, now);
      UnusedId(tokens, transfers, inFlight, advertised, id, now);
      clock := now;
      if advertised && !relayed {
        tokens := tokens[digest := Token(id, peer, PullOp, now + offerTtlMs)];
      }
      transfers := transfers[id := Transfer(Send, peer, Offered, relayed, false, now, now)];
    }

    /** The offer could not be delivered: forget it and what names it. */
    method ForgetUndelivered(id: Id, now: int)
      requires Ready(now) && (id in transfers ==> transfers[id].dir == Send)
      modifies this
      ensures Valid() && clock == now && inFlight == old(inFlight)
      ensures transfers == old(transfers) - {id} && tokens == Revoked(old(tokens), id)
    {
      Tick(inFlight, transfers, clock, now);
      RevokeKeeps(tokens, transfers, advertised, id);
      clock := now;
      transfers := transfers - {id};
      RevokeTokensFor(id);
    }

    /** The receiver chose a mode; pushing or uploading starts at once when what it takes is there. */
    method OnAccept(id: Id, from: Peer, mode: Mode, push: bool, hubKnown: bool, now: int)
      requires Ready(now)
      modifies this
      ensures Valid() && tokens == old(tokens) && inFlight == old(inFlight)
      ensures if id in old(transfers) && Answers(old(transfers[id]), Send, from) && old(transfers[id]).state == Offered
        then transfers == old(transfers)[id := old(transfers[id]).(
          state := if mode == Pull || (mode == Push && push) || (mode == Relay && hubKnown)
            then Transferring else Accepted,
          pushOffered := old(transfers[id]).pushOffered || push, updatedAt := now)]
        else transfers == old(transfers)
    {
      if id in transfers && Answers(transfers[id], Send, from) && transfers[id].state == Offered {
        var starts := match mode case Pull => true case Push => push case Relay => hubKnown;
        TouchOnly(id, if starts then Transferring else Accepted, now);
        hide AllBacked, AllWaiting;
        CredentialsKeep(tokens, transfers, inFlight, advertised, id, transfers[id].pushOffered || push, now);
        transfers := transfers[id := transfers[id].(pushOffered := transfers[id].pushOffered || push)];
      }
    }

    /** The receiver declined, or has the file: either way the record ends and its tokens go. */
    method OnRejectOrDone(id: Id, from: Peer, outcome: State, now: int)
      requires Ready(now) && outcome in {Rejected, Done}
      modifies this
      ensures Valid() && inFlight == old(inFlight)
      ensures if id in old(transfers) && Answers(old(transfers[id]), Send, from)
        then transfers == Touch(old(transfers), id, outcome, now) && tokens == Revoked(old(tokens), id)
        else transfers == old(transfers) && tokens == old(tokens)
    {
      if id in transfers && Answers(transfers[id], Send, from) { TouchAndRevoke(id, outcome, now); }
    }

    // ----- receiving -----

    /** `onOffer` from a well-formed offer on; a known id is a duplicate. */
    method OnOffer(id: Id, from: Peer, relayed: bool, admitted: bool, auto: bool, keyOk: bool, probes: bool, hub: bool,
                   digest: nat, now: int)
      requires Ready(now) && digest !in tokens
      modifies this
      ensures Valid()
      ensures id in old(transfers) || !admitted ==>
        transfers == old(transfers) && tokens == old(tokens) && inFlight == old(inFlight)
      ensures id !in old(transfers) && admitted && !auto ==>
        && transfers == old(transfers)[id := Received(from, Pending, relayed, now)]
        && tokens == old(tokens) && inFlight == old(inFlight)
      ensures id !in old(transfers) && admitted && auto ==>
        var ts := old(transfers)[id := Received(from, Offered, relayed, now)];
        Begun(ts, old(tokens), old(inFlight), id, keyOk, probes, hub, digest, now)
    {
      if id in transfers || !admitted {
        return;
      }
      Tick(inFlight, transfers, clock, now);
      UnusedId(tokens, transfers, inFlight, advertised, id, now);
      clock := now;
      transfers := transfers[id := Received(from, Offered, relayed, now)];
      if auto {
        BeginReceive(id, keyOk, probes, hub, digest, now);
      } else {
        transfers := Touch(transfers, id, Pending, now);
      }
    }

    /** The record of an offer that came in. */
    static function Received(from: Peer, s: State, relayed: bool, now: int): Transfer {
      Transfer(Recv, from, s, relayed, false, now, now)
    }

    /** The operator accepts: an unanswered receive begins, and nothing else does. */
    method AcceptFile(id: Id, keyOk: bool, probes: bool, hub: bool, digest: nat, now: int) returns (begun: bool)
      requires Ready(now) && digest !in tokens
      modifies this
      ensures Valid()
      ensures begun <==> id in old(transfers) && old(transfers[id]).dir == Recv && Unanswered(old(transfers[id]).state)
      ensures begun ==> Begun(old(transfers), old(tokens), old(inFlight), id, keyOk, probes, hub, digest, now)
      ensures !begun ==> transfers == old(transfers) && tokens == old(tokens) && inFlight == old(inFlight)
    {
      begun := id in transfers && transfers[id].dir == Recv && Unanswered(transfers[id].state);
      if begun { BeginReceive(id, keyOk, probes, hub, digest, now); }
    }

    /** The effect of beginning a receive: fail on a bad key, wait for a probe of the sender, or decide at once. */
    ghost predicate Begun(ts: Transfers, toks: Tokens, fs: seq<InFlight>, id: Id, keyOk: bool, probes: bool, hub: bool,
                          digest: nat, now: int)
      requires id in ts
      reads this
    {
      var waits := !ts[id].relayed && probes;
      && (!keyOk ==> transfers == Touch(ts, id, Failed, now) && tokens == toks && inFlight == fs)
      && (keyOk && waits ==> transfers == ts && tokens == toks && inFlight == fs + [InFlight(id, now)])
      && (keyOk && !waits ==> Decided(ts, toks, id, false, hub, digest, now) && inFlight == fs)
    }

    /** Up to the first wait: unseal the key, and decide at once unless the sender has to be probed. */
    method BeginReceive(id: Id, keyOk: bool, probes: bool, hub: bool, digest: nat, now: int)
      requires Ready(now) && digest !in tokens
      requires id in transfers && transfers[id].dir == Recv && Unanswered(transfers[id].state)
      modifies this
      ensures Valid() && clock == now
      ensures Begun(old(transfers), old(tokens), old(inFlight), id, keyOk, probes, hub, digest, now)
    {
      Tick(inFlight, transfers, clock, now);
      clock := now;
      if !keyOk {
        TouchKeeps(tokens, transfers, inFlight, advertised, id, Failed, now);
        transfers := Touch(transfers, id, Failed, now);
      } else if !transfers[id].relayed && probes {
        inFlight := inFlight + [InFlight(id, now)];
      } else {
        var mode := Decide(id, false, hub, digest, now);
      }
    }

    /**
     * The effect of choosing a mode. A relayed offer is accepted if a hub is known; a direct one if the sender
     * answered the probe, or can reach this node, or shares a hub with it. What peers can reach mints a push token
     * for a direct offer, whether it pulls or is pushed to.
     */
    ghost predicate Decided(ts: Transfers, toks: Tokens, id: Id, probeOk: bool, hub: bool, digest: nat, now: int)
      requires id in ts
      reads this
    {
      var accepts := if ts[id].relayed then hub else probeOk || advertised || hub;
      && transfers == Touch(ts, id, if accepts then Accepted else Rejected, now)
      && tokens == if advertised && !ts[id].relayed
                   then toks[digest := Token(id, ts[id].peerId, PushOp, now + offerTtlMs)] else toks
    }

    /** Choose how to receive: from a sender that answers, else at an endpoint of this node, else over a hub. */
    method Decide(id: Id, probeOk: bool, hub: bool, digest: nat, now: int) returns (mode: Option<Mode>)
      requires Ready(now) && digest !in tokens && id in transfers && transfers[id].dir == Recv
      requires probeOk ==> !transfers[id].relayed
      modifies this
      ensures Valid() && clock == now && inFlight == old(inFlight)
      ensures Decided(old(transfers), old(tokens), id, probeOk, hub, digest, now)
      ensures var relayed := old(transfers)[id].relayed;
        && (mode == Some(Pull) <==> !relayed && probeOk)
        && (mode == Some(Push) <==> !relayed && !probeOk && advertised)
        && (mode == Some(Relay) <==> hub && (relayed || (!probeOk && !advertised)))
        && (mode == None <==> transfers[id].state == Rejected)
    {
      Tick(inFlight, transfers, clock, now);
      clock := now;
      var relayed, peer := transfers[id].relayed, transfers[id].peerId;
      mode := None;
      if relayed {
        if hub { mode := Some(Relay); }
      } else if probeOk {
        mode := Some(Pull);
      } else if advertised {
        mode := Some(Push);
      } else if hub {
        mode := Some(Relay);
      }
      if mode == None {
        assert NoPeerToken(tokens, id);
        TouchKeeps(tokens, transfers, inFlight, advertised, id, Rejected, now);
        transfers := Touch(transfers, id, Rejected, now);
      } else {
        TouchKeeps(tokens, transfers, inFlight, advertised, id, Accepted, now);
        transfers := Touch(transfers, id, Accepted, now);
        if advertised && mode != Some(Relay) {
          tokens := tokens[digest := Token(id, peer, PushOp, now + offerTtlMs)];
        }
      }
    }

    /** A probe came back: the record may have ended meanwhile, and is decided on all the same. */
    method Resume(k: nat, probeOk: bool, hub: bool, digest: nat, now: int)
      requires Ready(now) && digest !in tokens && k < |inFlight|
      modifies this
      ensures Valid() && clock == now
      ensures inFlight == old(inFlight)[..k] + old(inFlight)[k + 1..]
      ensures Decided(old(transfers), old(tokens), old(inFlight)[k].id, probeOk, hub, digest, now)
    {
      var id := inFlight[k].id;
      assert Waiting(inFlight[k], transfers, clock);
      inFlight := inFlight[..k] + inFlight[k + 1..];
      var mode := Decide(id, probeOk, hub, digest, now);
    }

    method RejectFile(id: Id, now: int)
      requires Ready(now)
      modifies this
      ensures Valid() && inFlight == old(inFlight)
      ensures if id in old(transfers) && old(transfers[id]).dir == Recv
        then transfers == Touch(old(transfers), id, Rejected, now) && tokens == Revoked(old(tokens), id)
        else transfers == old(transfers) && tokens == old(tokens)
    {
      if id in transfers && transfers[id].dir == Recv { TouchAndRevoke(id, Rejected, now); }
    }

    method OnRelayReady(id: Id, from: Peer, hubKnown: bool, now: int)
      requires Ready(now)
      modifies this
      ensures Valid() && tokens == old(tokens) && inFlight == old(inFlight)
      ensures transfers ==
        if id in old(transfers) && Answers(old(transfers[id]), Recv, from)
           && old(transfers[id]).state == Accepted && hubKnown
        then Touch(old(transfers), id, Transferring, now) else old(transfers)
    {
      if id in transfers && Answers(transfers[id], Recv, from) && transfers[id].state == Accepted && hubKnown {
        TouchOnly(id, Transferring, now);
      }
    }

    // ----- either side -----

    /** The record is of this direction and with this peer. */
    static predicate Answers(t: Transfer, dir: Direction, from: Peer) { t.dir == dir && t.peerId == from }

    /** The operator cancels, or the peer does: `from` is the peer's id then. */
    method Cancel(id: Id, byPeer: bool, from: Peer, now: int)
      requires Ready(now)
      modifies this
      ensures Valid() && inFlight == old(inFlight)
      ensures if id in old(transfers) && (byPeer ==> old(transfers[id]).peerId == from)
        then transfers == Touch(old(transfers), id, Cancelled, now) && tokens == Revoked(old(tokens), id)
        else transfers == old(transfers) && tokens == old(tokens)
    {
      if id in transfers && (byPeer ==> transfers[id].peerId == from) { TouchAndRevoke(id, Cancelled, now); }
    }

    /** The peer reports an error: push instead if it could not pull and left credentials, else fail. */
    method OnPeerError(id: Id, from: Peer, pullUnreachable: bool, now: int)
      requires Ready(now)
      modifies this
      ensures Valid() && inFlight == old(inFlight)
      ensures if id !in old(transfers) || old(transfers[id]).peerId != from
                 || old(transfers[id]).state in {Done, Failed}
        then transfers == old(transfers) && tokens == old(tokens)
        else if old(transfers[id]).dir == Send && pullUnreachable && old(transfers[id]).pushOffered
        then transfers == Touch(old(transfers), id, Transferring, now) && tokens == old(tokens)
        else transfers == Touch(old(transfers), id, Failed, now) && tokens == Revoked(old(tokens), id)
    {
      if id !in transfers || transfers[id].peerId != from || transfers[id].state in {Done, Failed} {
        return;
      }
      if transfers[id].dir == Send && pullUnreachable && transfers[id].pushOffered {
        TouchOnly(id, Transferring, now);
      } else {
        TouchAndRevoke(id, Failed, now);
      }
    }

    /** A running transfer reports progress; a record that was dropped meanwhile is changed out of sight. */
    method Progress(id: Id, attached: bool, s: State, now: int)
      requires Ready(now) && s in {Transferring, Verifying}
      modifies this
      ensures Valid() && tokens == old(tokens) && inFlight == old(inFlight)
      ensures attached && id in old(transfers) ==> transfers == Touch(old(transfers), id, s, now)
      ensures !(attached && id in old(transfers)) ==> transfers == old(transfers)
    {
      if attached && id in transfers { TouchOnly(id, s, now); }
    }

    /** A running transfer lands or fails; its tokens go even if its record was dropped meanwhile. */
    method End(id: Id, attached: bool, s: State, now: int)
      requires Ready(now) && s in {Done, Failed}
      modifies this
      ensures Valid() && inFlight == old(inFlight) && tokens == Revoked(old(tokens), id)
      ensures attached && id in old(transfers) ==> transfers == Touch(old(transfers), id, s, now)
      ensures !(attached && id in old(transfers)) ==> transfers == old(transfers)
    {
      if attached && id in transfers {
        TouchAndRevoke(id, s, now);
      } else {
        RevokeKeeps(tokens, transfers, advertised, id);
        RevokeTokensFor(id);
      }
    }

    // ----- tokens over HTTP, and the hub's tokens -----

    /** An expired token is forgotten; a pull or push token that is not names a transfer in progress. */
    method LookupToken(digest: nat, now: int) returns (found: set<Token>)
      requires Ready(now)
      modifies this
      ensures Valid() && transfers == old(transfers) && inFlight == old(inFlight)
      ensures found ==
        if digest in old(tokens) && now <= old(tokens)[digest].expiresAt then {old(tokens)[digest]} else {}
      ensures tokens == if found == {} then old(tokens) - {digest} else old(tokens)
      ensures forall e :: e in found && PeerOp(e.op) ==> Backed(e, transfers, advertised)
    {
      found := {};
      if digest in tokens {
        if now > tokens[digest].expiresAt {
          tokens := tokens - {digest};
        } else {
          found := {tokens[digest]};
        }
      }
      Tick(inFlight, transfers, clock, now);
      clock := now;
      assert digest !in old(tokens) ==> old(tokens) - {digest} == old(tokens);
    }

    method MintHubToken(blobId: Id, member: Peer, op: Op, digest: nat, now: int)
      requires Ready(now) && digest !in tokens && !PeerOp(op)
      modifies this
      ensures Valid() && transfers == old(transfers) && inFlight == old(inFlight)
      ensures tokens == old(tokens)[digest := Token(blobId, member, op, now + offerTtlMs)]
    {
      Tick(inFlight, transfers, clock, now);
      clock := now;
      tokens := tokens[digest := Token(blobId, member, op, now + offerTtlMs)];
    }

    // ----- housekeeping -----

    predicate Expires(t: Transfer, now: int) { !Terminal(t.state) && now - t.createdAt > offerTtlMs }
    predicate Drops(t: Transfer, now: int) { Terminal(t.state) && now - t.updatedAt > DAY_MS }

    /** What is left of the records: overdue ones expired, old finished ones gone. */
    function SweptTransfers(ts: Transfers, now: int): Transfers {
      map id | id in ts && !Drops(ts[id], now) :: Aged(ts[id], now)
    }

    function Aged(t: Transfer, now: int): Transfer {
      if Expires(t, now) then t.(state := Expired, updatedAt := now) else t
    }

    function SweptTokens(toks: Tokens, ts: Transfers, now: int): Tokens {
      map h | h in toks && !(toks[h].id in ts && Expires(ts[toks[h].id], now)) :: toks[h]
    }

    /** One record of the sweep: expired, dropped or left. */
    function SweptRecord(ts: Transfers, id: Id, now: int): Transfers
      requires id in ts
    {
      if Expires(ts[id], now) then Touch(ts, id, Expired, now) else if Drops(ts[id], now) then ts - {id} else ts
    }

    method SweepOne(id: Id, now: int)
      requires id in transfers
      modifies this`transfers, this`tokens
      ensures transfers == SweptRecord(old(transfers), id, now)
      ensures tokens == if Expires(old(transfers[id]), now) then Revoked(old(tokens), id) else old(tokens)
    {
      var t := transfers[id];
      if Expires(t, now) {
        transfers := Touch(transfers, id, Expired, now);
        RevokeTokensFor(id);
      }
      if Drops(t, now) {
        transfers := transfers - {id};
      }
    }

    /** The records but those of `todo` are swept. */
    ghost predicate RecordsSwept(ts: Transfers, us: Transfers, todo: set<Id>, now: int) {
      && todo <= us.Keys <= ts.Keys && (forall id :: id in todo ==> us[id] == ts[id])
      && (forall id :: id in ts && id !in todo ==> (id in us <==> !Drops(ts[id], now)))
      && (forall id :: id in us && id !in todo ==> us[id] == Aged(ts[id], now))
    }

    ghost predicate TokensSwept(ts: Transfers, toks: Tokens, vs: Tokens, todo: set<Id>, now: int) {
      && (forall h :: h in vs ==> h in toks && vs[h] == toks[h])
      && forall h :: h in toks ==>
           (h in vs <==> !(toks[h].id in ts && toks[h].id !in todo && Expires(ts[toks[h].id], now)))
    }

    lemma RecordsStep(ts: Transfers, us: Transfers, todo: set<Id>, id: Id, now: int)
      requires RecordsSwept(ts, us, todo, now) && id in todo
      ensures RecordsSwept(ts, SweptRecord(us, id, now), todo - {id}, now)
    {
      NeverBoth(now);
      hide Drops, Expires;
    }

    lemma TokensStep(ts: Transfers, toks: Tokens, vs: Tokens, todo: set<Id>, id: Id, now: int)
      requires TokensSwept(ts, toks, vs, todo, now) && id in todo && id in ts
      ensures TokensSwept(ts, toks, if Expires(ts[id], now) then Revoked(vs, id) else vs, todo - {id}, now)
    {
      hide Expires;
    }

    lemma AllSwept(ts: Transfers, us: Transfers, toks: Tokens, vs: Tokens, now: int)
      requires RecordsSwept(ts, us, {}, now) && TokensSwept(ts, toks, vs, {}, now)
      ensures us == SweptTransfers(ts, now) && vs == SweptTokens(toks, ts, now)
    {
      hide Drops, Expires;
    }

    /** `sweepTransfers`: no record is expired and dropped in one sweep. */
    method Sweep(now: int)
      requires Ready(now)
      modifies this
      ensures Valid() && clock == now && inFlight == old(inFlight)
      ensures transfers == SweptTransfers(old(transfers), now)
      ensures tokens == SweptTokens(old(tokens), old(transfers), now)
      ensures forall id :: id in old(transfers) ==>
        var t := old(transfers)[id];
        var overdue := !Terminal(t.state) && t.createdAt + offerTtlMs < now;
        && (id !in transfers <==> Terminal(t.state) && t.updatedAt + 24 * 60 * 60 * 1000 < now)
        && (id in transfers && overdue ==> transfers[id] == t.(state := Expired, updatedAt := now))
        && (id in transfers && !overdue ==> transfers[id] == t)
        && (overdue ==> forall h :: h in tokens ==> tokens[h].id != id)
    {
      Tick(inFlight, transfers, clock, now);
      SweepKeeps(tokens, transfers, inFlight, now);
      hide AllBacked, AllWaiting, Timely, Expires, Drops, TokensSwept, SweptTransfers, SweptTokens;
      hide SweptRecord, Aged, Revoked;
      clock := now;
      ghost var ts, toks := transfers, tokens;
      var todo := transfers.Keys;
      NothingSwept(ts, toks, now);
      while todo != {}
        invariant inFlight == old(inFlight) && clock == now
        invariant RecordsSwept(ts, transfers, todo, now) && TokensSwept(ts, toks, tokens, todo, now)
        decreases todo
      {
        var id :| id in todo;
        RecordsStep(ts, transfers, todo, id, now);
        TokensStep(ts, toks, tokens, todo, id, now);
        SweepOne(id, now);
        todo := todo - {id};
      }
      AllSwept(ts, transfers, toks, tokens, now);
    }

    lemma NothingSwept(ts: Transfers, toks: Tokens, now: int)
      ensures RecordsSwept(ts, ts, ts.Keys, now) && TokensSwept(ts, toks, toks, ts.Keys, now)
    {
    }

    lemma NeverBoth(now: int)
      ensures forall t: Transfer :: !(Expires(t, now) && Drops(t, now))
    {
    }

    lemma SweepKeeps(toks: Tokens, ts: Transfers, fs: seq<InFlight>, now: int)
      requires AllBacked(toks, ts, advertised) && AllWaiting(fs, ts, now)
      ensures AllBacked(SweptTokens(toks, ts, now), SweptTransfers(ts, now), advertised)
      ensures AllWaiting(fs, SweptTransfers(ts, now), now)
    {
    }

    method Stop()
      requires Valid()
      modifies this`tokens
      ensures Valid() && tokens == map[]
    {
      tokens := map[];
    }
  }
}
