/**
  The server's table of connected peers and the goroutines that wait for their termination. Each
  handler runs under the server's mutex and is one step.
*/
module PeerTable {

  /** A compressed key read as a big-endian number: on equal lengths byte order is numeric order. */
  type PubKey = nat

  /** `inbound` is the flag that newPeer receives; `accepted` is whether the remote side dialed. */
  datatype Peer = Peer(id: nat, pub: PubKey, inbound: bool, accepted: bool)

  datatype Table = Table(
    byPub: map<PubKey, Peer>,
    inbound: map<PubKey, Peer>,
    outbound: map<PubKey, Peer>,
    ignored: set<Peer>,          // ignorePeerTermination
    watchers: set<Peer>,         // peerTerminationWatcher goroutines that have not run yet
    pending: set<PubKey>,        // keys of persistentConnReqs
    persistent: set<PubKey>,     // keys of persistentPeers
    nextId: nat)

  datatype Outcome = Duplicate | Cancelled | Dropped | Connected | FailedToStart | NotFound | Disconnected

  /** The connection of the node with the smaller key survives. */
  predicate ShouldDropLocal(local: PubKey, remote: PubKey) {
    local > remote
  }

  function AddPeer(t: Table, p: Peer): Table {
    var t1 := t.(byPub := t.byPub[p.pub := p], watchers := t.watchers + {p});
    if p.inbound then t1.(inbound := t.inbound[p.pub := p]) else t1.(outbound := t.outbound[p.pub := p])
  }

  function RemovePeer(t: Table, p: Peer): Table {
    var t1 := t.(byPub := t.byPub - {p.pub});
    if p.inbound then t1.(inbound := t.inbound - {p.pub}) else t1.(outbound := t.outbound - {p.pub})
  }

  /** Drop the current connection of a key, if any, and tell its watcher to stand down. */
  function Evict(t: Table, pub: PubKey): Table {
    if pub !in t.byPub then t
    else
      var p := t.byPub[pub];
      var t1 := RemovePeer(t, p);
      t1.(ignored := t1.ignored + {p})
  }

  /** peerConnected: a peer that fails to start is not added. */
  function PeerConnected(t: Table, pub: PubKey, inbound: bool, accepted: bool, starts: bool): (Table, Outcome) {
    if !starts then (t.(nextId := t.nextId + 1), FailedToStart)
    else (AddPeer(t.(nextId := t.nextId + 1), Peer(t.nextId, pub, inbound, accepted)), Connected)
  }

  /** The direction flag is passed inverted, here and for outbound connections. */
  function InboundConnected(t: Table, local: PubKey, pub: PubKey, starts: bool): (Table, Outcome) {
    if pub in t.inbound then (t, Duplicate)
    else if pub in t.byPub && !ShouldDropLocal(local, pub) then (t, Dropped)
    else
      var t1 := Evict(t, pub);
      PeerConnected(t1.(pending := t1.pending - {pub}), pub, false, true, starts)
  }

  /** `requested` says that the connection manager made the connection for a stored request. */
  function OutboundConnected(t: Table, local: PubKey, pub: PubKey, requested: bool, starts: bool): (Table, Outcome) {
    if pub in t.outbound then (t, Duplicate)
    else if pub !in t.pending && requested then (t, Cancelled)
    else
      var t0 := t.(pending := t.pending - {pub});
      if pub in t0.byPub && ShouldDropLocal(local, pub) then (t0, Dropped)
      else PeerConnected(Evict(t0, pub), pub, true, false, starts)
  }

  function DisconnectPeer(t: Table, pub: PubKey): (Table, Outcome) {
    if pub !in t.byPub then (t, NotFound)
    else
      var t0 := t.(pending := t.pending - {pub}, persistent := t.persistent - {pub});
      (Evict(t0, pub), Disconnected)
  }

  /** The watcher of `p` runs: it cleans up only if the server has not done so already. */
  function Terminated(t: Table, p: Peer): Table {
    var t0 := t.(watchers := t.watchers - {p});
    if p in t.ignored then t0.(ignored := t.ignored - {p})
    else
      var t1 := RemovePeer(t0, p);
      if p.pub in t.persistent && p.pub !in t.pending then t1.(pending := t1.pending + {p.pub}) else t1
  }

  datatype Event =
    | Inbound(pub: PubKey, starts: bool)
    | Outbound(pub: PubKey, requested: bool, starts: bool)
    | Disconnect(pub: PubKey)
    | WatcherRuns(peer: Peer)
    | Persist(pub: PubKey)

  predicate Enabled(t: Table, e: Event) {
    e.WatcherRuns? ==> e.peer in t.watchers
  }

  function Next(t: Table, local: PubKey, e: Event): Table {
    match e
    case Inbound(pub, starts) => InboundConnected(t, local, pub, starts).0
    case Outbound(pub, requested, starts) => OutboundConnected(t, local, pub, requested, starts).0
    case Disconnect(pub) => DisconnectPeer(t, pub).0
    case WatcherRuns(p) => Terminated(t, p)
    case Persist(pub) => t.(persistent := t.persistent + {pub}, pending := t.pending + {pub})
  }

  /****** Invariant ******/

  predicate Current(t: Table, p: Peer) {
    p.pub in t.byPub && t.byPub[p.pub] == p
  }

  /** The two direction maps split the table, by the flag of each peer. */
  predicate Partition(t: Table) {
    && t.inbound.Keys !! t.outbound.Keys
    && t.inbound.Keys + t.outbound.Keys == t.byPub.Keys
    && (forall k <- t.byPub :: t.byPub[k].pub == k && (t.byPub[k].inbound <==> k in t.inbound))
    && (forall k <- t.inbound :: t.inbound[k] == t.byPub[k])
    && (forall k <- t.outbound :: t.outbound[k] == t.byPub[k])
  }

  /** A peer with an outstanding watcher is current or ignored, never both. */
  predicate Watched(t: Table) {
    && (forall p <- t.watchers :: Current(t, p) <==> p !in t.ignored)
    && (forall k <- t.byPub :: t.byPub[k] in t.watchers)
    && t.ignored <= t.watchers
    && (forall p <- t.watchers :: p.id < t.nextId)
  }

  /** What the inverted flag amounts to. */
  predicate FlagsInverted(t: Table) {
    forall k <- t.byPub :: t.byPub[k].inbound == !t.byPub[k].accepted
  }

  predicate Inv(t: Table) {
    Partition(t) && Watched(t) && FlagsInverted(t)
  }

  lemma EvictKeeps(t: Table, pub: PubKey)
    requires Inv(t)
    ensures Inv(Evict(t, pub)) && pub !in Evict(t, pub).byPub
  {
    if pub in t.byPub {
      RemovePartition(t, t.byPub[pub]);
    }
  }

  lemma AddPartition(t: Table, p: Peer)
    requires Partition(t) && p.pub !in t.byPub
    ensures Partition(AddPeer(t, p))
  {
    var t' := AddPeer(t, p);
    assert t'.byPub.Keys == t.byPub.Keys + {p.pub};
    if p.inbound {
      assert t'.inbound.Keys == t.inbound.Keys + {p.pub};
    } else {
      assert t'.outbound.Keys == t.outbound.Keys + {p.pub};
    }
  }

  lemma AddWatched(t: Table, p: Peer)
    requires Partition(t) && Watched(t) && p.pub !in t.byPub && p.id == t.nextId
    ensures Watched(AddPeer(t.(nextId := t.nextId + 1), p))
  {
    var t' := AddPeer(t.(nextId := t.nextId + 1), p);
    forall q | q in t'.watchers
      ensures Current(t', q) <==> q !in t'.ignored
    {
      if q != p {
        assert Current(t, q) <==> q !in t.ignored;
      }
    }
  }

  lemma AddKeeps(t: Table, pub: PubKey, inbound: bool, starts: bool)
    requires Inv(t) && pub !in t.byPub
    ensures Inv(PeerConnected(t, pub, inbound, !inbound, starts).0)
  {
    if starts {
      var p := Peer(t.nextId, pub, inbound, !inbound);
      AddPartition(t.(nextId := t.nextId + 1), p);
      AddWatched(t, p);
    }
  }

  lemma RemovePartition(t: Table, p: Peer)
    requires Partition(t) && Current(t, p)
    ensures Partition(RemovePeer(t, p))
  {
    var t' := RemovePeer(t, p);
    assert t'.byPub.Keys == t.byPub.Keys - {p.pub};
    if p.inbound {
      assert t'.inbound.Keys == t.inbound.Keys - {p.pub};
    } else {
      assert t'.outbound.Keys == t.outbound.Keys - {p.pub};
    }
  }

  lemma TerminatedKeeps(t: Table, p: Peer)
    requires Inv(t) && p in t.watchers
    ensures Inv(Terminated(t, p))
  {
    if Current(t, p) {
      RemovePartition(t.(watchers := t.watchers - {p}), p);
    }
    TerminatedWatched(t, p);
  }

  /** The server has already dealt with the peer: only the watcher and its mark go. */
  lemma StandDown(t: Table, p: Peer)
    requires Partition(t) && Watched(t) && p in t.ignored
    ensures Watched(t.(watchers := t.watchers - {p}, ignored := t.ignored - {p}))
  {
    assert !Current(t, p);
  }

  lemma CleanUp(t: Table, t': Table, p: Peer)
    requires Partition(t) && Watched(t) && p in t.watchers && p !in t.ignored
    requires t'.byPub == t.byPub - {p.pub} && t'.watchers == t.watchers - {p}
    requires t'.ignored == t.ignored && t'.nextId == t.nextId
    ensures Watched(t')
  {
    assert Current(t, p);
    forall q | q in t'.watchers
      ensures Current(t', q) <==> q !in t'.ignored
    {
      assert Current(t, q) <==> q !in t.ignored;
      assert Current(t', q) <==> Current(t, q);
    }
  }

  lemma TerminatedWatched(t: Table, p: Peer)
    requires Partition(t) && Watched(t) && p in t.watchers
    ensures Watched(Terminated(t, p))
  {
    if p in t.ignored {
      StandDown(t, p);
    } else {
      CleanUp(t, Terminated(t, p), p);
    }
  }

  lemma InboundKeeps(t: Table, local: PubKey, pub: PubKey, starts: bool)
    requires Inv(t)
    ensures Inv(InboundConnected(t, local, pub, starts).0)
  {
    EvictKeeps(t, pub);
    var t1 := Evict(t, pub);
    AddKeeps(t1.(pending := t1.pending - {pub}), pub, false, starts);
  }

  lemma OutboundKeeps(t: Table, local: PubKey, pub: PubKey, requested: bool, starts: bool)
    requires Inv(t)
    ensures Inv(OutboundConnected(t, local, pub, requested, starts).0)
  {
    var t0 := t.(pending := t.pending - {pub});
    EvictKeeps(t0, pub);
    AddKeeps(Evict(t0, pub), pub, true, starts);
  }

  lemma StepKeepsInv(t: Table, local: PubKey, e: Event)
    requires Inv(t) && Enabled(t, e)
    ensures Inv(Next(t, local, e))
  {
    match e
    case Inbound(pub, starts) => InboundKeeps(t, local, pub, starts);
    case Outbound(pub, requested, starts) => OutboundKeeps(t, local, pub, requested, starts);
    case Disconnect(pub) => EvictKeeps(t.(pending := t.pending - {pub}, persistent := t.persistent - {pub}), pub);
    case WatcherRuns(p) => TerminatedKeeps(t, p);
    case Persist(_) =>
  }

  predicate Legal(t: Table, local: PubKey, es: seq<Event>)
    decreases |es|
  {
    es == [] || (Enabled(t, es[0]) && Legal(Next(t, local, es[0]), local, es[1..]))
  }

  function Exec(t: Table, local: PubKey, es: seq<Event>): Table
    decreases |es|
  {
    if es == [] then t else Exec(Next(t, local, es[0]), local, es[1..])
  }

  const Empty := Table(map[], map[], map[], {}, {}, {}, {}, 0)

  lemma {:induction false} RunKeepsInv(t: Table, local: PubKey, es: seq<Event>)
    requires Inv(t) && Legal(t, local, es)
    ensures Inv(Exec(t, local, es))
    decreases |es|
  {
    if es != [] {
      StepKeepsInv(t, local, es[0]);
      RunKeepsInv(Next(t, local, es[0]), local, es[1..]);
    }
  }

  /**
    In every run: a watcher removes its own peer if that is still the current one, and otherwise
    leaves the table alone, so it never removes a successor; other keys are never touched.
  */
  lemma WatcherSparesSuccessor(local: PubKey, es: seq<Event>, p: Peer)
    requires Legal(Empty, local, es) && p in Exec(Empty, local, es).watchers
    ensures var t := Exec(Empty, local, es);
            var t' := Terminated(t, p);
            && Partition(t) && (Current(t, p) <==> p !in t.ignored)
            && t'.byPub == (if Current(t, p) then t.byPub - {p.pub} else t.byPub)
            && (!Current(t, p) ==> t'.inbound == t.inbound && t'.outbound == t.outbound)
  {
    RunKeepsInv(Empty, local, es);
  }

  /** A connection is refused as a duplicate exactly when the current one runs in the opposite direction. */
  lemma DuplicateMeansOpposite(t: Table, local: PubKey, pub: PubKey, requested: bool, starts: bool)
    requires Inv(t)
    ensures InboundConnected(t, local, pub, starts).1 == Duplicate <==> pub in t.byPub && !t.byPub[pub].accepted
    ensures OutboundConnected(t, local, pub, requested, starts).1 == Duplicate <==>
            pub in t.byPub && t.byPub[pub].accepted
  {
  }

  /****** What each handler does, read off the tables ******/

  /** Other keys keep their peer and their requests; identities only grow. */
  ghost predicate OthersKept(t: Table, t': Table, pub: PubKey) {
    && (forall k | k != pub :: (k in t'.byPub <==> k in t.byPub) && (k in t.byPub ==> t'.byPub[k] == t.byPub[k]))
    && (forall k | k != pub :: (k in t'.pending <==> k in t.pending) && (k in t'.persistent <==> k in t.persistent))
    && t.nextId <= t'.nextId
  }

  /** The peer that was there, if any, is out, and its watcher will stand down. */
  ghost predicate Evicted(t: Table, t': Table, pub: PubKey) {
    && OthersKept(t, t', pub) && (pub in t'.persistent <==> pub in t.persistent)
    && t'.ignored == t.ignored + (if pub in t.byPub then {t.byPub[pub]} else {})
    && t.watchers <= t'.watchers && pub !in t'.pending
  }

  /** A new peer, from the side that dialed it, has taken the key; or it failed to start and nobody has. */
  ghost predicate Installed(t: Table, t': Table, pub: PubKey, accepted: bool, starts: bool, outcome: Outcome) {
    && Evicted(t, t', pub)
    && if starts then
         && outcome == Connected && pub in t'.byPub
         && var p := t'.byPub[pub];
            p.id == t.nextId < t'.nextId && p.pub == pub && p.accepted == accepted && t'.watchers == t.watchers + {p}
       else outcome == FailedToStart && pub !in t'.byPub && t'.watchers == t.watchers
  }

  /**
    Inbound: refused when the present connection is one we dialed; when the present one was accepted,
    the new one replaces it if our key is the greater one and is dropped otherwise.
  */
  ghost predicate InboundDone(t: Table, local: PubKey, pub: PubKey, starts: bool, t': Table, outcome: Outcome) {
    if pub in t.byPub && !t.byPub[pub].accepted then outcome == Duplicate && t' == t
    else if pub in t.byPub && local <= pub then outcome == Dropped && t' == t
    else Installed(t, t', pub, true, starts, outcome)
  }

  lemma InboundOutcome(t: Table, local: PubKey, pub: PubKey, starts: bool)
    requires Inv(t)
    ensures var (t', outcome) := InboundConnected(t, local, pub, starts);
            InboundDone(t, local, pub, starts, t', outcome)
  {
  }

  /**
    Outbound: refused when the present connection was accepted, and when its request was cancelled;
    when the present one was dialed, the new one replaces it unless our key is the greater one.
  */
  ghost predicate OutboundDone(t: Table, local: PubKey, pub: PubKey, requested: bool, starts: bool, t': Table,
                               outcome: Outcome) {
    if pub in t.byPub && t.byPub[pub].accepted then outcome == Duplicate && t' == t
    else if requested && pub !in t.pending then outcome == Cancelled && t' == t
    else if pub in t.byPub && local > pub then outcome == Dropped && t' == t.(pending := t.pending - {pub})
    else Installed(t, t', pub, false, starts, outcome)
  }

  lemma OutboundOutcome(t: Table, local: PubKey, pub: PubKey, requested: bool, starts: bool)
    requires Inv(t)
    ensures var (t', outcome) := OutboundConnected(t, local, pub, requested, starts);
            OutboundDone(t, local, pub, requested, starts, t', outcome)
  {
  }

  /** Disconnecting an unknown peer is an error; a known one goes, is not watched for, and is not dialed again. */
  ghost predicate DisconnectDone(t: Table, pub: PubKey, t': Table, outcome: Outcome) {
    if pub !in t.byPub then outcome == NotFound && t' == t
    else
      && outcome == Disconnected && OthersKept(t, t', pub)
      && pub !in t'.byPub && pub !in t'.pending && pub !in t'.persistent
      && t'.ignored == t.ignored + {t.byPub[pub]} && t'.watchers == t.watchers
  }

  lemma DisconnectOutcome(t: Table, pub: PubKey)
    requires Inv(t)
    ensures var (t', outcome) := DisconnectPeer(t, pub); DisconnectDone(t, pub, t', outcome)
  {
  }

  /**
    A watcher that was told to stand down only forgets that; any other one removes its peer and, if
    the peer is persistent, makes sure that a connection request is pending.
  */
  ghost predicate WatcherDone(t: Table, p: Peer, t': Table) {
    && t'.watchers == t.watchers - {p} && t'.persistent == t.persistent && t'.nextId == t.nextId
    && if p in t.ignored then
         t'.byPub == t.byPub && t'.pending == t.pending && t'.ignored == t.ignored - {p}
       else
         && OthersKept(t, t', p.pub) && p.pub !in t'.byPub && t'.ignored == t.ignored
         && (p.pub in t'.pending <==> p.pub in t.pending || p.pub in t.persistent)
  }

  lemma WatcherOutcome(t: Table, p: Peer)
    requires Inv(t) && p in t.watchers
    ensures WatcherDone(t, p, Terminated(t, p))
  {
  }

  /**
    Both connections of a pair of nodes that dial each other reach `local`, its own dial first or
    second; `requested` when the dial was made for a stored connection request.
  */
  function AfterBoth(t: Table, local: PubKey, remote: PubKey, ownFirst: bool, requested: bool): Table {
    if ownFirst then InboundConnected(OutboundConnected(t, local, remote, requested, true).0, local, remote, true).0
    else OutboundConnected(InboundConnected(t, local, remote, true).0, local, remote, requested, true).0
  }

  predicate Dialed(t: Table, remote: PubKey) {
    remote in t.byPub && !t.byPub[remote].accepted
  }

  predicate Accepted(t: Table, remote: PubKey) {
    remote in t.byPub && t.byPub[remote].accepted
  }

  /**
    Two nodes that dial each other at once: whatever the order of their keys, each keeps the
    connection it handles first. So the dial of `a` survives at both ends if and only if `a` handles
    its own dial first and `b` does not, and a connection survives if and only if exactly one node
    handles its own dial first.
  */
  lemma SimultaneousConnections(ta: Table, tb: Table, a: PubKey, b: PubKey, aFirst: bool, bFirst: bool,
                                aRequested: bool, bRequested: bool)
    requires Inv(ta) && Inv(tb) && b !in ta.byPub && a !in tb.byPub
    requires (aRequested ==> b in ta.pending) && (bRequested ==> a in tb.pending)
    ensures var ta', tb' := AfterBoth(ta, a, b, aFirst, aRequested), AfterBoth(tb, b, a, bFirst, bRequested);
            && (Dialed(ta', b) && Accepted(tb', a) <==> aFirst && !bFirst)
            && (Accepted(ta', b) && Dialed(tb', a) <==> !aFirst && bFirst)
            && ((Dialed(ta', b) && Accepted(tb', a)) || (Accepted(ta', b) && Dialed(tb', a)) <==> aFirst != bFirst)
  {
    KeepsFirst(ta, a, b, aFirst, aRequested);
    KeepsFirst(tb, b, a, bFirst, bRequested);
  }

  lemma KeepsFirst(t: Table, local: PubKey, remote: PubKey, ownFirst: bool, requested: bool)
    requires Inv(t) && remote !in t.byPub && (requested ==> remote in t.pending)
    ensures if ownFirst then Dialed(AfterBoth(t, local, remote, ownFirst, requested), remote)
            else Accepted(AfterBoth(t, local, remote, ownFirst, requested), remote)
  {
    if ownFirst {
      OutboundKeeps(t, local, remote, requested, true);
      DuplicateMeansOpposite(OutboundConnected(t, local, remote, requested, true).0, local, remote, requested, true);
    } else {
      InboundKeeps(t, local, remote, true);
      DuplicateMeansOpposite(InboundConnected(t, local, remote, true).0, local, remote, requested, true);
    }
  }

  /****** The object ******/

  class Server {
    const localKey: PubKey
    var peersByPub: map<PubKey, Peer>
    var inboundPeers: map<PubKey, Peer>
    var outboundPeers: map<PubKey, Peer>
    var ignorePeerTermination: set<Peer>
    var watchers: set<Peer>
    var persistentConnReqs: set<PubKey>
    var persistentPeers: set<PubKey>
    var nextId: nat

    function Snapshot(): Table
      reads this
    {
      Table(peersByPub, inboundPeers, outboundPeers, ignorePeerTermination, watchers, persistentConnReqs,
            persistentPeers, nextId)
    }

    predicate Valid()
      reads this
    {
      Inv(Snapshot())
    }

    constructor (key: PubKey)
      ensures Valid() && Snapshot() == Empty && localKey == key
    {
      localKey := key;
      peersByPub, inboundPeers, outboundPeers := map[], map[], map[];
      ignorePeerTermination, watchers, persistentConnReqs, persistentPeers := {}, {}, {}, {};
      nextId := 0;
    }

    method Add(p: Peer)
      modifies this
      ensures Snapshot() == AddPeer(old(Snapshot()), p)
    {
      peersByPub := peersByPub[p.pub := p];
      if p.inbound {
        inboundPeers := inboundPeers[p.pub := p];
      } else {
        outboundPeers := outboundPeers[p.pub := p];
      }
      watchers := watchers + {p};
    }

    method Remove(p: Peer)
      modifies this
      ensures Snapshot() == RemovePeer(old(Snapshot()), p)
    {
      peersByPub := peersByPub - {p.pub};
      if p.inbound {
        inboundPeers := inboundPeers - {p.pub};
      } else {
        outboundPeers := outboundPeers - {p.pub};
      }
    }

    method Connect(pub: PubKey, inbound: bool, ghost accepted: bool, starts: bool) returns (outcome: Outcome)
      requires accepted == !inbound
      modifies this
      ensures (Snapshot(), outcome) == PeerConnected(old(Snapshot()), pub, inbound, accepted, starts)
    {
      var p := Peer(nextId, pub, inbound, !inbound);
      nextId := nextId + 1;
      if !starts {
        return FailedToStart;
      }
      Add(p);
      outcome := Connected;
    }

    method InboundPeerConnected(pub: PubKey, starts: bool) returns (outcome: Outcome)
      requires Valid()
      modifies this
      ensures Valid() && (Snapshot(), outcome) == InboundConnected(old(Snapshot()), localKey, pub, starts)
      ensures InboundDone(old(Snapshot()), localKey, pub, starts, Snapshot(), outcome)
    {
      InboundOutcome(Snapshot(), localKey, pub, starts);
      StepKeepsInv(Snapshot(), localKey, Inbound(pub, starts));
      if pub in inboundPeers {
        return Duplicate;
      }
      if pub in peersByPub {
        if !ShouldDropLocal(localKey, pub) {
          return Dropped;
        }
        var connected := peersByPub[pub];
        Remove(connected);
        ignorePeerTermination := ignorePeerTermination + {connected};
      }
      persistentConnReqs := persistentConnReqs - {pub};
      outcome := Connect(pub, false, true, starts);
    }

    method OutboundPeerConnected(pub: PubKey, requested: bool, starts: bool) returns (outcome: Outcome)
      requires Valid()
      modifies this
      ensures Valid() && (Snapshot(), outcome) == OutboundConnected(old(Snapshot()), localKey, pub, requested, starts)
      ensures OutboundDone(old(Snapshot()), localKey, pub, requested, starts, Snapshot(), outcome)
    {
      OutboundOutcome(Snapshot(), localKey, pub, requested, starts);
      StepKeepsInv(Snapshot(), localKey, Outbound(pub, requested, starts));
      if pub in outboundPeers {
        return Duplicate;
      }
      if pub !in persistentConnReqs && requested {
        return Cancelled;
      }
      persistentConnReqs := persistentConnReqs - {pub};
      if pub in peersByPub {
        if ShouldDropLocal(localKey, pub) {
          return Dropped;
        }
        var connected := peersByPub[pub];
        Remove(connected);
        ignorePeerTermination := ignorePeerTermination + {connected};
      }
      outcome := Connect(pub, true, false, starts);
    }

    method Disconnect(pub: PubKey) returns (outcome: Outcome)
      requires Valid()
      modifies this
      ensures Valid() && (Snapshot(), outcome) == DisconnectPeer(old(Snapshot()), pub)
      ensures DisconnectDone(old(Snapshot()), pub, Snapshot(), outcome)
    {
      DisconnectOutcome(Snapshot(), pub);
      StepKeepsInv(Snapshot(), localKey, Event.Disconnect(pub));
      if pub !in peersByPub {
        return NotFound;
      }
      var peer := peersByPub[pub];
      persistentConnReqs := persistentConnReqs - {pub};
      persistentPeers := persistentPeers - {pub};
      Remove(peer);
      ignorePeerTermination := ignorePeerTermination + {peer};
      outcome := Disconnected;
    }

    method PeerTerminationWatcher(p: Peer)
      requires Valid() && p in watchers
      modifies this
      ensures Valid() && Snapshot() == Terminated(old(Snapshot()), p)
      ensures WatcherDone(old(Snapshot()), p, Snapshot())
    {
      WatcherOutcome(Snapshot(), p);
      TerminatedKeeps(Snapshot(), p);
      CleanUpAfter(p);
    }

    method CleanUpAfter(p: Peer)
      modifies this
      ensures Snapshot() == Terminated(old(Snapshot()), p)
    {
      watchers := watchers - {p};
      if p in ignorePeerTermination {
        ignorePeerTermination := ignorePeerTermination - {p};
        return;
      }
      Remove(p);
      if p.pub in persistentPeers && p.pub !in persistentConnReqs {
        persistentConnReqs := persistentConnReqs + {p.pub};
      }
    }
  }
}
