/** What the node itself does with its registry, notifier and pool: relaying joins, gossip,
    the liveness sweep and the two local removal paths. Each is run undisturbed. */
module NodeOps {
  import opened Types
  import opened AddrCodec
  import opened Relay
  import opened Directory
  import opened Registry
  import opened Notifier
  import opened ConnPool
  import opened Membership
  import FailureDetector

  /** One outgoing NotifyNodeJoin: on behalf of which registry entry, to which address, about whom. */
  datatype Send = Send(via: string, to: string, info: NodeInfo)

  /** The peers a broadcast goes to: addressed, not the node itself and not the newcomer. */
  predicate Receives(online: map<string, NodeInfo>, self: string, newcomer: string, u: string) {
    u in online && u != self && u != newcomer && online[u].addrs != []
  }

  /** The registry after a number of removals in turn. */
  function Removed(self: string, d: Dir, gone: seq<string>): Dir {
    if gone == [] then d else Apply(self, Removed(self, d, gone[..|gone| - 1]), Unregister(gone[|gone| - 1]))
  }

  function Offline(online: map<string, NodeInfo>, gone: seq<string>, reason: string): seq<Notification>
    requires forall u | u in gone :: u in online
  {
    seq(|gone|, i requires 0 <= i < |gone| => PeerOffline(NameOf(online[gone[i]]), reason))
  }

  /** Gossiped records that deserve an announcement: well formed, of somebody else, not on record. */
  function Strangers(online: map<string, NodeInfo>, self: string, peers: seq<NodeInfo>): seq<Notification> {
    if peers == [] then []
    else
      var p := peers[|peers| - 1];
      Strangers(online, self, peers[..|peers| - 1]) +
      (if ValidPeer(Some(p)) && UuidOf(p) != self && UuidOf(p) !in online then [Discovered(p)] else [])
  }

  lemma StrangersSnoc(online: map<string, NodeInfo>, self: string, peers: seq<NodeInfo>, p: NodeInfo)
    ensures Strangers(online, self, peers + [p]) ==
            Strangers(online, self, peers) +
            (if ValidPeer(Some(p)) && UuidOf(p) != self && UuidOf(p) !in online then [Discovered(p)] else [])
  {
    assert (peers + [p])[..|peers|] == peers;
  }

  lemma {:induction false} StrangersConcat(online: map<string, NodeInfo>, self: string, a: seq<NodeInfo>, b: seq<NodeInfo>)
    ensures Strangers(online, self, a + b) == Strangers(online, self, a) + Strangers(online, self, b)
  {
    if b == [] {
      assert a + b == a;
    } else {
      assert (a + b)[..|a + b| - 1] == a + b[..|b| - 1];
      StrangersConcat(online, self, a, b[..|b| - 1]);
    }
  }

  lemma Nothing(online: map<string, NodeInfo>, self: string, replies: seq<Option<seq<NodeInfo>>>)
    ensures Flat(replies[..0]) == [] && Strangers(online, self, []) == []
  {
  }

  lemma RemovedSnoc(self: string, d: Dir, gone: seq<string>, u: string)
    ensures Removed(self, d, gone + [u]) == Apply(self, Removed(self, d, gone), Unregister(u))
  {
    assert (gone + [u])[..|gone|] == gone;
  }

  lemma {:induction false} RemovedOnline(self: string, d: Dir, gone: seq<string>)
    ensures Removed(self, d, gone).online == map u | u in d.online && u !in gone :: d.online[u]
  {
    hide CleanNameAddr, Keep;
    if gone != [] {
      RemovedOnline(self, d, gone[..|gone| - 1]);
      assert gone == gone[..|gone| - 1] + [gone[|gone| - 1]];
    }
  }

  function SendsFor(peers: seq<NodeInfo>, self: string, newcomer: string, info: NodeInfo): seq<Send> {
    if peers == [] then []
    else
      var p := peers[|peers| - 1];
      SendsFor(peers[..|peers| - 1], self, newcomer, info) +
      (if UuidOf(p) == self || UuidOf(p) == newcomer || FirstAddr(p).None? then []
       else [Send(UuidOf(p), FirstAddr(p).value, info)])
  }

  lemma NoSends(self: string, newcomer: string, info: NodeInfo)
    ensures SendsFor([], self, newcomer, info) == []
  {
  }

  lemma SendsSnoc(peers: seq<NodeInfo>, p: NodeInfo, self: string, newcomer: string, info: NodeInfo)
    ensures SendsFor(peers + [p], self, newcomer, info) ==
            SendsFor(peers, self, newcomer, info) +
            (if UuidOf(p) == self || UuidOf(p) == newcomer || |p.addrs| == 0 then []
             else [Send(UuidOf(p), FirstAddr(p).value, info)])
  {
    hide FormatNodeAddr;
    assert (peers + [p])[..|peers|] == peers;
  }

  ghost predicate AnswersTo(s: Send, p: NodeInfo, self: string, newcomer: string, info: NodeInfo) {
    UuidOf(p) == s.via && FirstAddr(p) == Some(s.to) && s.info == info && s.via != self && s.via != newcomer
  }

  /** Each send answers to one listed peer. */
  lemma {:induction false} SendsTraced(peers: seq<NodeInfo>, self: string, newcomer: string, info: NodeInfo)
    ensures forall s | s in SendsFor(peers, self, newcomer, info) ::
              exists p :: p in peers && AnswersTo(s, p, self, newcomer, info)
  {
    hide FormatNodeAddr, FirstAddr;
    if peers != [] {
      var front, p := peers[..|peers| - 1], peers[|peers| - 1];
      SendsTraced(front, self, newcomer, info);
      forall s | s in SendsFor(peers, self, newcomer, info)
        ensures exists p :: p in peers && AnswersTo(s, p, self, newcomer, info) {
        if s in SendsFor(front, self, newcomer, info) {
          var q :| q in front && AnswersTo(s, q, self, newcomer, info);
          assert q in peers;
        } else {
          assert p in peers && AnswersTo(s, p, self, newcomer, info);
        }
      }
    }
  }

  /** Each eligible peer gets a send. */
  lemma {:induction false} SendsComplete(peers: seq<NodeInfo>, self: string, newcomer: string, info: NodeInfo)
    ensures forall p | p in peers && UuidOf(p) != self && UuidOf(p) != newcomer && FirstAddr(p).Some? ::
              Send(UuidOf(p), FirstAddr(p).value, info) in SendsFor(peers, self, newcomer, info)
  {
    hide FormatNodeAddr, FirstAddr;
    if peers != [] {
      SendsComplete(peers[..|peers| - 1], self, newcomer, info);
      assert peers == peers[..|peers| - 1] + [peers[|peers| - 1]];
    }
  }

  predicate OncePerPeer(sends: seq<Send>) {
    forall i, j | 0 <= i < j < |sends| :: sends[i].via != sends[j].via
  }

  lemma {:induction false} SendsOnce(peers: seq<NodeInfo>, self: string, newcomer: string, info: NodeInfo)
    requires forall i, j | 0 <= i < j < |peers| :: UuidOf(peers[i]) != UuidOf(peers[j])
    ensures OncePerPeer(SendsFor(peers, self, newcomer, info))
  {
    hide FormatNodeAddr, FirstAddr;
    if peers != [] {
      var front, p := peers[..|peers| - 1], peers[|peers| - 1];
      SendsOnce(front, self, newcomer, info);
      SendsTraced(front, self, newcomer, info);
      var sends := SendsFor(front, self, newcomer, info);
      forall i | 0 <= i < |sends| ensures sends[i].via != UuidOf(p) {
        assert sends[i] in sends;
        var q :| q in front && AnswersTo(sends[i], q, self, newcomer, info);
        var k :| 0 <= k < |front| && front[k] == q;
        assert peers[k] == q;
      }
    }
  }

  lemma SendsExactly(peers: seq<NodeInfo>, online: map<string, NodeInfo>, self: string, newcomer: string, info: NodeInfo)
    requires Lists(peers, online) && forall u | u in online :: UuidOf(online[u]) == u
    ensures var sends := SendsFor(peers, self, newcomer, info);
            && (forall u :: Receives(online, self, newcomer, u) <==> exists s :: s in sends && s.via == u)
            && (forall s | s in sends :: s.via in online && Some(s.to) == FirstAddr(online[s.via]) && s.info == info)
            && OncePerPeer(sends)
  {
    hide FormatNodeAddr, SendsFor;
    SendsTraced(peers, self, newcomer, info);
    SendsComplete(peers, self, newcomer, info);
    SendsOnce(peers, self, newcomer, info);
    var sends := SendsFor(peers, self, newcomer, info);
    forall u | Receives(online, self, newcomer, u) ensures exists s :: s in sends && s.via == u {
      assert online[u] in peers;
    }
  }

  lemma Carried(notif: Notification)
    ensures JoinInfo(notif) ==
            if notif.PeerDiscovered? && notif.addr != "" && notif.uuid != "" && ParseHostPort(notif.addr).Some?
            then Some(NodeInfo(Some(NodeID(notif.uuid, notif.name, [])), [ParseHostPort(notif.addr).value], UNKNOWN)) else None
  {
    hide JoinInfo, ParseHostPort;
    if JoinInfo(notif).Some? {
      JoinInfoIff(notif, JoinInfo(notif).value);
    }
    if notif.PeerDiscovered? && notif.addr != "" && notif.uuid != "" && ParseHostPort(notif.addr).Some? {
      JoinInfoIff(notif, NodeInfo(Some(NodeID(notif.uuid, notif.name, [])), [ParseHostPort(notif.addr).value], UNKNOWN));
    }
  }

  class Node<C> {
    const registry: PeerRegistry
    const notifier: Notifier<C>
    const pool: Pool

    constructor (registry: PeerRegistry, notifier: Notifier<C>, pool: Pool)
      ensures this.registry == registry && this.notifier == notifier && this.pool == pool
    {
      this.registry, this.notifier, this.pool := registry, notifier, pool;
    }

    ghost predicate Valid()
      reads registry, notifier, notifier.buffer
    {
      registry.Valid() && notifier.Valid()
    }

    /** One message to every receiving peer and to no one else, all carrying the parsed newcomer;
        none at all when the notification does not parse. */
    method BroadcastNodeJoin(notif: Notification) returns (sends: seq<Send>)
      requires WellKeyed(registry.selfUUID, registry.onlinePeers)
      ensures !notif.PeerDiscovered? || notif.addr == "" || notif.uuid == "" || ParseHostPort(notif.addr).None? ==> sends == []
      ensures notif.PeerDiscovered? && notif.addr != "" && notif.uuid != "" && ParseHostPort(notif.addr).Some? ==>
                && (forall u :: Receives(registry.onlinePeers, registry.selfUUID, notif.uuid, u) <==>
                                (exists s :: s in sends && s.via == u))
                && (forall s | s in sends :: s.via in registry.onlinePeers && Some(s.to) == FirstAddr(registry.onlinePeers[s.via])
                                             && s.info == NodeInfo(Some(NodeID(notif.uuid, notif.name, [])), [ParseHostPort(notif.addr).value], UNKNOWN))
                && OncePerPeer(sends)
    {
      hide JoinInfo, FormatNodeAddr, SendsFor, ParseHostPort;
      var info := JoinInfo(notif);
      Carried(notif);
      sends := [];
      if info.None? {
        return;
      }
      var self, newcomer := registry.selfUUID, UuidOf(info.value);
      var peers := registry.List();
      NoSends(self, newcomer, info.value);
      for i := 0 to |peers|
        invariant sends == SendsFor(peers[..i], self, newcomer, info.value)
      {
        var p := peers[i];
        assert peers[..i + 1] == peers[..i] + [p];
        SendsSnoc(peers[..i], p, self, newcomer, info.value);
        if UuidOf(p) == self || UuidOf(p) == newcomer || |p.addrs| == 0 {
          continue;
        }
        sends := sends + [Send(UuidOf(p), FirstAddr(p).value, info.value)];
      }
      assert peers[..|peers|] == peers;
      SendsExactly(peers, registry.onlinePeers, self, newcomer, info.value);
    }

    /** `replies` are the lists the contacted peers sent, None where a call failed. Nobody is
        registered by the round itself, so a stranger in two lists is announced twice. */
    method PerformGossipRound(replies: seq<Option<seq<NodeInfo>>>)
      requires Valid()
      modifies notifier`head, notifier`count, notifier`log, notifier.buffer
      ensures notifier.Valid() && notifier.log == old(notifier.log) + Strangers(registry.onlinePeers, registry.selfUUID, Flat(replies))
    {
      hide Holds, LastN, Coherent, Strangers, Flat;
      Nothing(registry.onlinePeers, registry.selfUUID, replies);
      for i := 0 to |replies|
        invariant notifier.Valid()
        invariant notifier.log == old(notifier.log) + Strangers(registry.onlinePeers, registry.selfUUID, Flat(replies[..i]))
      {
        FlatSnoc(replies, i);
        if replies[i].None? {
          assert Flat(replies[..i + 1]) == Flat(replies[..i]);
          continue;
        }
        StrangersConcat(registry.onlinePeers, registry.selfUUID, Flat(replies[..i]), replies[i].value);
        AnnounceStrangers(replies[i].value);
      }
      assert replies[..|replies|] == replies;
    }

    /** The inner loop: the records of one reply. */
    method AnnounceStrangers(peers: seq<NodeInfo>)
      requires notifier.Valid()
      modifies notifier`head, notifier`count, notifier`log, notifier.buffer
      ensures notifier.Valid() && notifier.log == old(notifier.log) + Strangers(registry.onlinePeers, registry.selfUUID, peers)
    {
      hide Holds, LastN, Strangers, Discovered;
      Nothing(registry.onlinePeers, registry.selfUUID, []);
      for j := 0 to |peers|
        invariant notifier.Valid()
        invariant notifier.log == old(notifier.log) + Strangers(registry.onlinePeers, registry.selfUUID, peers[..j])
      {
        var p := peers[j];
        assert peers[..j + 1] == peers[..j] + [p];
        StrangersSnoc(registry.onlinePeers, registry.selfUUID, peers[..j], p);
        if p.id.None? || p.id.value.uuid == "" || p.id.value.uuid == registry.selfUUID {
          continue;
        }
        var known := registry.Get(p.id.value.uuid);
        if known.Some? {
          continue;
        }
        var _ := notifier.Emit(Discovered(p));
      }
      assert peers[..|peers|] == peers;
    }

    /** Everyone stale at the start is removed, nobody else; each removal is announced once under
        the name on record; the connections and streams to the removed peers' first addresses, and
        no others, leave the pool, the connections closed. */
    method CleanupStalePeers(now: int) returns (gone: seq<string>)
      requires Valid()
      modifies registry, notifier`head, notifier`count, notifier`log, notifier.buffer
      modifies pool, set a | a in pool.conns && a in StaleAddrs(registry.onlinePeers, registry.lastActive, now) :: pool.conns[a]
      modifies set a | a in pool.streams && a in StaleAddrs(registry.onlinePeers, registry.lastActive, now) :: pool.streams[a].stream
      ensures Valid()
      ensures Distinct(gone) && forall u :: u in gone <==> u in old(registry.onlinePeers) && now - old(registry.lastActive)[u] > 30 * FailureDetector.SECOND
      ensures registry.Content() == Removed(registry.selfUUID, old(registry.Content()), gone)
      ensures registry.lastActive == FailureDetector.Swept(old(registry.lastActive), now)
      ensures notifier.log == old(notifier.log) + Offline(old(registry.onlinePeers), gone, "heartbeat timeout")
      ensures var addrs := FirstAddrsOf(old(registry.onlinePeers), gone);
              && pool.conns == old(pool.conns) - addrs && pool.streams == old(pool.streams) - addrs
              && forall a | a in addrs && a in old(pool.conns) :: old(pool.conns)[a].closed
    {
      hide Holds, LastN, Coherent, FirstAddrText, Apply, Removed, Offline, FirstAddrsOf, WithoutAll, AddrOf, StaleAddrs,
           Distinct, PeerRegistry.Valid, Notifier<C>.Valid;
      ghost var online := registry.onlinePeers;
      gone := registry.GetStale(FailureDetector.HEARTBEAT_TIMEOUT, now);
      SweptAway(registry, gone, now);
      NothingRemoved(registry.selfUUID, registry.Content(), gone);
      for i := 0 to |gone|
        invariant Valid()
        invariant registry.Content() == Removed(registry.selfUUID, old(registry.Content()), gone[..i])
        invariant registry.lastActive == WithoutAll(old(registry.lastActive), gone[..i])
        invariant notifier.log == old(notifier.log) + Offline(online, gone[..i], "heartbeat timeout")
        invariant pool.conns == old(pool.conns) - FirstAddrsOf(online, gone[..i])
        invariant pool.streams == old(pool.streams) - FirstAddrsOf(online, gone[..i])
        invariant forall a | a in FirstAddrsOf(online, gone[..i]) && a in old(pool.conns) :: old(pool.conns)[a].closed
      {
        var uuid := gone[i];
        NextRemoved(registry.selfUUID, old(registry.Content()), gone, i);
        NextOffline(online, gone, i, "heartbeat timeout");
        NextWithout(old(registry.lastActive), gone, i);
        NextAddr(online, gone, i, old(pool.conns));
        NextAddr(online, gone, i, old(pool.streams));
        SameAddr(registry.onlinePeers, online, old(registry.lastActive), now, uuid);
        CollectOne(uuid);
      }
      assert gone[..|gone|] == gone;
    }

    /** One round of the sweep's loop; a peer that has vanished since the snapshot is passed over. */
    method CollectOne(uuid: string)
      requires Valid()
      modifies registry, notifier`head, notifier`count, notifier`log, notifier.buffer
      modifies pool, set a | a in pool.conns && a in AddrOf(registry.onlinePeers, uuid) :: pool.conns[a]
      modifies set a | a in pool.streams && a in AddrOf(registry.onlinePeers, uuid) :: pool.streams[a].stream
      ensures Valid()
      ensures registry.Content() == Apply(registry.selfUUID, old(registry.Content()), Unregister(uuid))
      ensures registry.lastActive == old(registry.lastActive) - {uuid}
      ensures notifier.log == old(notifier.log) +
                (if uuid in old(registry.onlinePeers) then [PeerOffline(NameOf(old(registry.onlinePeers)[uuid]), "heartbeat timeout")] else [])
      ensures var addrs := AddrOf(old(registry.onlinePeers), uuid);
              && pool.conns == old(pool.conns) - addrs && pool.streams == old(pool.streams) - addrs
              && (forall a | a in addrs && a in old(pool.conns) :: old(pool.conns)[a].closed)
              && (forall a | a in addrs && a in old(pool.streams) :: old(pool.streams)[a].stream.sendClosed)
      ensures forall a | a in old(pool.conns) :: old(pool.conns[a].closed) ==> old(pool.conns)[a].closed
    {
      hide Holds, LastN, Coherent, FirstAddr, FirstAddrText, Apply, PeerRegistry.Valid, Notifier<C>.Valid;
      var peer := registry.Get(uuid);
      if peer.None? {
        NotOnRecord(registry, uuid);
        return;
      }
      var name, addr := NameOf(peer.value), FirstAddrText(peer.value);
      StatusThenUnregister(registry.selfUUID, registry.Content(), uuid, OFFLINE);
      StatusKeepsOnline(registry.selfUUID, registry.Content(), uuid, OFFLINE);
      var _ := registry.UpdateStatus(uuid, OFFLINE);
      var removed := registry.Unregister(uuid);
      if removed {
        var _ := notifier.Emit(PeerOffline(name, "heartbeat timeout"));
        if addr != "" {
          pool.CloseByAddr(addr);
        }
      }
    }

    /** The answer of a local disconnect: some bearer of the name is disconnected, unless nobody bears it
        or the bearer met has no address; these are errors that change nothing. */
    method DisconnectPeer(name: string) returns (addr: Option<string>, ghost who: string)
      requires Valid()
      modifies registry, notifier`head, notifier`count, notifier`log, notifier.buffer
      modifies pool, set a | a in pool.conns :: pool.conns[a], set a | a in pool.streams :: pool.streams[a].stream
      ensures Valid()
      ensures addr.None? ==> registry.Content() == old(registry.Content()) && registry.lastActive == old(registry.lastActive)
                             && notifier.log == old(notifier.log)
                             && pool.conns == old(pool.conns) && pool.streams == old(pool.streams)
      ensures addr.Some? ==>
                && who in old(registry.onlinePeers) && NameOf(old(registry.onlinePeers)[who]) == name
                && FirstAddr(old(registry.onlinePeers)[who]) == addr
                && registry.Content() == Apply(registry.selfUUID, old(registry.Content()), Unregister(who))
                && registry.lastActive == old(registry.lastActive) - {who}
                && notifier.log == old(notifier.log) + [PeerOffline(name, "主动断开")]
                && pool.conns == old(pool.conns) - {addr.value} && pool.streams == old(pool.streams) - {addr.value}
                && (addr.value in old(pool.conns) ==> old(pool.conns)[addr.value].closed)
                && (addr.value in old(pool.streams) ==> old(pool.streams)[addr.value].stream.sendClosed)
      ensures forall b | b in old(pool.conns) && (addr.Some? && addr.value in old(pool.conns) ==> old(pool.conns)[b] != old(pool.conns)[addr.value]) ::
                old(pool.conns)[b].closed == old(pool.conns[b].closed)
      ensures addr.None? ==>
                || (forall u | u in old(registry.onlinePeers) :: NameOf(old(registry.onlinePeers)[u]) != name)
                || (exists u :: u in old(registry.onlinePeers) && NameOf(old(registry.onlinePeers)[u]) == name
                                && old(registry.onlinePeers)[u].addrs == [])
      ensures (forall u | u in old(registry.onlinePeers) :: NameOf(old(registry.onlinePeers)[u]) != name) ==> addr.None?
    {
      hide Holds, LastN, Coherent, FirstAddr, Apply;
      who := "";
      var peer := registry.GetByName(name);
      if peer.None? {
        return None, "";
      }
      addr := FirstAddr(peer.value);
      NoAddress(peer.value);
      if addr.None? {
        return;
      }
      who := UuidOf(peer.value);
      KeysOf(registry);
      var removed := registry.Unregister(UuidOf(peer.value));
      if removed {
        pool.CloseByAddr(addr.value);
        var _ := notifier.Emit(PeerOffline(name, "主动断开"));
      }
    }

    /** A stream that ended: its peer is removed and announced if still on record, and its
        connection and stream leave the pool either way. */
    method StreamEnded(peerUuid: string, peerName: string, peerAddr: string)
      requires Valid()
      modifies registry, notifier`head, notifier`count, notifier`log, notifier.buffer
      modifies pool, if peerAddr in pool.conns then {pool.conns[peerAddr]} else {}
      ensures Valid()
      ensures registry.Content() == Apply(registry.selfUUID, old(registry.Content()), Unregister(peerUuid))
      ensures registry.lastActive == old(registry.lastActive) - {peerUuid}
      ensures notifier.log == old(notifier.log) +
                (if peerUuid in old(registry.onlinePeers) then [PeerOffline(peerName, "stream disconnected")] else [])
      ensures pool.conns == old(pool.conns) - {peerAddr} && pool.streams == old(pool.streams) - {peerAddr}
      ensures peerAddr in old(pool.conns) ==> old(pool.conns)[peerAddr].closed
    {
      hide Holds, LastN, Coherent, Apply;
      var removed := registry.Unregister(peerUuid);
      if removed {
        var _ := notifier.Emit(PeerOffline(peerName, "stream disconnected"));
      }
      pool.DeleteConn(peerAddr);
      pool.DeleteStream(peerAddr);
    }
  }

  function Flat(replies: seq<Option<seq<NodeInfo>>>): seq<NodeInfo> {
    if replies == [] then []
    else Flat(replies[..|replies| - 1]) + (if replies[|replies| - 1].Some? then replies[|replies| - 1].value else [])
  }

  lemma FlatSnoc(replies: seq<Option<seq<NodeInfo>>>, i: nat)
    requires i < |replies|
    ensures Flat(replies[..i + 1]) == Flat(replies[..i]) + (if replies[i].Some? then replies[i].value else [])
  {
    assert replies[..i + 1][..i] == replies[..i];
  }

  /** The first addresses of those of them that have one. */
  function FirstAddrsOf(online: map<string, NodeInfo>, gone: seq<string>): set<string>
    requires forall u | u in gone :: u in online
  {
    set u | u in gone && FirstAddrText(online[u]) != "" :: FirstAddrText(online[u])
  }

  function AddrOf(online: map<string, NodeInfo>, u: string): set<string> {
    if u in online && FirstAddrText(online[u]) != "" then {FirstAddrText(online[u])} else {}
  }

  /** The first addresses of all that are stale. */
  function StaleAddrs(online: map<string, NodeInfo>, lastActive: map<string, int>, now: int): set<string> {
    set u | u in online && FailureDetector.Stale(lastActive, u, now) && FirstAddrText(online[u]) != "" :: FirstAddrText(online[u])
  }

  /** A stale peer that is still on record as it was has its address among theirs. */
  lemma SameAddr(later: map<string, NodeInfo>, online: map<string, NodeInfo>, lastActive: map<string, int>, now: int, u: string)
    requires u in later && u in online && later[u] == online[u]
    ensures AddrOf(later, u) == AddrOf(online, u)
    ensures FailureDetector.Stale(lastActive, u, now) ==> AddrOf(online, u) <= StaleAddrs(online, lastActive, now)
  {
    hide FirstAddrText;
  }

  lemma NextAddr<T>(online: map<string, NodeInfo>, gone: seq<string>, i: nat, pool: map<string, T>)
    requires i < |gone| && forall u | u in gone :: u in online
    ensures FirstAddrsOf(online, gone[..i + 1]) == FirstAddrsOf(online, gone[..i]) + AddrOf(online, gone[i])
    ensures pool - FirstAddrsOf(online, gone[..i + 1]) == pool - FirstAddrsOf(online, gone[..i]) - AddrOf(online, gone[i])
  {
    hide FirstAddrText;
    assert gone[..i + 1] == gone[..i] + [gone[i]];
  }

  lemma NoAddress(p: NodeInfo)
    ensures FirstAddr(p).None? <==> p.addrs == []
  {
  }

  lemma NotOnRecord(r: PeerRegistry, u: string)
    requires r.Valid() && u !in r.onlinePeers
    ensures Apply(r.selfUUID, r.Content(), Unregister(u)) == r.Content() && r.lastActive - {u} == r.lastActive
  {
    hide Coherent;
    TimesKept(r.selfUUID, r.Content(), r.lastActive, r.registeredAt, r.clock);
  }

  function WithoutAll(lastActive: map<string, int>, gone: seq<string>): map<string, int> {
    map u | u in lastActive && u !in gone :: lastActive[u]
  }

  lemma NextWithout(lastActive: map<string, int>, gone: seq<string>, i: nat)
    requires i < |gone|
    ensures WithoutAll(lastActive, gone[..i + 1]) == WithoutAll(lastActive, gone[..i]) - {gone[i]}
  {
    assert gone[..i + 1] == gone[..i] + [gone[i]];
  }

  /** What is left when exactly the stale peers are gone is what the failure detector's sweep leaves. */
  lemma SweptAway(r: PeerRegistry, gone: seq<string>, now: int)
    requires r.Valid()
    requires forall u :: u in gone <==> u in r.onlinePeers && now - r.lastActive[u] > FailureDetector.HEARTBEAT_TIMEOUT
    ensures WithoutAll(r.lastActive, gone) == FailureDetector.Swept(r.lastActive, now)
    ensures forall u | u in gone :: FailureDetector.Stale(r.lastActive, u, now)
  {
    hide Coherent;
    TimesKept(r.selfUUID, r.Content(), r.lastActive, r.registeredAt, r.clock);
  }

  lemma NothingRemoved(self: string, d: Dir, gone: seq<string>)
    requires forall u | u in gone :: u in d.online
    ensures Removed(self, d, gone[..0]) == d && Offline(d.online, gone[..0], "heartbeat timeout") == []
    ensures forall m: map<string, int> :: WithoutAll(m, gone[..0]) == m
    ensures FirstAddrsOf(d.online, gone[..0]) == {}
  {
  }

  /** The next stale peer is still on record, unchanged, when its turn comes. */
  lemma NextRemoved(self: string, d: Dir, gone: seq<string>, i: nat)
    requires i < |gone| && Distinct(gone) && gone[i] in d.online
    ensures Removed(self, d, gone[..i + 1]) == Apply(self, Removed(self, d, gone[..i]), Unregister(gone[i]))
    ensures gone[i] in Removed(self, d, gone[..i]).online && Removed(self, d, gone[..i]).online[gone[i]] == d.online[gone[i]]
  {
    hide Apply;
    RemovedOnline(self, d, gone[..i]);
    RemovedSnoc(self, d, gone[..i], gone[i]);
    assert gone[..i] + [gone[i]] == gone[..i + 1];
  }

  lemma NextOffline(online: map<string, NodeInfo>, gone: seq<string>, i: nat, reason: string)
    requires i < |gone| && forall u | u in gone :: u in online
    ensures Offline(online, gone[..i + 1], reason) == Offline(online, gone[..i], reason) + [PeerOffline(NameOf(online[gone[i]]), reason)]
  {
  }
}
