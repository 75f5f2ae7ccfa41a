/** The in-memory peer registry: four maps changed in place under one lock. Each method is one
    critical section; the clock readings it takes inside are its parameters. */
module Registry {
  import opened Types
  import opened AddrCodec
  import opened Directory
  import opened DirectoryRuns

  datatype Error = ErrInvalidPeerInfo | ErrPeerNotFound

  ghost predicate Until(times: map<string, int>, clock: int) {
    forall u | u in times :: times[u] <= clock
  }

  /** The order of registration is the order of the registration times. */
  ghost predicate Chronological(order: seq<string>, registeredAt: map<string, int>) {
    forall i, j | 0 <= i < j < |order| && order[i] in registeredAt && order[j] in registeredAt ::
      registeredAt[order[i]] <= registeredAt[order[j]]
  }

  lemma ChronologicalAppend(order: seq<string>, registeredAt: map<string, int>, u: string, now: int)
    requires Chronological(order, registeredAt) && Until(registeredAt, now) && u !in order
    ensures Chronological(order + [u], registeredAt[u := now])
  {
    forall i, j | 0 <= i < j < |order| + 1 && (order + [u])[i] in registeredAt[u := now] && (order + [u])[j] in registeredAt[u := now]
      ensures registeredAt[u := now][(order + [u])[i]] <= registeredAt[u := now][(order + [u])[j]] {
      assert order[i] in order;
    }
  }

  lemma ChronologicalRemove(order: seq<string>, registeredAt: map<string, int>, u: string)
    requires Chronological(order, registeredAt) && Distinct(order)
    ensures Chronological(Keep(order, {u}), registeredAt - {u})
  {
    if u in order {
      var a, b := SplitAt(order, u);
      var kept := a + b;
      forall i | 0 <= i < |kept| ensures kept[i] == order[if i < |a| then i else i + 1] {
      }
    } else {
      KeepMembers(order, {u});
    }
  }

  /** The four maps agree on who is online, the index is tidy, no time lies in the future. */
  ghost predicate Coherent(self: string, d: Dir, lastActive: map<string, int>, registeredAt: map<string, int>, clock: int) {
    && WF(self, d)
    && IndexTidy(d.index)
    && lastActive.Keys == d.online.Keys
    && registeredAt.Keys == d.online.Keys
    && Until(lastActive, clock) && Until(registeredAt, clock)
    && Chronological(d.order, registeredAt)
  }

  lemma RegisterCoherent(self: string, d: Dir, lastActive: map<string, int>, registeredAt: map<string, int>,
                         clock: int, p: NodeInfo, t1: int, t2: int)
    requires Coherent(self, d, lastActive, registeredAt, clock) && clock <= t1 <= t2
    requires ValidPeer(Some(p)) && UuidOf(p) != self
    ensures var u := UuidOf(p);
            Coherent(self, Apply(self, d, Op.Register(Some(p))), lastActive[u := t1],
                     if u in d.online then registeredAt else registeredAt[u := t2], t2)
  {
    hide WF, IndexTidy, Chronological, AddNameAddr;
    var u := UuidOf(p);
    ApplyKeepsWF(self, d, Op.Register(Some(p)));
    ApplyKeepsTidy(self, d, Op.Register(Some(p)));
    if u !in d.online {
      assert u !in d.order by { NotOrdered(self, d, u); }
      ChronologicalAppend(d.order, registeredAt, u, t2);
    }
  }

  lemma NotOrdered(self: string, d: Dir, u: string)
    requires WF(self, d) && u !in d.online
    ensures u !in d.order && Distinct(d.order)
  {
  }

  lemma UnregisterCoherent(self: string, d: Dir, lastActive: map<string, int>, registeredAt: map<string, int>,
                           clock: int, u: string)
    requires Coherent(self, d, lastActive, registeredAt, clock)
    ensures Coherent(self, Apply(self, d, Op.Unregister(u)), lastActive - {u}, registeredAt - {u}, clock)
    ensures if u in d.online then Apply(self, d, Op.Unregister(u)) == Dir(d.online - {u}, CleanNameAddr(d.index, d.online[u]), Keep(d.order, {u}))
            else Apply(self, d, Op.Unregister(u)) == d && lastActive - {u} == lastActive && registeredAt - {u} == registeredAt
  {
    hide IndexTidy, CleanNameAddr, WellKeyed;
    if u in d.online {
      UnregisteredCoherent(self, d, lastActive, registeredAt, clock, u);
    } else {
      assert lastActive - {u} == lastActive && registeredAt - {u} == registeredAt;
    }
  }

  lemma UnregisteredCoherent(self: string, d: Dir, lastActive: map<string, int>, registeredAt: map<string, int>,
                             clock: int, u: string)
    requires Coherent(self, d, lastActive, registeredAt, clock) && u in d.online
    ensures Coherent(self, Apply(self, d, Op.Unregister(u)), lastActive - {u}, registeredAt - {u}, clock)
  {
    hide IndexTidy, Chronological, CleanNameAddr, WellKeyed;
    ApplyKeepsWF(self, d, Op.Unregister(u));
    ApplyKeepsTidy(self, d, Op.Unregister(u));
    ChronologicalRemove(d.order, registeredAt, u);
  }

  lemma CoherentLater(self: string, d: Dir, lastActive: map<string, int>, registeredAt: map<string, int>, clock: int, later: int)
    requires Coherent(self, d, lastActive, registeredAt, clock) && clock <= later
    ensures Coherent(self, d, lastActive, registeredAt, later)
  {
  }

  lemma TimesKept(self: string, d: Dir, lastActive: map<string, int>, registeredAt: map<string, int>, clock: int)
    requires Coherent(self, d, lastActive, registeredAt, clock)
    ensures lastActive.Keys == d.online.Keys == registeredAt.Keys
  {
  }

  class PeerRegistry {
    var onlinePeers: map<string, NodeInfo>
    var lastActive: map<string, int>
    var registeredAt: map<string, int>
    var nameToAddrs: map<string, seq<string>>
    const selfUUID: string

    /** History: the online uuids in order of registration, and the latest clock reading. */
    ghost var order: seq<string>
    ghost var clock: int

    ghost function Content(): Dir
      reads this
    {
      Dir(onlinePeers, nameToAddrs, order)
    }

    ghost predicate Valid()
      reads this
    {
      Coherent(selfUUID, Content(), lastActive, registeredAt, clock)
    }

    constructor (selfUUID: string)
      ensures Valid() && Content() == EMPTY && this.selfUUID == selfUUID
    {
      this.selfUUID := selfUUID;
      onlinePeers, lastActive, registeredAt, nameToAddrs := map[], map[], map[], map[];
      order, clock := [], 0;
    }

    /** `activeAt` is read before `registeredAtNow`, both inside the critical section. */
    method Register(peer: Option<NodeInfo>, activeAt: int, registeredAtNow: int) returns (err: Option<Error>)
      requires Valid() && clock <= activeAt <= registeredAtNow
      modifies this
      ensures Valid() && Content() == Apply(selfUUID, old(Content()), Op.Register(peer))
      ensures err == if ValidPeer(peer) then None else Some(ErrInvalidPeerInfo)
      ensures lastActive == if ValidPeer(peer) && UuidOf(peer.value) != selfUUID
                            then old(lastActive)[UuidOf(peer.value) := activeAt] else old(lastActive)
      ensures registeredAt == if ValidPeer(peer) && UuidOf(peer.value) != selfUUID && UuidOf(peer.value) !in old(onlinePeers)
                              then old(registeredAt)[UuidOf(peer.value) := registeredAtNow] else old(registeredAt)
      ensures clock == registeredAtNow
    {
      hide Coherent, AddNameAddr, FormatNodeAddr;
      CoherentLater(selfUUID, Content(), lastActive, registeredAt, clock, registeredAtNow);
      clock := registeredAtNow;
      if peer.None? || peer.value.id.None? || peer.value.id.value.uuid == "" {
        return Some(ErrInvalidPeerInfo);
      }
      var p := peer.value;
      var uuid := p.id.value.uuid;
      if uuid == selfUUID {
        return None;
      }
      RegisterCoherent(selfUUID, Content(), lastActive, registeredAt, old(clock), p, activeAt, registeredAtNow);
      var exists_ := uuid in onlinePeers;
      onlinePeers := onlinePeers[uuid := p];
      lastActive := lastActive[uuid := activeAt];
      if !exists_ {
        registeredAt := registeredAt[uuid := registeredAtNow];
        if p.addrs != [] {
          AddNameAddrUnlocked(p.id.value.name, FormatNodeAddr(p.addrs[0].ip, p.addrs[0].port));
        }
        order := order + [uuid];
      }
      return None;
    }

    method AddNameAddrUnlocked(name: string, addr: string)
      modifies this`nameToAddrs
      ensures nameToAddrs == AddNameAddr(old(nameToAddrs), name, addr)
      ensures addr in AddrsFor(old(nameToAddrs), name) ==> nameToAddrs == old(nameToAddrs)
      ensures addr !in AddrsFor(old(nameToAddrs), name) ==> nameToAddrs == old(nameToAddrs)[name := AddrsFor(old(nameToAddrs), name) + [addr]]
    {
      var addrs := if name in nameToAddrs then nameToAddrs[name] else [];
      for i := 0 to |addrs|
        invariant addr !in addrs[..i]
      {
        if addrs[i] == addr {
          return;
        }
      }
      assert addrs[..|addrs|] == addrs;
      nameToAddrs := nameToAddrs[name := addrs + [addr]];
    }

    method Unregister(uuid: string) returns (removed: bool)
      requires Valid()
      modifies this
      ensures Valid() && Content() == Apply(selfUUID, old(Content()), Op.Unregister(uuid))
      ensures removed <==> uuid in old(onlinePeers)
      ensures lastActive == old(lastActive) - {uuid} && registeredAt == old(registeredAt) - {uuid}
      ensures clock == old(clock)
    {
      hide Coherent, CleanNameAddr, Keep, Apply;
      UnregisterCoherent(selfUUID, Content(), lastActive, registeredAt, clock, uuid);
      if uuid !in onlinePeers {
        return false;
      }
      CleanNameAddrUnlocked(onlinePeers[uuid]);
      onlinePeers := onlinePeers - {uuid};
      lastActive := lastActive - {uuid};
      registeredAt := registeredAt - {uuid};
      order := Keep(order, {uuid});
      return true;
    }

    method CleanNameAddrUnlocked(peer: NodeInfo)
      modifies this`nameToAddrs
      ensures nameToAddrs == CleanNameAddr(old(nameToAddrs), peer)
    {
      var name := NameOf(peer);
      var oldAddrs := if name in nameToAddrs then nameToAddrs[name] else [];
      var newAddrs: seq<string> := [];
      for i := 0 to |oldAddrs|
        invariant nameToAddrs == old(nameToAddrs)
        invariant newAddrs == Keep(oldAddrs[..i], AddrTexts(peer))
      {
        var addr := oldAddrs[i];
        var keep := true;
        for j := 0 to |peer.addrs|
          invariant nameToAddrs == old(nameToAddrs) && keep
          invariant forall k | 0 <= k < j :: FormatNodeAddr(peer.addrs[k].ip, peer.addrs[k].port) != addr
        {
          if FormatNodeAddr(peer.addrs[j].ip, peer.addrs[j].port) == addr {
            keep := false;
            break;
          }
        }
        assert oldAddrs[..i + 1] == oldAddrs[..i] + [addr];
        KeepSnoc(oldAddrs[..i], addr, AddrTexts(peer));
        if keep {
          newAddrs := newAddrs + [addr];
        }
      }
      assert oldAddrs[..|oldAddrs|] == oldAddrs;
      if |newAddrs| == 0 {
        nameToAddrs := nameToAddrs - {name};
      } else {
        nameToAddrs := nameToAddrs[name := newAddrs];
      }
    }

    method Get(uuid: string) returns (peer: Option<NodeInfo>)
      ensures peer == if uuid in onlinePeers then Some(onlinePeers[uuid]) else None
    {
      if uuid !in onlinePeers {
        return None;
      }
      return Some(onlinePeers[uuid]);
    }

    /** Iteration order over a map is arbitrary: any online peer of that name may come back. */
    method GetByName(name: string) returns (peer: Option<NodeInfo>)
      ensures peer == None <==> forall u | u in onlinePeers :: NameOf(onlinePeers[u]) != name
      ensures peer.Some? ==> NameOf(peer.value) == name && exists u :: u in onlinePeers && onlinePeers[u] == peer.value
    {
      var rest := onlinePeers.Keys;
      while rest != {}
        invariant rest <= onlinePeers.Keys
        invariant forall u | u in onlinePeers && u !in rest :: NameOf(onlinePeers[u]) != name
        decreases rest
      {
        var u :| u in rest;
        if NameOf(onlinePeers[u]) == name {
          return Some(onlinePeers[u]);
        }
        rest := rest - {u};
      }
      return None;
    }

    method List() returns (peers: seq<NodeInfo>)
      requires WellKeyed(selfUUID, onlinePeers)
      ensures |peers| == |onlinePeers|
      ensures forall p :: p in peers <==> UuidOf(p) in onlinePeers && onlinePeers[UuidOf(p)] == p
      ensures forall i, j | 0 <= i < j < |peers| :: UuidOf(peers[i]) != UuidOf(peers[j])
    {
      peers := [];
      var rest := onlinePeers.Keys;
      while rest != {}
        invariant rest <= onlinePeers.Keys
        invariant |peers| + |rest| == |onlinePeers.Keys|
        invariant forall p :: p in peers <==> UuidOf(p) in onlinePeers && UuidOf(p) !in rest && onlinePeers[UuidOf(p)] == p
        invariant forall i, j | 0 <= i < j < |peers| :: UuidOf(peers[i]) != UuidOf(peers[j])
        decreases rest
      {
        var u :| u in rest;
        peers := peers + [onlinePeers[u]];
        rest := rest - {u};
      }
    }

    method UpdateLastActive(uuid: string, now: int)
      requires Valid() && clock <= now
      modifies this`lastActive, this`clock
      ensures Valid() && clock == now
      ensures lastActive == if uuid in onlinePeers then old(lastActive)[uuid := now] else old(lastActive)
    {
      clock := now;
      if uuid in onlinePeers {
        lastActive := lastActive[uuid := now];
      }
    }

    method UpdateStatus(uuid: string, status: NodeStatus) returns (err: Option<Error>)
      requires Valid()
      modifies this`onlinePeers
      ensures Valid() && Content() == Apply(selfUUID, old(Content()), SetStatus(uuid, status))
      ensures err == None <==> uuid in onlinePeers
      ensures onlinePeers.Keys == old(onlinePeers).Keys
      ensures forall u | u in onlinePeers :: onlinePeers[u] == if u == uuid then old(onlinePeers)[u].(status := status) else old(onlinePeers)[u]
    {
      if uuid !in onlinePeers {
        return Some(ErrPeerNotFound);
      }
      ApplyKeepsWF(selfUUID, Content(), SetStatus(uuid, status));
      onlinePeers := onlinePeers[uuid := onlinePeers[uuid].(status := status)];
      return None;
    }

    /** Strictly older than the threshold; on a valid registry every online peer has a
        last-active time, so the missing-entry branch of the scan never fires. */
    method GetStale(threshold: int, now: int) returns (stale: seq<string>)
      requires Valid()
      ensures forall u :: u in stale <==> u in onlinePeers && now - lastActive[u] > threshold
      ensures Distinct(stale)
    {
      hide Coherent;
      TimesKept(selfUUID, Content(), lastActive, registeredAt, clock);
      stale := [];
      var rest := onlinePeers.Keys;
      while rest != {}
        invariant rest <= onlinePeers.Keys
        invariant forall u :: u in stale <==> u in onlinePeers && u !in rest && now - lastActive[u] > threshold
        invariant Distinct(stale)
        decreases rest
      {
        var u :| u in rest;
        if u !in lastActive || now - lastActive[u] > threshold {
          stale := stale + [u];
        }
        rest := rest - {u};
      }
    }

    method GetAddrByName(name: string) returns (addr: Option<string>)
      ensures addr == DirectoryRuns.GetAddrByName(Content(), name)
    {
      if name !in nameToAddrs || |nameToAddrs[name]| == 0 {
        return None;
      }
      return Some(nameToAddrs[name][0]);
    }
  }
}
