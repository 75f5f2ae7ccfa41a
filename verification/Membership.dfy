/** The membership handlers of one node, each run undisturbed: handshake, heartbeat, disconnect
    and join notice, over the node's registry and notifier. */
module Membership {
  import opened Types
  import opened AddrCodec
  import opened Relay
  import opened Directory
  import opened Registry
  import opened Notifier

  datatype HandshakeReq = HandshakeReq(self: Option<NodeInfo>, signature: seq<Byte>)
  datatype HandshakeResp = HandshakeResp(accepted: bool, rejectReason: string, peer: Option<NodeInfo>, knownPeers: seq<NodeInfo>)
  datatype HeartbeatReq = HeartbeatReq(nodeId: Option<NodeID>, timestamp: UInt64, signature: seq<Byte>)
  datatype HeartbeatResp = HeartbeatResp(status: NodeStatus, timestamp: UInt64)
  datatype DisconnectReq = DisconnectReq(nodeId: Option<NodeID>, reason: string)

  /** Exactly the records of the online peers, in some order, each once. */
  ghost predicate Lists(peers: seq<NodeInfo>, online: map<string, NodeInfo>) {
    && |peers| == |online|
    && (forall p :: p in peers <==> UuidOf(p) in online && online[UuidOf(p)] == p)
    && (forall i, j | 0 <= i < j < |peers| :: UuidOf(peers[i]) != UuidOf(peers[j]))
  }

  class MembershipService<C> {
    const registry: PeerRegistry
    const notifier: Notifier<C>
    const selfInfo: NodeInfo
    var status: NodeStatus

    /** The verdict of signature verification on handshake and heartbeat data; not modelled. */
    const handshakeSigned: (seq<Byte>, string, seq<Byte>) -> bool
    const heartbeatSigned: (seq<Byte>, string, UInt64, seq<Byte>) -> bool

    constructor (registry: PeerRegistry, notifier: Notifier<C>, selfInfo: NodeInfo,
                 handshakeSigned: (seq<Byte>, string, seq<Byte>) -> bool,
                 heartbeatSigned: (seq<Byte>, string, UInt64, seq<Byte>) -> bool)
      ensures this.registry == registry && this.notifier == notifier && this.selfInfo == selfInfo && status == ONLINE
      ensures this.handshakeSigned == handshakeSigned && this.heartbeatSigned == heartbeatSigned
    {
      this.registry, this.notifier, this.selfInfo, this.status := registry, notifier, selfInfo, ONLINE;
      this.handshakeSigned, this.heartbeatSigned := handshakeSigned, heartbeatSigned;
    }

    ghost predicate Valid()
      reads this, registry, notifier, notifier.buffer
    {
      registry.Valid() && notifier.Valid() && registry.selfUUID == UuidOf(selfInfo)
    }

    /** Well formed, and signed correctly if signed at all. */
    predicate Acceptable(req: Option<HandshakeReq>) {
      && req.Some? && ValidPeer(req.value.self)
      && (req.value.signature == [] ||
          (var id := req.value.self.value.id.value;
           id.publicKey != [] && handshakeSigned(id.publicKey, id.uuid, req.value.signature)))
    }

    /** The request is turned down for this reason: malformed, signed without a key, or signed wrongly. */
    predicate TurnedDown(req: Option<HandshakeReq>, reason: string) {
      var wellFormed := req.Some? && req.value.self.Some? && req.value.self.value.id.Some? && req.value.self.value.id.value.uuid != "";
      if !wellFormed then reason == "invalid handshake request"
      else
        var id, signature := req.value.self.value.id.value, req.value.signature;
        signature != [] &&
        if id.publicKey == [] then reason == "public_key required when signature present"
        else !handshakeSigned(id.publicKey, id.uuid, signature) && reason == "invalid signature"
    }

    /** Why a request is turned down, if it is. */
    method Vet(req: Option<HandshakeReq>) returns (rejection: Option<string>)
      ensures rejection.None? <==> Acceptable(req)
      ensures forall reason :: rejection == Some(reason) <==> TurnedDown(req, reason)
    {
      if req.None? || req.value.self.None? || req.value.self.value.id.None? || req.value.self.value.id.value.uuid == "" {
        return Some("invalid handshake request");
      }
      var id := req.value.self.value.id.value;
      if |req.value.signature| > 0 {
        if |id.publicKey| == 0 {
          return Some("public_key required when signature present");
        }
        if !handshakeSigned(id.publicKey, id.uuid, req.value.signature) {
          return Some("invalid signature");
        }
      }
      return None;
    }

    /** Accepted exactly when acceptable; then the caller is on record, the answer lists everyone
        on record, and it is announced as online and, if anyone is on record, as discovered. */
    method Handshake(req: Option<HandshakeReq>, t1: int, t2: int) returns (resp: HandshakeResp)
      requires Valid() && registry.clock <= t1 <= t2
      modifies registry, notifier`head, notifier`count, notifier`log, notifier.buffer
      ensures Valid()
      ensures resp.accepted <==> Acceptable(req)
      ensures !resp.accepted ==> registry.Content() == old(registry.Content()) && notifier.log == old(notifier.log)
                                 && registry.lastActive == old(registry.lastActive)
                                 && TurnedDown(req, resp.rejectReason) && resp.peer == None && resp.knownPeers == []
      ensures resp.accepted ==> Joined(old(registry.Content()), old(notifier.log), req.value.self.value, resp)
      ensures resp.accepted ==> registry.clock == t2 && (UuidOf(req.value.self.value) != registry.selfUUID ==>
                                  registry.lastActive == old(registry.lastActive)[UuidOf(req.value.self.value) := t1])
    {
      hide Valid, Acceptable, Joined, TurnedDown;
      var rejection := Vet(req);
      if rejection.Some? {
        return HandshakeResp(false, rejection.value, None, []);
      }
      AcceptableHasPeer(req);
      resp := Accept(req.value.self.value, t1, t2);
    }

    lemma AcceptableHasPeer(req: Option<HandshakeReq>)
      requires Acceptable(req)
      ensures req.Some? && ValidPeer(req.value.self)
    {
    }

    /** The whole effect of an accepted handshake. */
    ghost predicate Joined(before: Dir, told: seq<Notification>, p: NodeInfo, resp: HandshakeResp)
      reads registry, notifier
    {
      && registry.Content() == Apply(registry.selfUUID, before, Register(Some(p)))
      && resp.peer == Some(selfInfo) && Lists(resp.knownPeers, registry.onlinePeers)
      && notifier.log == told + [PeerOnline(NameOf(p), FirstAddrText(p))] +
           (if resp.knownPeers != [] then [Discovered(p)] else [])
      && (UuidOf(p) != registry.selfUUID ==> p in resp.knownPeers)
    }

    /** A vetted peer is one `Register` cannot refuse, so its error branch is dead here. */
    method Accept(p: NodeInfo, t1: int, t2: int) returns (resp: HandshakeResp)
      requires Valid() && registry.clock <= t1 <= t2 && ValidPeer(Some(p))
      modifies registry, notifier`head, notifier`count, notifier`log, notifier.buffer
      ensures Valid() && resp.accepted && registry.clock == t2
      ensures UuidOf(p) != registry.selfUUID ==> registry.lastActive == old(registry.lastActive)[UuidOf(p) := t1]
      ensures Joined(old(registry.Content()), old(notifier.log), p, resp)
    {
      hide Coherent, FirstAddr, Apply, Holds, LastN;
      if UuidOf(p) != registry.selfUUID {
        RegisteredPresent(registry.selfUUID, registry.Content(), p);
      }
      var err := registry.Register(Some(p), t1, t2);
      KeysOf(registry);
      var knownPeers := registry.List();
      AnnounceJoin(p, |knownPeers|);
      resp := HandshakeResp(true, "", Some(selfInfo), knownPeers);
    }

    method AnnounceJoin(p: NodeInfo, known: nat)
      requires notifier.Valid()
      modifies notifier`head, notifier`count, notifier`log, notifier.buffer
      ensures notifier.Valid()
      ensures notifier.log == old(notifier.log) + [PeerOnline(NameOf(p), FirstAddrText(p))] +
                (if known > 0 then [Discovered(p)] else [])
    {
      hide Holds, LastN, FirstAddr;
      var _ := notifier.Emit(PeerOnline(NameOf(p), FirstAddrText(p)));
      if known > 0 {
        var _ := notifier.Emit(Discovered(p));
      }
    }

    /** Liveness is refreshed before the signature is looked at; the answer tells a bad one apart. */
    method Heartbeat(req: Option<HeartbeatReq>, now: int) returns (resp: HeartbeatResp)
      requires Valid() && registry.clock <= now
      modifies registry`lastActive, registry`clock
      ensures Valid()
      ensures registry.lastActive ==
              if req.Some? && req.value.nodeId.Some? && req.value.nodeId.value.uuid in registry.onlinePeers
              then old(registry.lastActive)[req.value.nodeId.value.uuid := now] else old(registry.lastActive)
      ensures resp == if req.Some? && req.value.nodeId.Some? &&
                         (req.value.signature == [] ||
                          (req.value.nodeId.value.publicKey != [] &&
                           heartbeatSigned(req.value.nodeId.value.publicKey, req.value.nodeId.value.uuid,
                                           req.value.timestamp, req.value.signature)))
                      then HeartbeatResp(status, req.value.timestamp) else HeartbeatResp(UNKNOWN, 0)
    {
      if req.None? || req.value.nodeId.None? {
        return HeartbeatResp(UNKNOWN, 0);
      }
      var id := req.value.nodeId.value;
      registry.UpdateLastActive(id.uuid, now);
      if |req.value.signature| > 0 {
        if |id.publicKey| == 0 {
          return HeartbeatResp(UNKNOWN, 0);
        }
        if !heartbeatSigned(id.publicKey, id.uuid, req.value.timestamp, req.value.signature) {
          return HeartbeatResp(UNKNOWN, 0);
        }
      }
      return HeartbeatResp(status, req.value.timestamp);
    }

    /** Whoever asked is off the record afterwards; its departure is announced exactly when it was on it. */
    method Disconnect(req: Option<DisconnectReq>) returns (acknowledged: bool)
      requires Valid()
      modifies registry, notifier`head, notifier`count, notifier`log, notifier.buffer
      ensures Valid() && acknowledged
      ensures var asked := req.Some? && req.value.nodeId.Some? && req.value.nodeId.value.uuid != "";
              && registry.Content() == (if asked then Apply(registry.selfUUID, old(registry.Content()), Unregister(req.value.nodeId.value.uuid))
                                        else old(registry.Content()))
              && notifier.log == old(notifier.log) +
                   (if asked && req.value.nodeId.value.uuid in old(registry.onlinePeers)
                    then [PeerOffline(req.value.nodeId.value.name, req.value.reason)] else [])
              && registry.lastActive == (if asked then old(registry.lastActive) - {req.value.nodeId.value.uuid} else old(registry.lastActive))
      ensures registry.clock == old(registry.clock)
    {
      if req.None? || req.value.nodeId.None? || req.value.nodeId.value.uuid == "" {
        return true;
      }
      hide Coherent, Apply, Holds, LastN;
      var id := req.value.nodeId.value;
      ghost var before := registry.Content();
      var peer := registry.Get(id.uuid);
      if peer.Some? {
        var _ := registry.UpdateStatus(id.uuid, OFFLINE);
      }
      StatusThenUnregister(registry.selfUUID, before, id.uuid, OFFLINE);
      StatusKeepsOnline(registry.selfUUID, before, id.uuid, OFFLINE);
      var removed := registry.Unregister(id.uuid);
      if removed {
        var _ := notifier.Emit(PeerOffline(id.name, req.value.reason));
      }
      return true;
    }

    /** The loop-breaker of the flood: only an unknown peer is registered and announced; a known
        one is merely refreshed. The notice is always acknowledged. */
    method NotifyNodeJoin(newNode: Option<NodeInfo>, t1: int, t2: int) returns (acknowledged: bool)
      requires Valid() && registry.clock <= t1 <= t2
      modifies registry, notifier`head, notifier`count, notifier`log, notifier.buffer
      ensures Valid() && acknowledged
      ensures var fresh_ := ValidPeer(newNode) && UuidOf(newNode.value) != registry.selfUUID && UuidOf(newNode.value) !in old(registry.onlinePeers);
              var known := ValidPeer(newNode) && UuidOf(newNode.value) != registry.selfUUID && UuidOf(newNode.value) in old(registry.onlinePeers);
              && registry.Content() == (if fresh_ then Apply(registry.selfUUID, old(registry.Content()), Register(newNode)) else old(registry.Content()))
              && notifier.log == old(notifier.log) + (if fresh_ then [Discovered(newNode.value)] else [])
              && (known || fresh_ ==> registry.lastActive == old(registry.lastActive)[UuidOf(newNode.value) := t1])
              && (!known && !fresh_ ==> registry.lastActive == old(registry.lastActive))
    {
      if newNode.None? || newNode.value.id.None? || newNode.value.id.value.uuid == "" {
        return true;
      }
      hide Coherent, FormatNodeAddr, AddNameAddr, Holds, LastN;
      var p := newNode.value;
      var uuid := p.id.value.uuid;
      if uuid == registry.selfUUID {
        return true;
      }
      var existing := registry.Get(uuid);
      if existing.Some? {
        registry.UpdateLastActive(uuid, t1);
        return true;
      }
      var err := registry.Register(Some(p), t1, t2);
      if err.Some? {
        return false;
      }
      var _ := notifier.Emit(Discovered(p));
      return true;
    }
  }

  /** What a valid registry tells a caller that lists it. */
  lemma KeysOf(r: PeerRegistry)
    requires r.Valid()
    ensures WellKeyed(r.selfUUID, r.onlinePeers)
  {
  }

  lemma RegisteredPresent(self: string, d: Dir, p: NodeInfo)
    requires ValidPeer(Some(p)) && UuidOf(p) != self
    ensures var online := Apply(self, d, Register(Some(p))).online;
            UuidOf(p) in online && online[UuidOf(p)] == p
  {
  }

  /** Marking a peer offline before removing it leaves the same registry as removing it. */
  lemma StatusThenUnregister(self: string, d: Dir, u: string, status: NodeStatus)
    ensures Apply(self, Apply(self, d, SetStatus(u, status)), Unregister(u)) == Apply(self, d, Unregister(u))
  {
    if u in d.online {
      var e := Apply(self, d, SetStatus(u, status));
      assert AddrTexts(e.online[u]) == AddrTexts(d.online[u]);
      assert e.online - {u} == d.online - {u};
    }
  }

  lemma StatusKeepsOnline(self: string, d: Dir, u: string, status: NodeStatus)
    ensures Apply(self, d, SetStatus(u, status)).online.Keys == d.online.Keys
  {
  }
}
