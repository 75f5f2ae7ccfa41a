/** The connecting side: the handshake with a seed, and the loop that connects to the peers it
    named. Dialling is outside the model; its outcomes are parameters. */
module Connect {
  import opened Types
  import opened AddrCodec
  import opened Directory
  import opened Registry
  import opened Notifier
  import opened ConnPool
  import opened Membership

  datatype Dial = DialFails(why: string) | StreamFails(why: string) | Connects

  /** Whether the request reached the seed, and its answer came back. */
  datatype Rpc = NotReached | AnswerLost | Answered

  datatype Class = SelfByAddr | SelfByUuid | NoAddr | Failed | Connected

  function Classify(selfAddr: string, selfUuid: string, streams: set<string>, p: NodeInfo, dial: Dial): Class {
    var addr := FirstAddrText(p);
    if addr == selfAddr then SelfByAddr
    else if UuidOf(p) == selfUuid then SelfByUuid
    else if addr == "" then NoAddr
    else if addr in streams || dial.Connects? then Connected
    else Failed
  }

  /** The addresses with a stream after the first peers have been gone through. */
  function StreamsAfter(selfAddr: string, selfUuid: string, streams: set<string>, peers: seq<NodeInfo>, dials: seq<Dial>): set<string>
    requires |peers| == |dials|
  {
    if peers == [] then streams
    else
      var n := |peers| - 1;
      var before := StreamsAfter(selfAddr, selfUuid, streams, peers[..n], dials[..n]);
      if Classify(selfAddr, selfUuid, before, peers[n], dials[n]).Connected? then before + {FirstAddrText(peers[n])} else before
  }

  function Classes(selfAddr: string, selfUuid: string, streams: set<string>, peers: seq<NodeInfo>, dials: seq<Dial>): (r: seq<Class>)
    requires |peers| == |dials|
    ensures |r| == |peers|
  {
    if peers == [] then []
    else
      var n := |peers| - 1;
      Classes(selfAddr, selfUuid, streams, peers[..n], dials[..n]) +
      [Classify(selfAddr, selfUuid, StreamsAfter(selfAddr, selfUuid, streams, peers[..n], dials[..n]), peers[n], dials[n])]
  }

  /** The registry after the connected peers, and only they, were registered in turn. */
  function RegisteredAll(self: string, d: Dir, peers: seq<NodeInfo>, classes: seq<Class>): Dir
    requires |peers| == |classes|
  {
    if peers == [] then d
    else
      var n := |peers| - 1;
      var before := RegisteredAll(self, d, peers[..n], classes[..n]);
      if classes[n].Connected? then Apply(self, before, Register(Some(peers[n]))) else before
  }

  /** A peer the loop tries to connect to at all. */
  predicate Eligible(selfAddr: string, selfUuid: string, p: NodeInfo) {
    FirstAddrText(p) != selfAddr && UuidOf(p) != selfUuid && FirstAddrText(p) != ""
  }

  /** The addresses with a pooled connection after one peer: dialling adds its address, a stream that
      fails takes it out, whatever was there before. */
  function NextConns(selfAddr: string, selfUuid: string, streams: set<string>, conns: set<string>, p: NodeInfo, dial: Dial): set<string> {
    var addr := FirstAddrText(p);
    if !Eligible(selfAddr, selfUuid, p) || addr in streams || dial.DialFails? then conns
    else if dial.StreamFails? then conns - {addr}
    else conns + {addr}
  }

  function ConnsAfter(selfAddr: string, selfUuid: string, streams: set<string>, conns: set<string>,
                      peers: seq<NodeInfo>, dials: seq<Dial>): set<string>
    requires |peers| == |dials|
  {
    if peers == [] then conns
    else
      var n := |peers| - 1;
      NextConns(selfAddr, selfUuid, StreamsAfter(selfAddr, selfUuid, streams, peers[..n], dials[..n]),
                ConnsAfter(selfAddr, selfUuid, streams, conns, peers[..n], dials[..n]), peers[n], dials[n])
  }

  class PeerNode {
    const registry: PeerRegistry
    const pool: Pool
    const selfInfo: NodeInfo
    const signature: seq<Byte>

    constructor (registry: PeerRegistry, pool: Pool, selfInfo: NodeInfo, signature: seq<Byte>)
      ensures this.registry == registry && this.pool == pool && this.selfInfo == selfInfo && this.signature == signature
    {
      this.registry, this.pool, this.selfInfo, this.signature := registry, pool, selfInfo, signature;
    }

    /** A stream already there is enough. A connection whose stream fails is taken out and closed. */
    method ConnectToSinglePeer(peerAddr: string, dial: Dial) returns (err: Option<string>)
      modifies pool
      ensures err.None? <==> peerAddr in old(pool.streams) || dial.Connects?
      ensures peerAddr in old(pool.streams) || dial.DialFails? ==> pool.streams == old(pool.streams) && pool.conns == old(pool.conns)
      ensures peerAddr !in old(pool.streams) && dial.StreamFails? ==>
                pool.streams == old(pool.streams) && pool.conns == old(pool.conns) - {peerAddr}
      ensures peerAddr !in old(pool.streams) && dial.Connects? ==>
                && peerAddr in pool.conns && pool.conns == old(pool.conns)[peerAddr := pool.conns[peerAddr]]
                && peerAddr in pool.streams && pool.streams == old(pool.streams)[peerAddr := pool.streams[peerAddr]]
                && fresh(pool.conns[peerAddr]) && !pool.conns[peerAddr].closed
                && fresh(pool.streams[peerAddr]) && !pool.streams[peerAddr].stream.sendClosed
    {
      var has := pool.HasStream(peerAddr);
      if has {
        return None;
      }
      if dial.DialFails? {
        return Some("connect failed: " + dial.why);
      }
      var conn := new Conn();
      pool.SetConn(peerAddr, conn);
      if dial.StreamFails? {
        pool.DeleteConn(peerAddr);
        conn.Close();
        return Some("create stream failed: " + dial.why);
      }
      var stream := new Stream();
      pool.SetStream(peerAddr, stream);
      return None;
    }

    /** Every peer falls in exactly one class, exactly the connected ones are registered, and there
        is no error exactly when no peer lacked an address or failed. */
    method ConnectToPeers(selfAddr: string, peers: seq<NodeInfo>, dials: seq<Dial>, times: seq<int>) returns (err: Option<string>)
      requires |dials| == |times| == |peers| && registry.Valid()
      requires forall p | p in peers :: p.id.Some?
      requires forall i | 0 <= i < |times| :: registry.clock <= times[i]
      requires forall i, j | 0 <= i < j < |times| :: times[i] <= times[j]
      modifies registry, pool
      ensures registry.Valid()
      ensures var classes := Classes(selfAddr, UuidOf(selfInfo), old(pool.streams).Keys, peers, dials);
              && registry.Content() == RegisteredAll(registry.selfUUID, old(registry.Content()), peers, classes)
              && (err.None? <==> NoAddr !in classes && Failed !in classes)
      ensures pool.streams.Keys == StreamsAfter(selfAddr, UuidOf(selfInfo), old(pool.streams).Keys, peers, dials)
      ensures pool.conns.Keys == ConnsAfter(selfAddr, UuidOf(selfInfo), old(pool.streams).Keys, old(pool.conns).Keys, peers, dials)
      ensures forall a | a in old(pool.streams) :: a in pool.streams && pool.streams[a] == old(pool.streams)[a]
    {
      hide FirstAddrText, Coherent, Apply, Classify, RegisteredAll, Classes, StreamsAfter, ConnsAfter, NextConns;
      var selfUuid := UuidOf(selfInfo);
      ghost var streams, conns, d, self := pool.streams.Keys, pool.conns.Keys, registry.Content(), registry.selfUUID;
      var errMsg := "";
      NothingYet(selfAddr, selfUuid, streams, d, self, peers, dials);
      NoConnsYet(selfAddr, selfUuid, streams, conns, peers, dials);
      for i := 0 to |peers|
        invariant registry.Valid() && (i < |times| ==> registry.clock <= times[i])
        invariant pool.streams.Keys == StreamsAfter(selfAddr, selfUuid, streams, peers[..i], dials[..i])
        invariant registry.Content() == RegisteredAll(self, d, peers[..i], Classes(selfAddr, selfUuid, streams, peers[..i], dials[..i]))
        invariant errMsg == "" <==> NoAddr !in Classes(selfAddr, selfUuid, streams, peers[..i], dials[..i])
                                    && Failed !in Classes(selfAddr, selfUuid, streams, peers[..i], dials[..i])
        invariant pool.conns.Keys == ConnsAfter(selfAddr, selfUuid, streams, conns, peers[..i], dials[..i])
        invariant forall a | a in old(pool.streams) :: a in pool.streams && pool.streams[a] == old(pool.streams)[a]
      {
        OneMoreConn(selfAddr, selfUuid, streams, conns, peers, dials, i);
        OneMorePeer(selfAddr, selfUuid, streams, d, self, peers, dials, i);
        var text := ConnectOne(selfAddr, peers[i], dials[i], times[i]);
        errMsg := errMsg + text;
        if i + 1 < |times| { assert times[i] <= times[i + 1]; }
      }
      assert peers[..|peers|] == peers && dials[..|dials|] == dials;
      if errMsg != "" {
        return Some("some peers connect failed: " + errMsg);
      }
      return None;
    }

    /** The body of that loop: the text it adds to the error message. */
    method ConnectOne(selfAddr: string, p: NodeInfo, dial: Dial, now: int) returns (text: string)
      requires registry.Valid() && registry.clock <= now && p.id.Some?
      modifies registry, pool
      ensures registry.Valid() && registry.clock <= now
      ensures var class_ := Classify(selfAddr, UuidOf(selfInfo), old(pool.streams).Keys, p, dial);
              && registry.Content() == (if class_.Connected? then Apply(registry.selfUUID, old(registry.Content()), Register(Some(p)))
                                        else old(registry.Content()))
              && pool.streams.Keys == (if class_.Connected? then old(pool.streams).Keys + {FirstAddrText(p)} else old(pool.streams).Keys)
              && (text == "" <==> !class_.NoAddr? && !class_.Failed?)
      ensures pool.conns.Keys == NextConns(selfAddr, UuidOf(selfInfo), old(pool.streams).Keys, old(pool.conns).Keys, p, dial)
      ensures forall a | a in old(pool.conns) && a in pool.conns && a != FirstAddrText(p) :: pool.conns[a] == old(pool.conns)[a]
      ensures forall a | a in old(pool.streams) :: a in pool.streams && pool.streams[a] == old(pool.streams)[a]
    {
      hide FirstAddr, Coherent, Apply;
      var peerAddr := FirstAddrText(p);
      if peerAddr == selfAddr {
        return "";
      }
      if UuidOf(p) == UuidOf(selfInfo) {
        return "";
      }
      if peerAddr == "" {
        return "peer " + NameOf(p) + " has no valid addr; ";
      }
      var err := ConnectToSinglePeer(peerAddr, dial);
      if err.Some? {
        return "connect peer " + NameOf(p) + "(" + peerAddr + ") failed: " + err.value + "; ";
      }
      var _ := registry.Register(Some(p), now, now);
      return "";
    }

    /** Handshake with a seed. When its answer comes back accepted, the two registries contain each
        other's node (if they are two nodes) and the caller learns of everyone the seed knows and
        of the seed; a lost answer leaves the seed knowing the caller and not the other way round.
        A node may find itself at the seed's address, when there is one registry and it stays as it is. */
    method HandshakeSeedNode<C>(seed: MembershipService<C>, rpc: Rpc, t1: int, t2: int, t3: int) returns (peers: Option<seq<NodeInfo>>)
      requires registry.Valid() && seed.Valid()
      requires seed.registry.clock <= t1 <= t2 && registry.clock <= t3 && (seed.registry == registry ==> t2 <= t3)
      requires registry.selfUUID == UuidOf(selfInfo) && ValidPeer(Some(seed.selfInfo))
      modifies registry, seed.registry, seed.notifier`head, seed.notifier`count, seed.notifier`log, seed.notifier.buffer
      ensures registry.Valid() && seed.Valid()
      ensures var accepted := !rpc.NotReached? && seed.Acceptable(Some(HandshakeReq(Some(selfInfo), signature)));
              && (peers.Some? <==> accepted && rpc.Answered?)
              && seed.registry.Content() == (if accepted then Apply(seed.registry.selfUUID, old(seed.registry.Content()), Register(Some(selfInfo)))
                                             else old(seed.registry.Content()))
              && (seed.registry != registry ==>
                    registry.Content() == if peers.Some? then Apply(registry.selfUUID, old(registry.Content()), Register(Some(seed.selfInfo)))
                                          else old(registry.Content()))
              && (seed.notifier.log == old(seed.notifier.log) <==> !accepted)
              && (accepted && UuidOf(selfInfo) != UuidOf(seed.selfInfo) ==>
                    UuidOf(selfInfo) in seed.registry.onlinePeers && seed.registry.onlinePeers[UuidOf(selfInfo)] == selfInfo)
              && (peers.Some? && UuidOf(selfInfo) != UuidOf(seed.selfInfo) ==>
                    UuidOf(seed.selfInfo) in registry.onlinePeers && registry.onlinePeers[UuidOf(seed.selfInfo)] == seed.selfInfo)
              && (peers.Some? ==> |peers.value| > 0 && peers.value[|peers.value| - 1] == seed.selfInfo
                                  && Lists(peers.value[..|peers.value| - 1], seed.registry.onlinePeers))
              && (peers.None? ==> registry.Content() == old(registry.Content()))
    {
      hide Coherent, Apply, Holds, LastN, MembershipService<C>.Acceptable;
      if rpc.NotReached? {
        return None;
      }
      var req := HandshakeReq(Some(selfInfo), signature);
      AcceptedOnRecord(seed, req, old(seed.registry.Content()), selfInfo);
      SelfIgnored(registry.selfUUID, old(registry.Content()), selfInfo);
      SelfIgnored(registry.selfUUID, old(registry.Content()), seed.selfInfo);
      var resp := seed.Handshake(Some(req), t1, t2);
      if rpc.AnswerLost? || !resp.accepted {
        return None;
      }
      if resp.peer.Some? {
        if UuidOf(seed.selfInfo) != registry.selfUUID {
          RegisteredPresent(registry.selfUUID, registry.Content(), seed.selfInfo);
        }
        var _ := registry.Register(resp.peer, t3, t3);
      }
      var all := resp.knownPeers;
      if resp.peer.Some? {
        all := all + [resp.peer.value];
      }
      assert all[..|all| - 1] == resp.knownPeers;
      return Some(all);
    }
  }

  lemma SelfIgnored(self: string, d: Dir, p: NodeInfo)
    ensures UuidOf(p) == self ==> Apply(self, d, Register(Some(p))) == d
  {
  }

  lemma AcceptedOnRecord<C>(seed: MembershipService<C>, req: HandshakeReq, before: Dir, p: NodeInfo)
    requires req.self == Some(p) && seed.Valid()
    ensures seed.Acceptable(Some(req)) && UuidOf(p) != UuidOf(seed.selfInfo) ==>
              var online := Apply(seed.registry.selfUUID, before, Register(Some(p))).online;
              UuidOf(p) in online && online[UuidOf(p)] == p
  {
    if seed.Acceptable(Some(req)) && UuidOf(p) != UuidOf(seed.selfInfo) {
      RegisteredPresent(seed.registry.selfUUID, before, p);
    }
  }

  lemma NothingYet(selfAddr: string, selfUuid: string, streams: set<string>, d: Dir, self: string, peers: seq<NodeInfo>, dials: seq<Dial>)
    requires |peers| == |dials|
    ensures StreamsAfter(selfAddr, selfUuid, streams, peers[..0], dials[..0]) == streams
    ensures Classes(selfAddr, selfUuid, streams, peers[..0], dials[..0]) == []
    ensures RegisteredAll(self, d, peers[..0], []) == d
  {
  }

  lemma OneMorePeer(selfAddr: string, selfUuid: string, streams: set<string>, d: Dir, self: string,
                    peers: seq<NodeInfo>, dials: seq<Dial>, i: nat)
    requires |peers| == |dials| && i < |peers|
    ensures var before := StreamsAfter(selfAddr, selfUuid, streams, peers[..i], dials[..i]);
            var class_ := Classify(selfAddr, selfUuid, before, peers[i], dials[i]);
            var classes := Classes(selfAddr, selfUuid, streams, peers[..i], dials[..i]);
            && StreamsAfter(selfAddr, selfUuid, streams, peers[..i + 1], dials[..i + 1]) ==
                 (if class_.Connected? then before + {FirstAddrText(peers[i])} else before)
            && Classes(selfAddr, selfUuid, streams, peers[..i + 1], dials[..i + 1]) == classes + [class_]
            && RegisteredAll(self, d, peers[..i + 1], classes + [class_]) ==
                 (var e := RegisteredAll(self, d, peers[..i], classes);
                  if class_.Connected? then Apply(self, e, Register(Some(peers[i]))) else e)
  {
    hide Classify, Apply, FirstAddrText;
    assert peers[..i + 1][..i] == peers[..i] && dials[..i + 1][..i] == dials[..i];
    var classes := Classes(selfAddr, selfUuid, streams, peers[..i], dials[..i]);
    var class_ := Classify(selfAddr, selfUuid, StreamsAfter(selfAddr, selfUuid, streams, peers[..i], dials[..i]), peers[i], dials[i]);
    assert (classes + [class_])[..i] == classes;
  }

  lemma NoConnsYet(selfAddr: string, selfUuid: string, streams: set<string>, conns: set<string>, peers: seq<NodeInfo>, dials: seq<Dial>)
    requires |peers| == |dials|
    ensures ConnsAfter(selfAddr, selfUuid, streams, conns, peers[..0], dials[..0]) == conns
  {
  }

  lemma OneMoreConn(selfAddr: string, selfUuid: string, streams: set<string>, conns: set<string>,
                    peers: seq<NodeInfo>, dials: seq<Dial>, i: nat)
    requires |peers| == |dials| && i < |peers|
    ensures ConnsAfter(selfAddr, selfUuid, streams, conns, peers[..i + 1], dials[..i + 1]) ==
            NextConns(selfAddr, selfUuid, StreamsAfter(selfAddr, selfUuid, streams, peers[..i], dials[..i]),
                      ConnsAfter(selfAddr, selfUuid, streams, conns, peers[..i], dials[..i]), peers[i], dials[i])
  {
    hide NextConns, StreamsAfter;
    assert peers[..i + 1][..i] == peers[..i] && dials[..i + 1][..i] == dials[..i];
  }

  // ---- What the classes mean ------------------------------------------------------------------------

  /** The `j`-th peer is one to connect to, at `addr`, and dialling it works. */
  predicate Opens(selfAddr: string, selfUuid: string, peers: seq<NodeInfo>, dials: seq<Dial>, j: nat, addr: string)
    requires |peers| == |dials|
  {
    j < |peers| && Eligible(selfAddr, selfUuid, peers[j]) && FirstAddrText(peers[j]) == addr && dials[j].Connects?
  }

  /** One of the first `n` peers opens a stream to `addr`. */
  predicate OpenedBy(selfAddr: string, selfUuid: string, peers: seq<NodeInfo>, dials: seq<Dial>, n: nat, addr: string)
    requires |peers| == |dials|
  {
    exists j: nat | j < n :: Opens(selfAddr, selfUuid, peers, dials, j, addr)
  }

  lemma {:induction false} StreamsMeaning(selfAddr: string, selfUuid: string, streams: set<string>,
                                          peers: seq<NodeInfo>, dials: seq<Dial>, n: nat, addr: string)
    requires |peers| == |dials| && n <= |peers|
    ensures addr in StreamsAfter(selfAddr, selfUuid, streams, peers[..n], dials[..n]) <==>
            addr in streams || OpenedBy(selfAddr, selfUuid, peers, dials, n, addr)
  {
    hide FirstAddrText, Classes, RegisteredAll;
    if n > 0 {
      var i := n - 1;
      var before := StreamsAfter(selfAddr, selfUuid, streams, peers[..i], dials[..i]);
      assert peers[..n][..i] == peers[..i] && dials[..n][..i] == dials[..i];
      StreamsMeaning(selfAddr, selfUuid, streams, peers, dials, i, addr);
      if Opens(selfAddr, selfUuid, peers, dials, i, addr) {
        assert Classify(selfAddr, selfUuid, before, peers[i], dials[i]).Connected?;
      }
    }
  }

  /** The stream to the `j`-th peer fails though dialling it worked, and no stream was there. */
  predicate Breaks(selfAddr: string, selfUuid: string, streams: set<string>, peers: seq<NodeInfo>, dials: seq<Dial>, j: nat, addr: string)
    requires |peers| == |dials|
  {
    && j < |peers| && Eligible(selfAddr, selfUuid, peers[j]) && FirstAddrText(peers[j]) == addr && dials[j].StreamFails?
    && addr !in streams && !OpenedBy(selfAddr, selfUuid, peers, dials, j, addr)
  }

  /** An address has a pooled connection afterwards exactly if one of the peers opened a stream there
      that was not there before, or it had one and no failing stream took it out. */
  lemma {:induction false} ConnsMeaning(selfAddr: string, selfUuid: string, streams: set<string>, conns: set<string>,
                                        peers: seq<NodeInfo>, dials: seq<Dial>, n: nat, addr: string)
    requires |peers| == |dials| && n <= |peers|
    ensures addr in ConnsAfter(selfAddr, selfUuid, streams, conns, peers[..n], dials[..n]) <==>
            || (addr !in streams && OpenedBy(selfAddr, selfUuid, peers, dials, n, addr))
            || (addr in conns && forall j: nat | j < n :: !Breaks(selfAddr, selfUuid, streams, peers, dials, j, addr))
  {
    hide FirstAddrText, Classes, RegisteredAll, StreamsAfter;
    if n > 0 {
      var i := n - 1;
      ConnsMeaning(selfAddr, selfUuid, streams, conns, peers, dials, i, addr);
      StreamsMeaning(selfAddr, selfUuid, streams, peers, dials, i, addr);
      OneMoreConn(selfAddr, selfUuid, streams, conns, peers, dials, i);
      if Opens(selfAddr, selfUuid, peers, dials, i, addr) {
        assert OpenedBy(selfAddr, selfUuid, peers, dials, n, addr);
      }
      if Breaks(selfAddr, selfUuid, streams, peers, dials, i, addr) {
        assert !OpenedBy(selfAddr, selfUuid, peers, dials, n, addr);
      }
    }
  }

  lemma NoAddrText(p: NodeInfo)
    ensures FirstAddrText(p) == "" <==> p.addrs == []
  {
  }

  /** When a peer falls in which class. One to connect to ends up connected exactly when its address
      had a stream already, or this or an earlier peer opened one there, and has failed otherwise. */
  lemma ClassesMean(selfAddr: string, selfUuid: string, streams: set<string>, peers: seq<NodeInfo>, dials: seq<Dial>, i: nat)
    requires |peers| == |dials| && i < |peers|
    ensures var class_, addr := Classes(selfAddr, selfUuid, streams, peers, dials)[i], FirstAddrText(peers[i]);
            var reachable := addr in streams || OpenedBy(selfAddr, selfUuid, peers, dials, i + 1, addr);
            && (class_.SelfByAddr? <==> addr == selfAddr)
            && (class_.SelfByUuid? <==> addr != selfAddr && UuidOf(peers[i]) == selfUuid)
            && (class_.NoAddr? <==> addr != selfAddr && UuidOf(peers[i]) != selfUuid && peers[i].addrs == [])
            && (class_.Connected? <==> Eligible(selfAddr, selfUuid, peers[i]) && reachable)
            && (class_.Failed? <==> Eligible(selfAddr, selfUuid, peers[i]) && !reachable)
  {
    hide FirstAddrText, Classes, StreamsAfter;
    var addr := FirstAddrText(peers[i]);
    NoAddrText(peers[i]);
    ClassAt(selfAddr, selfUuid, streams, peers, dials, i);
    StreamsMeaning(selfAddr, selfUuid, streams, peers, dials, i, addr);
    if Eligible(selfAddr, selfUuid, peers[i]) {
      assert dials[i].Connects? == Opens(selfAddr, selfUuid, peers, dials, i, addr);
    }
  }

  lemma {:induction false} ClassAt(selfAddr: string, selfUuid: string, streams: set<string>, peers: seq<NodeInfo>, dials: seq<Dial>, i: nat)
    requires |peers| == |dials| && i < |peers|
    ensures Classes(selfAddr, selfUuid, streams, peers, dials)[i] ==
            Classify(selfAddr, selfUuid, StreamsAfter(selfAddr, selfUuid, streams, peers[..i], dials[..i]), peers[i], dials[i])
  {
    hide Classify;
    var n := |peers| - 1;
    if i < n {
      ClassAt(selfAddr, selfUuid, streams, peers[..n], dials[..n], i);
      assert peers[..n][..i] == peers[..i] && dials[..n][..i] == dials[..i];
    }
  }

  /** The last of the connected peers of a uuid, if there is one. */
  predicate LastOf(self: string, peers: seq<NodeInfo>, classes: seq<Class>, u: string, i: nat)
    requires |peers| == |classes|
  {
    && i < |peers| && classes[i].Connected? && ValidPeer(Some(peers[i])) && UuidOf(peers[i]) == u != self
    && forall j | i < j < |peers| :: !(classes[j].Connected? && ValidPeer(Some(peers[j])) && UuidOf(peers[j]) == u)
  }

  /** What is on record of a uuid is the last connected peer of it, else what was there before. */
  lemma {:induction false} RegisteredAs(self: string, d: Dir, peers: seq<NodeInfo>, classes: seq<Class>, u: string) returns (i: nat)
    requires |peers| == |classes|
    ensures var online := RegisteredAll(self, d, peers, classes).online;
            if i < |peers| then LastOf(self, peers, classes, u, i) && u in online && online[u] == peers[i]
            else (u in online <==> u in d.online) && (u in online ==> online[u] == d.online[u])
  {
    hide AddNameAddr;
    i := |peers|;
    if peers != [] {
      var n := |peers| - 1;
      var k := RegisteredAs(self, d, peers[..n], classes[..n], u);
      assert forall j | 0 <= j < n :: peers[..n][j] == peers[j] && classes[..n][j] == classes[j];
      if classes[n].Connected? && ValidPeer(Some(peers[n])) && UuidOf(peers[n]) == u != self {
        i := n;
      } else if k < n {
        i := k;
      }
    }
  }

  /** Exactly the connected peers are added to the registry. */
  lemma {:induction false} RegisteredExactly(self: string, d: Dir, peers: seq<NodeInfo>, classes: seq<Class>, u: string)
    requires |peers| == |classes|
    ensures u in RegisteredAll(self, d, peers, classes).online <==>
            u in d.online || exists i :: 0 <= i < |peers| && classes[i].Connected? && ValidPeer(Some(peers[i])) && UuidOf(peers[i]) == u != self
  {
    hide AddNameAddr;
    if peers != [] {
      var n := |peers| - 1;
      RegisteredExactly(self, d, peers[..n], classes[..n], u);
      assert forall i | 0 <= i < n :: peers[..n][i] == peers[i] && classes[..n][i] == classes[i];
    }
  }
}
