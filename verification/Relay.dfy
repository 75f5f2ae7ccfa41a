/** What one hop of the join flood does to a peer record: record -> `peer_discovered`
    payload -> address text -> parsed record sent on to the next node. */
module Relay {
  import opened Types
  import opened AddrCodec

  /** The `peer_discovered` payload emitted for a record: its address may be empty. */
  function Discovered(p: NodeInfo): Notification {
    PeerDiscovered(NameOf(p), FirstAddrText(p), UuidOf(p))
  }

  /** A record rebuilt from a notification carries one address and no public key. */
  function Rebuilt(uuid: string, name: string, addr: NodeAddr): NodeInfo {
    NodeInfo(Some(NodeID(uuid, name, [])), [addr], UNKNOWN)
  }

  /** The record `broadcastNodeJoin` sends out, or None when it gives up. */
  function JoinInfo(n: Notification): Option<NodeInfo> {
    match n
    case PeerDiscovered(name, addr, uuid) =>
      if addr == "" || uuid == "" then None
      else (match ParseHostPort(addr)
            case None => None
            case Some(a) => Some(Rebuilt(uuid, name, a)))
    case _ => None
  }

  /** The record the auto-connect subscriber connects to and registers, or None when it skips.
      A notification without a colon in its address would make it panic; none is ever formed. */
  function AutoConnectInfo(n: Notification, selfUuid: string, selfAddr: string): Option<NodeInfo> {
    match n
    case PeerDiscovered(name, addr, uuid) =>
      if addr == "" || uuid == "" || uuid == selfUuid || addr == selfAddr || ':' !in addr then None
      else Some(Rebuilt(uuid, name, RootParse(addr)))
    case _ => None
  }

  /** A broadcast gives up exactly on what is not a discovery, lacks an address or a uuid, or does not
      parse, and otherwise carries the uuid, the name and the parsed address and nothing else. */
  lemma JoinInfoIff(n: Notification, info: NodeInfo)
    ensures JoinInfo(n) == Some(info) <==>
            && n.PeerDiscovered? && n.addr != "" && n.uuid != ""
            && info.id == Some(NodeID(n.uuid, n.name, [])) && info.status == UNKNOWN
            && |info.addrs| == 1 && ParseHostPort(n.addr) == Some(info.addrs[0])
  {
    hide ParseHostPort;
    assert |info.addrs| == 1 ==> info.addrs == [info.addrs[0]];
  }

  /** The auto-connect subscriber skips exactly what is not a discovery, lacks an address or a uuid,
      or is of the node itself. */
  lemma AutoConnectIff(n: Notification, selfUuid: string, selfAddr: string, info: NodeInfo)
    ensures AutoConnectInfo(n, selfUuid, selfAddr) == Some(info) <==>
            && n.PeerDiscovered? && n.uuid != "" && n.uuid != selfUuid && n.addr != selfAddr && ':' in n.addr
            && info.id == Some(NodeID(n.uuid, n.name, [])) && info.status == UNKNOWN && info.addrs == [RootParse(n.addr)]
  {
    hide RootParse;
  }

  /** The text of an address is empty only for want of one, is shared by none but the same host and
      port, and on a plain host reads back as the first address. */
  lemma AddrTextMeans(p: NodeInfo, q: NodeInfo)
    ensures FirstAddrText(p) == "" <==> p.addrs == []
    ensures FirstAddrText(p) == FirstAddrText(q) <==> (p.addrs == [] && q.addrs == []) || (p.addrs != [] && q.addrs != [] && p.addrs[0] == q.addrs[0])
    ensures p.addrs != [] && Clean(p.addrs[0].ip) ==>
              ParseHostPort(FirstAddrText(p)) == Some(p.addrs[0]) && ':' in FirstAddrText(p) && RootParse(FirstAddrText(p)) == p.addrs[0]
  {
    hide ParseHostPort, RootParse, Decimal;
    if p.addrs != [] {
      ParseInvertsFormatIff(p.addrs[0].ip, p.addrs[0].port);
      RootParseOfFormat(p.addrs[0].ip, p.addrs[0].port);
      if q.addrs != [] && FirstAddrText(p) == FirstAddrText(q) {
        FormatInjective(p.addrs[0].ip, p.addrs[0].port, q.addrs[0].ip, q.addrs[0].port);
      }
    }
  }

  function Relayed(p: NodeInfo, hops: nat): Option<NodeInfo> {
    if hops == 0 then Some(p)
    else match Relayed(p, hops - 1)
      case None => None
      case Some(q) => JoinInfo(Discovered(q))
  }

  predicate Announceable(p: NodeInfo) {
    p.id.Some? && p.id.value.uuid != "" && p.addrs != []
  }

  lemma OneHop(p: NodeInfo)
    requires Announceable(p)
    ensures Clean(p.addrs[0].ip) ==> JoinInfo(Discovered(p)) == Some(Rebuilt(UuidOf(p), NameOf(p), p.addrs[0]))
    ensures JoinInfo(Discovered(p)).Some? ==> |JoinInfo(Discovered(p)).value.addrs| == 1
    ensures JoinInfo(Discovered(p)).Some? && !Clean(p.addrs[0].ip) ==>
              |JoinInfo(Discovered(p)).value.addrs[0].ip| < |p.addrs[0].ip|
              && Announceable(JoinInfo(Discovered(p)).value)
  {
    hide ParseHostPort, FormatNodeAddr, Clean;
    assert FirstAddrText(p) != "" by { AddrTextMeans(p, p); }
    ParseOfFormat(p.addrs[0].ip, p.addrs[0].port);
  }

  /** Both parsers a discovered peer meets rebuild the same identity from a clean record. */
  lemma AutoConnectKeepsIdentity(p: NodeInfo, selfUuid: string, selfAddr: string)
    requires Announceable(p) && Clean(p.addrs[0].ip)
    ensures var r := AutoConnectInfo(Discovered(p), selfUuid, selfAddr);
            r == (if UuidOf(p) == selfUuid || FirstAddr(p) == Some(selfAddr) then None
                  else Some(Rebuilt(UuidOf(p), NameOf(p), p.addrs[0])))
            && (r.Some? ==> r == JoinInfo(Discovered(p)))
  {
    OneHop(p);
    RootParseOfFormat(p.addrs[0].ip, p.addrs[0].port);
  }

  function HostLength(p: NodeInfo): nat {
    if p.addrs == [] then 0 else |p.addrs[0].ip|
  }

  lemma OneHopHost(p: NodeInfo)
    requires Announceable(p) && JoinInfo(Discovered(p)).Some?
    ensures var q := JoinInfo(Discovered(p)).value;
            Announceable(q) && HostLength(q) <= HostLength(p)
            && (!Clean(p.addrs[0].ip) ==> HostLength(q) < HostLength(p))
  {
    OneHop(p);
  }

  /** Hosts never grow along the flood, and shrink at each hop that alters them. */
  lemma {:induction false} RelayedHost(p: NodeInfo, hops: nat)
    requires Announceable(p)
    ensures Relayed(p, hops).Some? ==>
              var q := Relayed(p, hops).value;
              Announceable(q) && HostLength(q) <= HostLength(p)
              && (!Clean(p.addrs[0].ip) && hops > 0 ==> HostLength(q) < HostLength(p))
  {
    hide JoinInfo, Discovered, Clean;
    if hops > 0 && Relayed(p, hops).Some? {
      RelayedHost(p, hops - 1);
      OneHopHost(Relayed(p, hops - 1).value);
    }
  }

  lemma {:induction false} RelayedClean(p: NodeInfo, hops: nat)
    requires Announceable(p) && Clean(p.addrs[0].ip) && hops > 0
    ensures Relayed(p, hops) == Some(Rebuilt(UuidOf(p), NameOf(p), p.addrs[0]))
  {
    if hops > 1 {
      RelayedClean(p, hops - 1);
      OneHop(Relayed(p, hops - 1).value);
    } else {
      assert Relayed(p, 0) == Some(p);
      OneHop(p);
    }
  }

  /** A record keeps uuid, name and first address through any number of relay hops exactly
      when its host is free of ':' '[' and ']'. */
  lemma RelayKeepsIdentityIff(p: NodeInfo, hops: nat)
    requires Announceable(p) && hops > 0
    ensures Relayed(p, hops) == Some(Rebuilt(UuidOf(p), NameOf(p), p.addrs[0])) <==> Clean(p.addrs[0].ip)
  {
    if Clean(p.addrs[0].ip) {
      RelayedClean(p, hops);
    } else if Relayed(p, hops).Some? {
      RelayedHost(p, hops);
    }
  }
}
