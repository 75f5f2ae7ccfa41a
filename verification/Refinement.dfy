/** The node's own loops and the steps of the network model do the same: a broadcast sends what the
    model puts in flight, and a gossip round announces what the model's gossip items announce. */
module Refinement {
  import opened Types
  import opened AddrCodec
  import opened Relay
  import opened Directory
  import opened Network
  import NodeOps

  /** The messages as the network sees them: an address and a record. */
  function Wire(sends: seq<NodeOps.Send>): (r: seq<Work>)
    ensures |r| == |sends|
  {
    if sends == [] then []
    else Wire(sends[..|sends| - 1]) + [Notify(sends[|sends| - 1].to, sends[|sends| - 1].info)]
  }

  lemma {:induction false} WireConcat(a: seq<NodeOps.Send>, b: seq<NodeOps.Send>)
    ensures Wire(a + b) == Wire(a) + Wire(b)
  {
    if b == [] {
      assert a + b == a;
    } else {
      assert (a + b)[..|a + b| - 1] == a + b[..|b| - 1];
      WireConcat(a, b[..|b| - 1]);
    }
  }

  lemma WireOne(s: NodeOps.Send)
    ensures Wire([s]) == [Notify(s.to, s.info)]
  {
    assert [s][..0] == [];
  }

  /** The last of one list, taken out of the other. */
  lemma TakenOut<T>(a: seq<T>, b: seq<T>) returns (x: seq<T>, y: seq<T>)
    requires a != [] && multiset(a) == multiset(b)
    ensures b == x + [a[|a| - 1]] + y && multiset(a[..|a| - 1]) == multiset(x + y)
  {
    var front, s := a[..|a| - 1], a[|a| - 1];
    assert a == front + [s];
    assert s in multiset(a) && s in multiset(b);
    var i :| 0 <= i < |b| && b[i] == s;
    x, y := b[..i], b[i + 1..];
    assert b == x + [s] + y;
    Cancels(multiset(front), multiset(x + y), s);
  }

  lemma Cancels<T>(m: multiset<T>, n: multiset<T>, e: T)
    requires m + multiset{e} == n + multiset{e}
    ensures m == n
  {
    assert m == (m + multiset{e}) - multiset{e};
    assert n == (n + multiset{e}) - multiset{e};
  }

  /** In whatever order the messages leave, they are the same messages. */
  lemma {:induction false} WirePermuted(a: seq<NodeOps.Send>, b: seq<NodeOps.Send>)
    requires multiset(a) == multiset(b)
    ensures multiset(Wire(a)) == multiset(Wire(b))
  {
    if a == [] {
      assert |multiset(b)| == 0;
    } else {
      var front, s := a[..|a| - 1], a[|a| - 1];
      var x, y := TakenOut(a, b);
      WirePermuted(front, x + y);
      WireConcat(x + [s], y);
      WireConcat(x, [s]);
      WireConcat(x, y);
      WireOne(s);
    }
  }

  lemma {:induction false} CountDistinct<T>(s: seq<T>)
    requires Distinct(s)
    ensures forall e :: multiset(s)[e] == if e in s then 1 else 0
  {
    if s != [] {
      var front, last := s[..|s| - 1], s[|s| - 1];
      assert s == front + [last] && last !in front;
      CountDistinct(front);
    }
  }

  lemma SameMembers<T>(a: seq<T>, b: seq<T>)
    requires Distinct(a) && Distinct(b) && forall e :: e in a <==> e in b
    ensures multiset(a) == multiset(b)
  {
    CountDistinct(a);
    CountDistinct(b);
  }

  /** What a broadcast of the node sends, by registry entry in order of registration. */
  function InOrder(d: Dir, order: seq<string>, n: string, about: string, info: NodeInfo): seq<NodeOps.Send> {
    if order == [] then []
    else
      var u := order[|order| - 1];
      InOrder(d, order[..|order| - 1], n, about, info) +
      (if NodeOps.Receives(d.online, n, about, u) then [NodeOps.Send(u, FirstAddr(d.online[u]).value, info)] else [])
  }

  lemma {:induction false} MessagesInOrder(d: Dir, order: seq<string>, n: string, about: string, info: NodeInfo)
    ensures Messages(d, order, n, about, info) == Wire(InOrder(d, order, n, about, info))
  {
    hide FormatNodeAddr;
    if order != [] {
      var front, u := order[..|order| - 1], order[|order| - 1];
      MessagesInOrder(d, front, n, about, info);
      if NodeOps.Receives(d.online, n, about, u) {
        var s := NodeOps.Send(u, FirstAddr(d.online[u]).value, info);
        WireConcat(InOrder(d, front, n, about, info), [s]);
        WireOne(s);
      } else {
        assert InOrder(d, order, n, about, info) == InOrder(d, front, n, about, info);
      }
    }
  }

  lemma {:induction false} InOrderMembers(d: Dir, order: seq<string>, n: string, about: string, info: NodeInfo)
    requires Distinct(order)
    ensures var sends := InOrder(d, order, n, about, info);
            && Distinct(sends)
            && forall s :: s in sends <==> s.via in order && NodeOps.Receives(d.online, n, about, s.via)
                                            && Some(s.to) == FirstAddr(d.online[s.via]) && s.info == info
  {
    hide FormatNodeAddr;
    if order != [] {
      var front, u := order[..|order| - 1], order[|order| - 1];
      assert order == front + [u] && u !in front;
      InOrderMembers(d, front, n, about, info);
    }
  }

  /** Whatever `BroadcastNodeJoin` sends under its contract is, message for message, what executing
      the broadcast puts in flight in the network. */
  lemma BroadcastRefines(self: string, d: Dir, sends: seq<NodeOps.Send>, info: NodeInfo)
    requires WF(self, d)
    requires forall u :: NodeOps.Receives(d.online, self, UuidOf(info), u) <==> exists s :: s in sends && s.via == u
    requires forall s | s in sends :: s.via in d.online && Some(s.to) == FirstAddr(d.online[s.via]) && s.info == info
    requires NodeOps.OncePerPeer(sends)
    ensures multiset(Wire(sends)) == multiset(Messages(d, d.order, self, UuidOf(info), info))
  {
    hide FormatNodeAddr, FirstAddr;
    var about := UuidOf(info);
    var ordered := InOrder(d, d.order, self, about, info);
    InOrderMembers(d, d.order, self, about, info);
    forall s ensures s in sends <==> s in ordered {
      if s in ordered {
        var t :| t in sends && t.via == s.via;
        assert t == s;
      }
      if s in sends {
        assert NodeOps.Receives(d.online, self, about, s.via);
      }
    }
    SameMembers(sends, ordered);
    WirePermuted(sends, ordered);
    MessagesInOrder(d, d.order, self, about, info);
  }

  // ---- Gossip ------------------------------------------------------------------------------------------

  function Announces(n: string, notes: seq<Notification>): seq<Work> {
    if notes == [] then [] else Announces(n, notes[..|notes| - 1]) + [Announce(n, notes[|notes| - 1])]
  }

  /** What a number of items produce, one after the other. */
  ghost function Produced(cfg: Config, dirs: Dirs, work: seq<Work>): seq<Work>
    requires dirs.Keys == cfg.Keys
  {
    if work == [] then []
    else Produced(cfg, dirs, work[..|work| - 1]) + Effect(cfg, dirs, work[|work| - 1], true).1
  }

  /** Executing the gossiped records of an answer announces exactly the strangers that the node's
      gossip round announces, in order, and changes no registry. */
  lemma {:induction false} GossipRefines(cfg: Config, dirs: Dirs, n: string, peers: seq<NodeInfo>)
    requires dirs.Keys == cfg.Keys && n in cfg
    ensures Produced(cfg, dirs, Gossips(n, peers)) == Announces(n, NodeOps.Strangers(dirs[n].online, n, peers))
    ensures forall w | w in Gossips(n, peers) :: Effect(cfg, dirs, w, true).0 == dirs
  {
    hide Discovered, Effect;
    forall p ensures Effect(cfg, dirs, Gossip(n, p), true) ==
        (dirs, if ValidPeer(Some(p)) && UuidOf(p) != n && UuidOf(p) !in dirs[n].online then [Announce(n, Discovered(p))] else []) {
      GossipItem(cfg, dirs, n, p);
    }
    if peers != [] {
      var front, p := peers[..|peers| - 1], peers[|peers| - 1];
      GossipRefines(cfg, dirs, n, front);
      var work := Gossips(n, peers);
      assert work[..|work| - 1] == Gossips(n, front) && work[|work| - 1] == Gossip(n, p);
      var before := NodeOps.Strangers(dirs[n].online, n, front);
      assert (before + [Discovered(p)])[..|before|] == before && before + [] == before;
    }
  }

  lemma GossipItem(cfg: Config, dirs: Dirs, n: string, p: NodeInfo)
    requires dirs.Keys == cfg.Keys && n in cfg
    ensures Effect(cfg, dirs, Gossip(n, p), true) ==
            (dirs, if ValidPeer(Some(p)) && UuidOf(p) != n && UuidOf(p) !in dirs[n].online then [Announce(n, Discovered(p))] else [])
  {
  }
}
