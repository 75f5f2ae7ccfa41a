/** The name index over whole runs of the registry: when it stays exact, what a lookup by name
    then returns, and what goes wrong otherwise. */
module DirectoryRuns {
  import opened Types
  import opened AddrCodec
  import opened Directory

  // ---- Kept by every operation on every input -------------------------------------------------

  lemma ApplyKeepsWF(self: string, d: Dir, op: Op)
    requires WF(self, d)
    ensures WF(self, Apply(self, d, op))
  {
    match op
    case Register(_) =>
    case Unregister(u) => KeepMembers(d.order, {u});
    case SetStatus(_, _) =>
  }

  lemma ApplyKeepsTidy(self: string, d: Dir, op: Op)
    requires IndexTidy(d.index)
    ensures IndexTidy(Apply(self, d, op).index)
  {
    hide FormatNodeAddr, FirstAddr, AddrTexts;
    if op.Unregister? && op.uuid in d.online {
      var p := d.online[op.uuid];
      KeepMembers(AddrsFor(d.index, NameOf(p)), AddrTexts(p));
    }
  }

  /** With no hypothesis on peers or callers: the order is a duplicate-free enumeration of the
      online peers, no name has an empty list and no list repeats an address. */
  lemma {:induction false} RunInvariant(self: string, ops: seq<Op>)
    ensures WF(self, Run(self, ops)) && IndexTidy(Run(self, ops).index)
  {
    if ops != [] {
      RunInvariant(self, ops[..|ops| - 1]);
      ApplyKeepsWF(self, Run(self, ops[..|ops| - 1]), ops[|ops| - 1]);
      ApplyKeepsTidy(self, Run(self, ops[..|ops| - 1]), ops[|ops| - 1]);
    }
  }

  // ---- Exactness over runs ----------------------------------------------------------------

  ghost predicate SafeUpTo(self: string, ops: seq<Op>, n: nat)
    requires n <= |ops|
  {
    forall k | 0 <= k < n :: Safe(self, Run(self, ops[..k]), ops[k])
  }

  ghost predicate ExactUpTo(self: string, ops: seq<Op>, n: nat)
    requires n <= |ops|
  {
    forall k | 0 <= k <= n :: Exact(Run(self, ops[..k]))
  }

  lemma RunStep(self: string, ops: seq<Op>, k: nat)
    requires k < |ops|
    ensures Run(self, ops[..k + 1]) == Apply(self, Run(self, ops[..k]), ops[k])
  {
    assert ops[..k + 1][..k] == ops[..k];
  }

  lemma EmptyExact()
    ensures Exact(EMPTY)
  {
    forall name ensures ExactAt(EMPTY, name) {
      assert Listed([], map[], name) == [];
    }
  }

  /** The index equals the scan at every point of a run exactly when every step was safe. */
  lemma {:induction false} RunExactIff(self: string, ops: seq<Op>, n: nat)
    requires n <= |ops|
    ensures ExactUpTo(self, ops, n) <==> SafeUpTo(self, ops, n)
  {
    hide Exact, Safe;
    if n == 0 {
      assert ops[..0] == [];
      EmptyExact();
    } else {
      RunExactIff(self, ops, n - 1);
      RunInvariant(self, ops[..n - 1]);
      RunStep(self, ops, n - 1);
      if Exact(Run(self, ops[..n - 1])) {
        StepExactIff(self, Run(self, ops[..n - 1]), ops[n - 1]);
      }
    }
  }

  // ---- Two hypotheses on the peers that make every step safe ----------------------------------

  ghost predicate Registers(self: string, op: Op, p: NodeInfo) {
    op.Register? && op.peer == Some(p) && ValidPeer(op.peer) && UuidOf(p) != self
  }

  /** A peer that registers again brings the same name and the same first address. */
  ghost predicate StableIdentities(self: string, ops: seq<Op>) {
    forall i, j, p, q | 0 <= i < |ops| && 0 <= j < |ops| && Registers(self, ops[i], p) && Registers(self, ops[j], q) ::
      UuidOf(p) == UuidOf(q) ==> NameOf(p) == NameOf(q) && FirstAddr(p) == FirstAddr(q)
  }

  /** Different peers of one name share no address. */
  ghost predicate DisjointNamesakes(self: string, ops: seq<Op>) {
    forall i, j, p, q | 0 <= i < |ops| && 0 <= j < |ops| && Registers(self, ops[i], p) && Registers(self, ops[j], q) ::
      UuidOf(p) != UuidOf(q) && NameOf(p) == NameOf(q) ==> AddrTexts(p) !! AddrTexts(q)
  }

  ghost predicate CameFrom(self: string, ops: seq<Op>, q: NodeInfo) {
    exists i, p :: 0 <= i < |ops| && Registers(self, ops[i], p) && p.id == q.id && p.addrs == q.addrs
  }

  lemma CameFromLonger(self: string, ops: seq<Op>, n: nat, q: NodeInfo)
    requires n <= |ops| && CameFrom(self, ops[..n], q)
    ensures CameFrom(self, ops, q)
  {
    var i, p :| 0 <= i < n && Registers(self, ops[..n][i], p) && p.id == q.id && p.addrs == q.addrs;
    assert Registers(self, ops[i], p);
  }

  /** Every online record was brought by some registration; only its status may have moved. */
  lemma {:induction false} OnlineCameFrom(self: string, ops: seq<Op>, u: string)
    requires u in Run(self, ops).online
    ensures CameFrom(self, ops, Run(self, ops).online[u])
  {
    hide CleanNameAddr, AddNameAddr;
    var n := |ops| - 1;
    var d, op := Run(self, ops[..n]), ops[n];
    var q := Run(self, ops).online[u];
    if u in d.online && d.online[u].id == q.id && d.online[u].addrs == q.addrs {
      OnlineCameFrom(self, ops[..n], u);
      CameFromLonger(self, ops, n, q);
    } else {
      assert Registers(self, ops[n], q);
    }
  }

  lemma HypothesesMakeSafe(self: string, ops: seq<Op>, k: nat)
    requires k < |ops| && StableIdentities(self, ops) && DisjointNamesakes(self, ops)
    ensures Safe(self, Run(self, ops[..k]), ops[k])
  {
    hide FormatNodeAddr, AddrTexts, FirstAddr, Run, Listed;
    var d, op := Run(self, ops[..k]), ops[k];
    RunInvariant(self, ops[..k]);
    forall u | u in d.online ensures CameFrom(self, ops, d.online[u]) {
      OnlineCameFrom(self, ops[..k], u);
      CameFromLonger(self, ops, k, d.online[u]);
    }
    match op
    case Register(peer) =>
      if ValidPeer(peer) && UuidOf(peer.value) != self {
        RegisterIsSafe(self, ops, k, d, peer.value);
      }
    case Unregister(u) =>
      if u in d.online {
        forall v | v in d.online && v != u && NameOf(d.online[v]) == NameOf(d.online[u]) && FirstAddr(d.online[v]).Some?
          ensures FirstAddr(d.online[v]).value !in AddrTexts(d.online[u]) {
          NamesakesApart(self, ops, d.online[u], d.online[v]);
          FirstAmongAll(d.online[v]);
        }
      }
    case SetStatus(_, _) =>
  }

  lemma SameRecordSameAddrs(p: NodeInfo, q: NodeInfo)
    requires p.id == q.id && p.addrs == q.addrs
    ensures UuidOf(p) == UuidOf(q) && NameOf(p) == NameOf(q)
    ensures FirstAddr(p) == FirstAddr(q) && AddrTexts(p) == AddrTexts(q)
  {
  }

  lemma NamesakesApart(self: string, ops: seq<Op>, p: NodeInfo, q: NodeInfo)
    requires DisjointNamesakes(self, ops) && CameFrom(self, ops, p) && CameFrom(self, ops, q)
    requires UuidOf(p) != UuidOf(q) && NameOf(p) == NameOf(q)
    ensures AddrTexts(p) !! AddrTexts(q)
  {
    hide AddrTexts, FirstAddr;
    var i, p' :| 0 <= i < |ops| && Registers(self, ops[i], p') && p'.id == p.id && p'.addrs == p.addrs;
    var j, q' :| 0 <= j < |ops| && Registers(self, ops[j], q') && q'.id == q.id && q'.addrs == q.addrs;
    SameRecordSameAddrs(p, p');
    SameRecordSameAddrs(q, q');
  }

  lemma RegisterIsSafe(self: string, ops: seq<Op>, k: nat, d: Dir, p: NodeInfo)
    requires k < |ops| && StableIdentities(self, ops) && DisjointNamesakes(self, ops)
    requires Registers(self, ops[k], p) && WF(self, d)
    requires forall u | u in d.online :: CameFrom(self, ops, d.online[u])
    ensures Safe(self, d, Register(Some(p)))
  {
    hide FormatNodeAddr, AddrTexts, FirstAddr, Listed;
    var u := UuidOf(p);
    if u in d.online {
      var i, q :| 0 <= i < |ops| && Registers(self, ops[i], q) && q.id == d.online[u].id && q.addrs == d.online[u].addrs;
      SameRecordSameAddrs(q, d.online[u]);
    } else if FirstAddr(p).Some? {
      var a := FirstAddr(p).value;
      InListed(d.order, d.online, NameOf(p), a);
      forall v | v in d.order ensures Contribution(d.online, v, NameOf(p)) != [a] {
        if Contribution(d.online, v, NameOf(p)) != [] {
          assert CameFrom(self, ops, p);
          NamesakesApart(self, ops, p, d.online[v]);
          FirstAmongAll(p);
          FirstAmongAll(d.online[v]);
        }
      }
    }
  }

  /** With stable identities and no address shared between namesakes, for every operation
      sequence the list kept under each name is exactly the first addresses of the online
      peers of that name, in order of registration. */
  lemma IndexExact(self: string, ops: seq<Op>)
    requires StableIdentities(self, ops) && DisjointNamesakes(self, ops)
    ensures Exact(Run(self, ops))
  {
    forall k | 0 <= k < |ops| ensures Safe(self, Run(self, ops[..k]), ops[k]) {
      HypothesesMakeSafe(self, ops, k);
    }
    RunExactIff(self, ops, |ops|);
    assert ops[..|ops|] == ops;
  }

  // ---- What a lookup by name returns ---------------------------------------------------------

  function GetAddrByName(d: Dir, name: string): Option<string> {
    if AddrsFor(d.index, name) == [] then None else Some(AddrsFor(d.index, name)[0])
  }

  ghost predicate FirstIn(order: seq<string>, online: map<string, NodeInfo>, name: string, i: nat) {
    i < |order| && Contribution(online, order[i], name) != []
    && forall j | 0 <= j < i :: Contribution(online, order[j], name) == []
  }

  lemma {:induction false} HeadOfListed(order: seq<string>, online: map<string, NodeInfo>, name: string) returns (i: nat)
    ensures Listed(order, online, name) != [] ==>
              FirstIn(order, online, name, i) && Contribution(online, order[i], name) == [Listed(order, online, name)[0]]
    ensures Listed(order, online, name) == [] ==> forall u | u in order :: Contribution(online, u, name) == []
  {
    hide FirstAddr;
    i := 0;
    if order != [] {
      var n := |order| - 1;
      assert order == order[..n] + [order[n]];
      i := HeadOfListed(order[..n], online, name);
      if Listed(order[..n], online, name) == [] {
        i := n;
      }
    }
  }

  /** On an exact index a lookup finds nothing exactly when no online peer of that name has an
      address, and otherwise returns the first address of the longest-registered one. */
  lemma LookupIsLongestRegistered(self: string, d: Dir, name: string) returns (i: nat)
    requires WF(self, d) && Exact(d)
    ensures GetAddrByName(d, name) == None <==>
            forall u | u in d.online :: Contribution(d.online, u, name) == []
    ensures GetAddrByName(d, name).Some? ==>
              FirstIn(d.order, d.online, name, i)
              && FirstAddr(d.online[d.order[i]]) == GetAddrByName(d, name)
  {
    hide FirstAddr, Listed;
    assert ExactAt(d, name);
    i := HeadOfListed(d.order, d.online, name);
  }

  /** When exactly one online peer bears the name, the two lookups by name agree. */
  lemma LookupAgreesWithScan(self: string, d: Dir, name: string, u: string)
    requires WF(self, d) && Exact(d)
    requires u in d.online && NameOf(d.online[u]) == name
    requires forall v | v in d.online && NameOf(d.online[v]) == name :: v == u
    ensures GetAddrByName(d, name) == FirstAddr(d.online[u])
  {
    var i := LookupIsLongestRegistered(self, d, name);
    if GetAddrByName(d, name).Some? {
      assert d.order[i] in d.order;
    } else {
      assert Contribution(d.online, u, name) == [];
    }
  }

  /** A registration never changes what a lookup finds, exact index or not, and gives a name that has
      no address the first address of its newcomer. */
  lemma RegistrationKeepsLookup(self: string, d: Dir, peer: Option<NodeInfo>, name: string)
    ensures GetAddrByName(Apply(self, d, Register(peer)), name) ==
            if GetAddrByName(d, name).Some? then GetAddrByName(d, name)
            else if ValidPeer(peer) && UuidOf(peer.value) != self && UuidOf(peer.value) !in d.online && NameOf(peer.value) == name
            then FirstAddr(peer.value) else None
  {
    hide FormatNodeAddr, FirstAddr, AddNameAddr;
    if ValidPeer(peer) && FirstAddr(peer.value).Some? {
      var a := FirstAddr(peer.value).value;
      AddedAddr(d.index, NameOf(peer.value), a);
      if AddrsFor(d.index, NameOf(peer.value)) == [] {
        var after := AddrsFor(AddNameAddr(d.index, NameOf(peer.value), a), NameOf(peer.value));
        assert a in after && after[0] in after;
      }
    }
  }

  /** A removal changes what a lookup finds only where it finds an address of the leaving peer. */
  lemma RemovalKeepsLookup(self: string, d: Dir, u: string, name: string)
    requires GetAddrByName(d, name).Some?
    requires u in d.online && NameOf(d.online[u]) == name ==> GetAddrByName(d, name).value !in AddrTexts(d.online[u])
    ensures GetAddrByName(Apply(self, d, Unregister(u)), name) == GetAddrByName(d, name)
  {
    hide AddrTexts, Keep;
    if u in d.online {
      if NameOf(d.online[u]) == name {
        KeepHead(AddrsFor(d.index, name), AddrTexts(d.online[u]));
      }
      CleanedAddrs(d.index, d.online[u]);
    }
  }

  lemma {:induction false} KeepHead(s: seq<string>, drop: set<string>)
    requires s != [] && s[0] !in drop
    ensures Keep(s, drop) != [] && Keep(s, drop)[0] == s[0]
  {
    if |s| == 1 {
      assert s == [] + [s[0]];
      KeepSnoc([], s[0], drop);
    } else {
      KeepHead(s[..|s| - 1], drop);
    }
  }

  /** The hypothesis on re-registration is needed: a peer that comes back under a new first
      address and then leaves is still looked up at its old address, though nobody is online. */
  lemma MovedPeerLeavesGhostAddress(self: string, u: string, name: string, a: NodeAddr, b: NodeAddr)
    requires u != "" && u != self && a != b
    ensures var p := NodeInfo(Some(NodeID(u, name, [])), [a], ONLINE);
            var d := Run(self, [Register(Some(p)), Register(Some(p.(addrs := [b]))), Unregister(u)]);
            d.online == map[] && GetAddrByName(d, name) == Some(FormatNodeAddr(a.ip, a.port)) && !Exact(d)
  {
    hide FormatNodeAddr, Keep, Listed, Exact, GetAddrByName;
    var p := NodeInfo(Some(NodeID(u, name, [])), [a], ONLINE);
    var q := p.(addrs := [b]);
    var ops := [Register(Some(p)), Register(Some(q)), Unregister(u)];
    var text := FormatNodeAddr(a.ip, a.port);
    RunStep(self, ops, 0);
    RunStep(self, ops, 1);
    RunStep(self, ops, 2);
    assert ops[..0] == [] && ops[..3] == ops;
    var d := Dir(map[u := q], map[name := [text]], [u]);
    assert EMPTY.order + [u] == [u] && AddrsFor(EMPTY.index, name) + [text] == [text];
    assert EMPTY.index[name := [text]] == map[name := [text]];
    assert EMPTY.online[u := p] == map[u := p];
    assert Apply(self, EMPTY, ops[0]) == Dir(map[u := p], map[name := [text]], [u]);
    assert Apply(self, Dir(map[u := p], map[name := [text]], [u]), ops[1]) == d;
    LeavesOtherAddress(self, u, q, name, text, b) by {
      if text == FormatNodeAddr(b.ip, b.port) {
        FormatInjective(a.ip, a.port, b.ip, b.port);
      }
    }
  }

  lemma LeavesOtherAddress(self: string, u: string, q: NodeInfo, name: string, text: string, b: NodeAddr)
    requires q.id.Some? && NameOf(q) == name && q.addrs == [b] && text != FormatNodeAddr(b.ip, b.port)
    ensures var d := Apply(self, Dir(map[u := q], map[name := [text]], [u]), Unregister(u));
            d.online == map[] && GetAddrByName(d, name) == Some(text) && !Exact(d)
  {
    hide FormatNodeAddr, Keep;
    var d := Apply(self, Dir(map[u := q], map[name := [text]], [u]), Unregister(u));
    assert [text] == [] + [text] && [u] == [] + [u];
    KeepSnoc([], text, AddrTexts(q));
    KeepSnoc([], u, {u});
    KeepMembers([], {u});
    KeepMembers([], AddrTexts(q));
    assert d.online == map[] && d.order == [] && d.index[name] == [text];
    assert !ExactAt(d, name);
  }
}
