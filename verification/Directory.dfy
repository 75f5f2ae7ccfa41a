/** What the peer registry holds, as a value: the online records, the name-to-address index
    that is maintained beside them, and (a history variable) the order of registration.
    The index is built incrementally; `Listed` is the simple scan it has to agree with. */
module Directory {
  import opened Types
  import opened AddrCodec

  datatype Dir = Dir(online: map<string, NodeInfo>, index: map<string, seq<string>>, order: seq<string>)

  const EMPTY: Dir := Dir(map[], map[], [])

  datatype Op =
    | Register(peer: Option<NodeInfo>)
    | Unregister(uuid: string)
    | SetStatus(uuid: string, status: NodeStatus)

  // ---- The operations -------------------------------------------------------------------

  predicate ValidPeer(peer: Option<NodeInfo>) {
    peer.Some? && peer.value.id.Some? && peer.value.id.value.uuid != ""
  }

  function AddrsFor(index: map<string, seq<string>>, name: string): seq<string> {
    if name in index then index[name] else []
  }

  function AddNameAddr(index: map<string, seq<string>>, name: string, addr: string): map<string, seq<string>> {
    if addr in AddrsFor(index, name) then index else index[name := AddrsFor(index, name) + [addr]]
  }

  /** Every address of the record, not only the first. */
  function AddrTexts(p: NodeInfo): set<string> {
    set i | 0 <= i < |p.addrs| :: FormatNodeAddr(p.addrs[i].ip, p.addrs[i].port)
  }

  function Keep(s: seq<string>, drop: set<string>): seq<string> {
    if s == [] then []
    else
      var last := s[|s| - 1];
      Keep(s[..|s| - 1], drop) + (if last in drop then [] else [last])
  }

  function CleanNameAddr(index: map<string, seq<string>>, p: NodeInfo): map<string, seq<string>> {
    var kept := Keep(AddrsFor(index, NameOf(p)), AddrTexts(p));
    if kept == [] then index - {NameOf(p)} else index[NameOf(p) := kept]
  }

  function Apply(self: string, d: Dir, op: Op): Dir {
    match op
    case Register(peer) =>
      if !ValidPeer(peer) || UuidOf(peer.value) == self then d
      else
        var p := peer.value;
        var u := UuidOf(p);
        var online := d.online[u := p];
        if u in d.online then d.(online := online)
        else
          Dir(online,
              if FirstAddr(p).None? then d.index else AddNameAddr(d.index, NameOf(p), FirstAddr(p).value),
              d.order + [u])
    case Unregister(u) =>
      if u !in d.online then d
      else Dir(d.online - {u}, CleanNameAddr(d.index, d.online[u]), Keep(d.order, {u}))
    case SetStatus(u, status) =>
      if u !in d.online then d
      else d.(online := d.online[u := d.online[u].(status := status)])
  }

  function Run(self: string, ops: seq<Op>): Dir {
    if ops == [] then EMPTY else Apply(self, Run(self, ops[..|ops| - 1]), ops[|ops| - 1])
  }

  // ---- The reference: a scan of the online peers in order of registration ------------------

  function Contribution(online: map<string, NodeInfo>, u: string, name: string): seq<string> {
    if u in online && NameOf(online[u]) == name && FirstAddr(online[u]).Some?
    then [FirstAddr(online[u]).value] else []
  }

  function Listed(order: seq<string>, online: map<string, NodeInfo>, name: string): seq<string> {
    if order == [] then []
    else Listed(order[..|order| - 1], online, name) + Contribution(online, order[|order| - 1], name)
  }

  ghost predicate ExactAt(d: Dir, name: string) {
    AddrsFor(d.index, name) == Listed(d.order, d.online, name)
  }

  ghost predicate Exact(d: Dir) {
    forall name: string :: ExactAt(d, name)
  }

  ghost predicate WellKeyed(self: string, online: map<string, NodeInfo>) {
    forall u | u in online :: online[u].id.Some? && UuidOf(online[u]) == u && u != "" && u != self
  }

  ghost predicate WF(self: string, d: Dir) {
    && Distinct(d.order)
    && (forall u :: u in d.order <==> u in d.online)
    && WellKeyed(self, d.online)
  }

  /** What the code keeps with no hypothesis at all: no empty list, no repeated address. */
  predicate IndexTidy(index: map<string, seq<string>>) {
    forall name | name in index :: index[name] != [] && Distinct(index[name])
  }

  /** The guard under which one operation keeps the index exact: a re-registration changes
      neither name nor first address, a new first address is not yet listed under the name,
      and a leaving peer shares no address with the first address of a namesake. */
  ghost predicate Safe(self: string, d: Dir, op: Op) {
    match op
    case Register(peer) =>
      !ValidPeer(peer) || UuidOf(peer.value) == self ||
      (var p := peer.value;
       if UuidOf(p) in d.online then SameListing(d.online[UuidOf(p)], p)
       else FirstAddr(p).Some? ==> FirstAddr(p).value !in Listed(d.order, d.online, NameOf(p)))
    case Unregister(u) =>
      u in d.online ==>
        forall v | v in d.online && v != u && NameOf(d.online[v]) == NameOf(d.online[u]) && FirstAddr(d.online[v]).Some? ::
          FirstAddr(d.online[v]).value !in AddrTexts(d.online[u])
    case SetStatus(_, _) => true
  }

  predicate SameListing(p: NodeInfo, q: NodeInfo) {
    FirstAddr(p) == FirstAddr(q) && (FirstAddr(p).Some? ==> NameOf(p) == NameOf(q))
  }

  // ---- Filtering and scanning ---------------------------------------------------------------

  lemma KeepConcat(a: seq<string>, b: seq<string>, drop: set<string>)
    ensures Keep(a + b, drop) == Keep(a, drop) + Keep(b, drop)
  {
    if b == [] {
      assert a + b == a;
    } else {
      assert (a + b)[..|a + b| - 1] == a + b[..|b| - 1];
      KeepConcat(a, b[..|b| - 1], drop);
    }
  }

  lemma KeepSnoc(s: seq<string>, x: string, drop: set<string>)
    ensures Keep(s + [x], drop) == if x in drop then Keep(s, drop) else Keep(s, drop) + [x]
  {
    assert (s + [x])[..|s|] == s;
  }

  lemma {:induction false} KeepMembers(s: seq<string>, drop: set<string>)
    ensures forall x :: x in Keep(s, drop) <==> x in s && x !in drop
    ensures Distinct(s) ==> Distinct(Keep(s, drop))
    ensures |Keep(s, drop)| <= |s|
    ensures Keep(s, drop) == s <==> (forall x | x in s :: x !in drop)
  {
    if s != [] {
      var front, last := s[..|s| - 1], s[|s| - 1];
      assert s == front + [last];
      KeepMembers(front, drop);
      if Distinct(s) {
        assert Distinct(front) && last !in front;
      }
    }
  }

  /** What is left of a list after striking some of its places. */
  predicate Subsequence(a: seq<string>, b: seq<string>) {
    a == [] || (|a| <= |b| &&
      (Subsequence(a, b[..|b| - 1]) || (a[|a| - 1] == b[|b| - 1] && Subsequence(a[..|a| - 1], b[..|b| - 1]))))
  }

  lemma {:induction false} KeepInOrder(s: seq<string>, drop: set<string>)
    ensures Subsequence(Keep(s, drop), s)
  {
    if s != [] {
      var front, last := s[..|s| - 1], s[|s| - 1];
      KeepInOrder(front, drop);
      KeepMembers(front, drop);
      var kept := Keep(front, drop);
      if last in drop {
        assert Keep(s, drop) == kept;
      } else {
        assert Keep(s, drop) == kept + [last] && (kept + [last])[..|kept + [last]| - 1] == kept;
      }
    }
  }

  // ---- The two changes of the index, whatever state it is in -------------------------------------------

  /** Adding an address keeps the list as it is and puts a new address at its end; no other name's list
      changes. */
  lemma AddedAddr(index: map<string, seq<string>>, name: string, addr: string)
    ensures var after := AddNameAddr(index, name, addr);
            && AddrsFor(index, name) <= AddrsFor(after, name)
            && (forall a :: a in AddrsFor(after, name) <==> a in AddrsFor(index, name) || a == addr)
            && |AddrsFor(after, name)| <= |AddrsFor(index, name)| + 1
            && (addr in AddrsFor(index, name) ==> after == index)
            && (forall other | other != name :: AddrsFor(after, other) == AddrsFor(index, other))
  {
  }

  /** Cleaning up after a peer strikes each of its addresses from its name's list and no other, keeps
      the order of the rest, and leaves every other name's list alone. */
  lemma CleanedAddrs(index: map<string, seq<string>>, p: NodeInfo)
    ensures var after := CleanNameAddr(index, p);
            var before, left := AddrsFor(index, NameOf(p)), AddrsFor(after, NameOf(p));
            && (forall a :: a in left <==>
                  a in before && forall i | 0 <= i < |p.addrs| :: a != FormatNodeAddr(p.addrs[i].ip, p.addrs[i].port))
            && Subsequence(left, before)
            && (Distinct(before) ==> Distinct(left))
            && (left == [] <==> NameOf(p) !in after)
            && (forall other | other != NameOf(p) :: AddrsFor(after, other) == AddrsFor(index, other))
  {
    hide FormatNodeAddr, Keep;
    KeepMembers(AddrsFor(index, NameOf(p)), AddrTexts(p));
    KeepInOrder(AddrsFor(index, NameOf(p)), AddrTexts(p));
  }

  lemma ListedConcat(a: seq<string>, b: seq<string>, online: map<string, NodeInfo>, name: string)
    ensures Listed(a + b, online, name) == Listed(a, online, name) + Listed(b, online, name)
  {
    if b == [] {
      assert a + b == a;
    } else {
      assert (a + b)[..|a + b| - 1] == a + b[..|b| - 1];
      ListedConcat(a, b[..|b| - 1], online, name);
    }
  }

  lemma ListedSnoc(s: seq<string>, u: string, online: map<string, NodeInfo>, name: string)
    ensures Listed(s + [u], online, name) == Listed(s, online, name) + Contribution(online, u, name)
  {
    assert (s + [u])[..|s|] == s;
  }

  lemma ListedFrame(order: seq<string>, o1: map<string, NodeInfo>, o2: map<string, NodeInfo>, name: string)
    requires forall u | u in order :: Contribution(o1, u, name) == Contribution(o2, u, name)
    ensures Listed(order, o1, name) == Listed(order, o2, name)
  {
    if order != [] {
      ListedFrame(order[..|order| - 1], o1, o2, name);
    }
  }

  lemma {:induction false} InListed(order: seq<string>, online: map<string, NodeInfo>, name: string, addr: string)
    ensures addr in Listed(order, online, name) <==>
            exists u :: u in order && Contribution(online, u, name) == [addr]
  {
    if order != [] {
      var front, last := order[..|order| - 1], order[|order| - 1];
      assert order == front + [last];
      InListed(front, online, name, addr);
    }
  }

  /** Position of `u` splits both the order and the scan. */
  lemma SplitAt(order: seq<string>, u: string) returns (a: seq<string>, b: seq<string>)
    requires u in order && Distinct(order)
    ensures order == a + [u] + b && u !in a && u !in b && Keep(order, {u}) == a + b
  {
    var i :| 0 <= i < |order| && order[i] == u;
    a, b := order[..i], order[i + 1..];
    assert order == a + [u] + b;
    KeepAround(a, u, b);
  }

  lemma KeepAround(a: seq<string>, u: string, b: seq<string>)
    requires u !in a && u !in b
    ensures Keep(a + [u] + b, {u}) == a + b
  {
    hide Keep;
    KeepConcat(a + [u], b, {u});
    KeepSnoc(a, u, {u});
    KeepMembers(a, {u});
    KeepMembers(b, {u});
  }

  lemma ListedSplit(a: seq<string>, u: string, b: seq<string>, online: map<string, NodeInfo>, name: string)
    ensures Listed(a + [u] + b, online, name) ==
            Listed(a, online, name) + Contribution(online, u, name) + Listed(b, online, name)
  {
    ListedConcat(a + [u], b, online, name);
    ListedSnoc(a, u, online, name);
  }

  // ---- One step: exact after, exactly when the guard holds before ----------------------------

  lemma RegisterNewAt(self: string, d: Dir, p: NodeInfo, name: string)
    requires WF(self, d) && ExactAt(d, name) && ValidPeer(Some(p)) && UuidOf(p) != self && UuidOf(p) !in d.online
    ensures ExactAt(Apply(self, d, Register(Some(p))), name) <==>
            (name == NameOf(p) && FirstAddr(p).Some? ==> FirstAddr(p).value !in Listed(d.order, d.online, name))
  {
    hide FormatNodeAddr, FirstAddr, Listed;
    var u := UuidOf(p);
    var online := d.online[u := p];
    ListedFrame(d.order, d.online, online, name);
    ListedSnoc(d.order, u, online, name);
  }

  lemma ReplaceAt(d: Dir, u: string, q: NodeInfo, name: string)
    requires Distinct(d.order) && u in d.order && u in d.online
    ensures Listed(d.order, d.online[u := q], name) == Listed(d.order, d.online, name) <==>
            Contribution(d.online[u := q], u, name) == Contribution(d.online, u, name)
  {
    var a, b := SplitAt(d.order, u);
    var online := d.online[u := q];
    ListedSplit(a, u, b, d.online, name);
    ListedSplit(a, u, b, online, name);
    ListedFrame(a, d.online, online, name);
    ListedFrame(b, d.online, online, name);
    MiddleCancels(Listed(a, online, name), Contribution(online, u, name),
                  Contribution(d.online, u, name), Listed(b, online, name));
  }

  lemma MiddleCancels(x: seq<string>, c1: seq<string>, c2: seq<string>, y: seq<string>)
    ensures x + c1 + y == x + c2 + y <==> c1 == c2
  {
    var s1, s2 := x + c1 + y, x + c2 + y;
    if s1 == s2 {
      assert |c1| == |c2|;
      assert c1 == s1[|x|..|x| + |c1|];
      assert c2 == s2[|x|..|x| + |c2|];
    }
  }

  lemma UnregisterAt(self: string, d: Dir, u: string, name: string)
    requires WF(self, d) && ExactAt(d, name) && u in d.online
    ensures ExactAt(Apply(self, d, Unregister(u)), name) <==>
            (name == NameOf(d.online[u]) ==>
               forall v | v in d.online && v != u && Contribution(d.online, v, name) != [] ::
                 Contribution(d.online, v, name)[0] !in AddrTexts(d.online[u]))
  {
    hide FormatNodeAddr, FirstAddr, AddrTexts, Listed, Keep;
    var online := d.online - {u};
    var drop := AddrTexts(d.online[u]);
    var a, b := SplitAt(d.order, u);
    ScanWithout(d, u, a, b, name);
    if name == NameOf(d.online[u]) {
      KeptWhole(Listed(a, online, name), Listed(b, online, name), drop);
      OthersListed(self, d, u, a, b, name, drop);
    }
  }

  /** The scan after `u` left, and what filtering the scan from before leaves of it. */
  lemma ScanWithout(d: Dir, u: string, a: seq<string>, b: seq<string>, name: string)
    requires u in d.online && d.order == a + [u] + b && u !in a && u !in b
    ensures var online := d.online - {u};
            var la, lb := Listed(a, online, name), Listed(b, online, name);
            var drop := AddrTexts(d.online[u]);
            && Listed(a + b, online, name) == la + lb
            && Listed(d.order, d.online, name) == la + Contribution(d.online, u, name) + lb
            && Keep(Listed(d.order, d.online, name), drop) == Keep(la, drop) + Keep(lb, drop)
  {
    hide FormatNodeAddr, FirstAddr, AddrTexts, Listed, Keep;
    var online := d.online - {u};
    ListedSplit(a, u, b, d.online, name);
    ListedConcat(a, b, online, name);
    ListedFrame(a, d.online, online, name);
    ListedFrame(b, d.online, online, name);
    var c := Contribution(d.online, u, name);
    var drop := AddrTexts(d.online[u]);
    KeepConcat(Listed(a, online, name) + c, Listed(b, online, name), drop);
    FirstAmongAll(d.online[u]);
    if c == [] {
      assert Listed(a, online, name) + c == Listed(a, online, name);
    } else {
      KeepSnoc(Listed(a, online, name), c[0], drop);
    }
  }

  lemma FirstAmongAll(p: NodeInfo)
    ensures FirstAddr(p).Some? ==> FirstAddr(p).value in AddrTexts(p)
  {
    if p.addrs != [] {
      assert FirstAddr(p).value == FormatNodeAddr(p.addrs[0].ip, p.addrs[0].port);
    }
  }

  lemma KeptWhole(x: seq<string>, y: seq<string>, drop: set<string>)
    ensures Keep(x, drop) + Keep(y, drop) == x + y <==> forall e | e in x + y :: e !in drop
  {
    KeepMembers(x, drop);
    KeepMembers(y, drop);
    KeepMembers(x + y, drop);
    KeepConcat(x, y, drop);
  }

  lemma OthersListed(self: string, d: Dir, u: string, a: seq<string>, b: seq<string>, name: string, drop: set<string>)
    requires WF(self, d) && u in d.online && d.order == a + [u] + b && u !in a && u !in b
    ensures var online := d.online - {u};
            (forall e | e in Listed(a, online, name) + Listed(b, online, name) :: e !in drop) <==>
            (forall v | v in d.online && v != u && Contribution(d.online, v, name) != [] ::
               Contribution(d.online, v, name)[0] !in drop)
  {
    hide FirstAddr, Listed;
    var online := d.online - {u};
    ListedConcat(a, b, online, name);
    assert forall v :: v in a + b <==> v in d.online && v != u;
    forall v | v != u ensures Contribution(online, v, name) == Contribution(d.online, v, name) {
    }
    if forall e | e in Listed(a + b, online, name) :: e !in drop {
      forall v | v in d.online && v != u && Contribution(d.online, v, name) != []
        ensures Contribution(d.online, v, name)[0] !in drop {
        InListed(a + b, online, name, Contribution(d.online, v, name)[0]);
      }
    }
    forall e | e in Listed(a + b, online, name)
      ensures exists v :: v in d.online && v != u && Contribution(d.online, v, name) == [e] {
      InListed(a + b, online, name, e);
    }
  }

  /** A change of status is read back, and is the only change. */
  lemma StatusReadsBack(self: string, d: Dir, u: string, status: NodeStatus)
    ensures var e := Apply(self, d, SetStatus(u, status));
            && e.index == d.index && e.order == d.order && e.online.Keys == d.online.Keys
            && (u in d.online ==> e.online[u].status == status && e.online[u].id == d.online[u].id && e.online[u].addrs == d.online[u].addrs)
            && (forall v | v in d.online && v != u :: e.online[v] == d.online[v])
  {
  }

  /** One operation keeps the index equal to the scan exactly when it is safe. */
  lemma StepExactIff(self: string, d: Dir, op: Op)
    requires WF(self, d) && Exact(d)
    ensures Exact(Apply(self, d, op)) <==> Safe(self, d, op)
  {
    var e := Apply(self, d, op);
    match op
    case Register(peer) =>
      if ValidPeer(peer) && UuidOf(peer.value) != self {
        if UuidOf(peer.value) in d.online {
          ReRegisterIff(self, d, peer.value);
        } else {
          var p := peer.value;
          forall name ensures ExactAt(e, name) <==>
              (name == NameOf(p) && FirstAddr(p).Some? ==> FirstAddr(p).value !in Listed(d.order, d.online, name)) {
            RegisterNewAt(self, d, p, name);
          }
          assert Exact(e) ==> ExactAt(e, NameOf(p));
        }
      }
    case Unregister(u) =>
      if u in d.online {
        UnregisterIff(self, d, u);
      }
    case SetStatus(u, status) =>
      if u in d.online {
        forall name ensures ExactAt(e, name) {
          assert ExactAt(d, name);
          ListedFrame(d.order, d.online, e.online, name);
        }
      }
  }

  lemma ReRegisterIff(self: string, d: Dir, p: NodeInfo)
    requires WF(self, d) && Exact(d) && ValidPeer(Some(p)) && UuidOf(p) != self && UuidOf(p) in d.online
    ensures Exact(Apply(self, d, Register(Some(p)))) <==> SameListing(d.online[UuidOf(p)], p)
  {
    hide AddNameAddr, FirstAddr, Listed;
    var u := UuidOf(p);
    var q := d.online[u];
    var e := Apply(self, d, Register(Some(p)));
    assert e == d.(online := d.online[u := p]);
    forall name ensures ExactAt(e, name) <==> Contribution(e.online, u, name) == Contribution(d.online, u, name) {
      assert ExactAt(d, name);
      ReplaceAt(d, u, p, name);
    }
    if Exact(e) {
      assert ExactAt(e, NameOf(q)) && ExactAt(e, NameOf(p));
    }
  }

  lemma UnregisterIff(self: string, d: Dir, u: string)
    requires WF(self, d) && Exact(d) && u in d.online
    ensures Exact(Apply(self, d, Unregister(u))) <==> Safe(self, d, Unregister(u))
  {
    var e := Apply(self, d, Unregister(u));
    var mine := NameOf(d.online[u]);
    forall name ensures ExactAt(e, name) <==> (name == mine ==>
        forall v | v in d.online && v != u && Contribution(d.online, v, name) != [] ::
          Contribution(d.online, v, name)[0] !in AddrTexts(d.online[u])) {
      assert ExactAt(d, name);
      UnregisterAt(self, d, u, name);
    }
    if Exact(e) {
      assert ExactAt(e, mine);
      forall v | v in d.online && v != u && NameOf(d.online[v]) == mine && FirstAddr(d.online[v]).Some?
        ensures FirstAddr(d.online[v]).value !in AddrTexts(d.online[u]) {
        assert Contribution(d.online, v, mine) == [FirstAddr(d.online[v]).value];
      }
    }
  }
}
