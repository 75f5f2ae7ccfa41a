/** A closed network of correct nodes as one state machine. Every message in flight and every
    half-done handler is an item of `work`; executing an item is one critical section of the
    node it belongs to, so two handlers for the same join interleave between the existence
    check, the registration, the emission and the broadcast. */
module Network {
  import opened Types
  import opened AddrCodec
  import opened Relay
  import opened Directory
  import opened DirectoryRuns

  /** What is fixed about a real node: the name and listening address it was started with. */
  datatype Ident = Ident(name: string, key: seq<Byte>, addr: NodeAddr)

  /** The real nodes by uuid. */
  type Config = map<string, Ident>

  /** Hosts are plain, and no two nodes listen on one address. */
  ghost predicate ValidConfig(cfg: Config) {
    && (forall u | u in cfg :: u != "" && Clean(cfg[u].addr.ip))
    && (forall u, v | u in cfg && v in cfg && cfg[u].addr == cfg[v].addr :: u == v)
  }

  function AddrText(cfg: Config, n: string): string
    requires n in cfg
  {
    FormatNodeAddr(cfg[n].addr.ip, cfg[n].addr.port)
  }

  function SelfInfo(cfg: Config, n: string): NodeInfo
    requires n in cfg
  {
    NodeInfo(Some(NodeID(n, cfg[n].name, cfg[n].key)), [cfg[n].addr], ONLINE)
  }

  datatype Work =
    | Hello(to: string, from: string, info: NodeInfo)          // Handshake request in flight to an address
    | HelloRegistered(at: string, from: string, info: NodeInfo) // its handler, after Register and before List
    | Reply(at: string, info: NodeInfo)                        // one record of the response, back at the caller
    | Notify(to: string, info: NodeInfo)                       // NotifyNodeJoin in flight to an address
    | Checked(at: string, info: NodeInfo)                      // its handler, past the existence check
    | Announce(at: string, what: Notification)                 // about to emit peer_discovered
    | Broadcast(at: string, what: Notification)                // the relay subscriber, about to list its peers
    | AutoConnect(at: string, what: Notification)              // the auto-connect subscriber
    | Gossip(at: string, info: NodeInfo)                       // one record of a GetPeers answer, back at the asker

  type Dirs = map<string, Dir>

  /** History: `sent[u]` counts the NotifyNodeJoin messages ever sent about `u`, and `casts[(n, u)]`
      the broadcasts about `u` ever made by `n`. */
  datatype State = State(dirs: Dirs, work: seq<Work>, sent: map<string, nat>, casts: multiset<(string, string)>)

  datatype Event =
    | Step(i: nat, ok: bool)                 // execute item i; `ok`: the connection attempt in it succeeds
    | Lose(i: nat)                           // item i, a message, is lost
    | Handshake(from: string, to: string)    // a node handshakes with whatever listens at an address
    | Ask(at: string, whom: string)          // a gossip round fetches a node's list
    | Leave(at: string, uuid: string)        // a node unregisters a peer
    | Status(at: string, uuid: string, status: NodeStatus)

  /** Who listens on an address. */
  ghost function NodeAt(cfg: Config, text: string): Option<string> {
    if exists n :: n in cfg && AddrText(cfg, n) == text
    then var n :| n in cfg && AddrText(cfg, n) == text; Some(n)
    else None
  }

  function Registered(dirs: Dirs, n: string, p: NodeInfo): Dirs
    requires n in dirs
  {
    dirs[n := Apply(n, dirs[n], Register(Some(p)))]
  }

  predicate Knows(dirs: Dirs, n: string, u: string) {
    n in dirs && u in dirs[n].online
  }

  /** One item for each listed record. */
  function Records(d: Dir, order: seq<string>): seq<NodeInfo> {
    if order == [] then []
    else
      var u := order[|order| - 1];
      Records(d, order[..|order| - 1]) + (if u in d.online then [d.online[u]] else [])
  }

  function Replies(from: string, infos: seq<NodeInfo>): seq<Work> {
    seq(|infos|, i requires 0 <= i < |infos| => Reply(from, infos[i]))
  }

  function Gossips(at: string, infos: seq<NodeInfo>): seq<Work> {
    seq(|infos|, i requires 0 <= i < |infos| => Gossip(at, infos[i]))
  }

  /** The peers a broadcast about `about` at `n` goes to: addressed, not itself, not the newcomer. */
  function Messages(d: Dir, order: seq<string>, n: string, about: string, info: NodeInfo): seq<Work> {
    if order == [] then []
    else
      var u := order[|order| - 1];
      Messages(d, order[..|order| - 1], n, about, info) +
      (if u in d.online && u != n && u != about && FirstAddr(d.online[u]).Some?
       then [Notify(FirstAddr(d.online[u]).value, info)] else [])
  }

  /** The effect of executing one item: the registries after it, and the items it gives rise to. */
  ghost function Effect(cfg: Config, dirs: Dirs, w: Work, ok: bool): (Dirs, seq<Work>)
    requires dirs.Keys == cfg.Keys
  {
    match w
    case Hello(to, from, info) =>
      (match NodeAt(cfg, to)
       case None => (dirs, [])
       case Some(n) =>
         if !ValidPeer(Some(info)) then (dirs, [])
         else (Registered(dirs, n, info), [HelloRegistered(n, from, info)]))
    case HelloRegistered(n, from, info) =>
      if n !in cfg then (dirs, [])
      else
        var known := Records(dirs[n], dirs[n].order);
        (dirs, [Reply(from, SelfInfo(cfg, n))] + Replies(from, known) +
               (if known == [] then [] else [Announce(n, Discovered(info))]))
    case Reply(n, info) =>
      if n in cfg && ok then (Registered(dirs, n, info), []) else (dirs, [])
    case Notify(to, info) =>
      (match NodeAt(cfg, to)
       case None => (dirs, [])
       case Some(n) =>
         if !ValidPeer(Some(info)) || UuidOf(info) == n || UuidOf(info) in dirs[n].online then (dirs, [])
         else (dirs, [Checked(n, info)]))
    case Checked(n, info) =>
      if n !in cfg then (dirs, [])
      else (Registered(dirs, n, info), [Announce(n, Discovered(info))])
    case Announce(n, what) => (dirs, [Broadcast(n, what), AutoConnect(n, what)])
    case Broadcast(n, what) =>
      if n in cfg && what.PeerDiscovered? && JoinInfo(what).Some?
      then (dirs, Messages(dirs[n], dirs[n].order, n, what.uuid, JoinInfo(what).value))
      else (dirs, [])
    case AutoConnect(n, what) =>
      if n in cfg && ok && AutoConnectInfo(what, n, AddrText(cfg, n)).Some?
      then (Registered(dirs, n, AutoConnectInfo(what, n, AddrText(cfg, n)).value), [])
      else (dirs, [])
    case Gossip(n, info) =>
      if n in cfg && ValidPeer(Some(info)) && UuidOf(info) != n && UuidOf(info) !in dirs[n].online
      then (dirs, [Announce(n, Discovered(info))])
      else (dirs, [])
  }

  function Replace(work: seq<Work>, i: nat, produced: seq<Work>): seq<Work>
    requires i < |work|
  {
    work[..i] + work[i + 1..] + produced
  }

  /** The item is a broadcast that does not give up on its notification. */
  predicate Casting(cfg: Config, w: Work) {
    w.Broadcast? && w.at in cfg && w.what.PeerDiscovered? && JoinInfo(w.what).Some?
  }

  function SentAbout(sent: map<string, nat>, u: string): nat {
    if u in sent then sent[u] else 0
  }

  ghost predicate Enabled(cfg: Config, s: State, e: Event) {
    s.dirs.Keys == cfg.Keys &&
    match e
    case Step(i, _) => i < |s.work|
    case Lose(i) => i < |s.work| && (s.work[i].Hello? || s.work[i].Reply? || s.work[i].Notify? || s.work[i].Gossip?)
    case Handshake(from, _) => from in cfg
    case Ask(at, whom) => at in cfg && whom in cfg
    case Leave(at, _) => at in cfg
    case Status(at, _, _) => at in cfg
  }

  ghost function Next(cfg: Config, s: State, e: Event): State
    requires Enabled(cfg, s, e)
  {
    match e
    case Step(i, ok) =>
      var (dirs, produced) := Effect(cfg, s.dirs, s.work[i], ok);
      State(dirs, Replace(s.work, i, produced),
            if s.work[i].Broadcast? && s.work[i].what.PeerDiscovered?
            then s.sent[s.work[i].what.uuid := SentAbout(s.sent, s.work[i].what.uuid) + |produced|]
            else s.sent,
            if Casting(cfg, s.work[i]) then s.casts + multiset{(s.work[i].at, s.work[i].what.uuid)} else s.casts)
    case Lose(i) => s.(work := Replace(s.work, i, []))
    case Handshake(from, to) => s.(work := s.work + [Hello(to, from, SelfInfo(cfg, from))])
    case Ask(at, whom) => s.(work := s.work + Gossips(at, Records(s.dirs[whom], s.dirs[whom].order)))
    case Leave(at, u) => s.(dirs := s.dirs[at := Apply(at, s.dirs[at], Unregister(u))])
    case Status(at, u, status) => s.(dirs := s.dirs[at := Apply(at, s.dirs[at], SetStatus(u, status))])
  }

  /** The network is open: at any time any node may be asked anything, whatever is under way may go on,
      and any message, but no half-done handler, may be lost. */
  lemma Open(cfg: Config, s: State, e: Event)
    requires s.dirs.Keys == cfg.Keys && !e.Step? && !e.Lose?
    requires (if e.Handshake? then e.from else e.at) in cfg && (e.Ask? ==> e.whom in cfg)
    ensures Enabled(cfg, s, e)
    ensures forall i: nat, ok | i < |s.work| :: Enabled(cfg, s, Step(i, ok))
    ensures forall i: nat | i < |s.work| ::
              var w := s.work[i]; Enabled(cfg, s, Lose(i)) <==> w.Hello? || w.Reply? || w.Notify? || w.Gossip?
  {
  }

  ghost function Init(cfg: Config): State {
    State(map n | n in cfg :: EMPTY, [], map[], multiset{})
  }

  /** `states` is a run of `events` from its first element. */
  ghost predicate IsRun(cfg: Config, states: seq<State>, events: seq<Event>) {
    |states| == |events| + 1 &&
    forall i | 0 <= i < |events| :: Enabled(cfg, states[i], events[i]) && states[i + 1] == Next(cfg, states[i], events[i])
  }

  // ---- Identity provenance ---------------------------------------------------------------------

  /** The record carries the uuid, the name and the address of a real node. */
  ghost predicate Genuine(cfg: Config, p: NodeInfo) {
    p.id.Some? && UuidOf(p) in cfg && NameOf(p) == cfg[UuidOf(p)].name && p.addrs == [cfg[UuidOf(p)].addr]
  }

  ghost predicate GenuineNotice(cfg: Config, what: Notification) {
    what.PeerDiscovered? && what.uuid in cfg && what.name == cfg[what.uuid].name && what.addr == AddrText(cfg, what.uuid)
  }

  ghost predicate WorkOk(cfg: Config, w: Work) {
    match w
    case Hello(_, from, info) => from in cfg && Genuine(cfg, info)
    case HelloRegistered(n, from, info) => n in cfg && from in cfg && Genuine(cfg, info)
    case Reply(n, info) => n in cfg && Genuine(cfg, info)
    case Notify(_, info) => Genuine(cfg, info)
    case Checked(n, info) => n in cfg && Genuine(cfg, info) && UuidOf(info) != n
    case Announce(n, what) => n in cfg && GenuineNotice(cfg, what)
    case Broadcast(n, what) => n in cfg && GenuineNotice(cfg, what)
    case AutoConnect(n, what) => n in cfg && GenuineNotice(cfg, what)
    case Gossip(n, info) => n in cfg && Genuine(cfg, info)
  }

  ghost predicate DirOk(cfg: Config, n: string, d: Dir) {
    WF(n, d) && Exact(d) && forall u | u in d.online :: Genuine(cfg, d.online[u])
  }

  ghost predicate DirsOk(cfg: Config, dirs: Dirs) {
    dirs.Keys == cfg.Keys && forall n | n in cfg :: DirOk(cfg, n, dirs[n])
  }

  ghost predicate AllOk(cfg: Config, work: seq<Work>) {
    forall w | w in work :: WorkOk(cfg, w)
  }

  ghost predicate Inv(cfg: Config, s: State) {
    DirsOk(cfg, s.dirs) && AllOk(cfg, s.work)
  }

  lemma AddrTextInjective(cfg: Config, u: string, v: string)
    requires ValidConfig(cfg) && u in cfg && v in cfg && AddrText(cfg, u) == AddrText(cfg, v)
    ensures u == v
  {
    FormatInjective(cfg[u].addr.ip, cfg[u].addr.port, cfg[v].addr.ip, cfg[v].addr.port);
  }

  lemma NodeAtOwnAddress(cfg: Config, n: string)
    requires ValidConfig(cfg) && n in cfg
    ensures NodeAt(cfg, AddrText(cfg, n)) == Some(n)
  {
    hide AddrText, ValidConfig;
    var m := NodeAt(cfg, AddrText(cfg, n)).value;
    AddrTextInjective(cfg, m, n);
  }

  lemma GenuineFirstAddr(cfg: Config, p: NodeInfo)
    requires Genuine(cfg, p)
    ensures FirstAddr(p) == Some(AddrText(cfg, UuidOf(p))) && AddrTexts(p) == {AddrText(cfg, UuidOf(p))}
  {
    hide FormatNodeAddr;
    assert FormatNodeAddr(p.addrs[0].ip, p.addrs[0].port) in AddrTexts(p);
  }

  /** Either parser a discovered peer meets rebuilds the real node it came from. */
  lemma DiscoveredGenuine(cfg: Config, p: NodeInfo)
    requires ValidConfig(cfg) && Genuine(cfg, p)
    ensures Discovered(p).PeerDiscovered? && GenuineNotice(cfg, Discovered(p)) && Discovered(p).uuid == UuidOf(p)
  {
    hide FormatNodeAddr;
    GenuineFirstAddr(cfg, p);
  }

  lemma RebuiltGenuine(cfg: Config, what: Notification, n: string)
    requires ValidConfig(cfg) && GenuineNotice(cfg, what) && n in cfg
    ensures what.PeerDiscovered? && what.uuid in cfg
    ensures var r := Rebuilt(what.uuid, what.name, cfg[what.uuid].addr);
            && Genuine(cfg, r) && UuidOf(r) == what.uuid
            && JoinInfo(what) == Some(r)
            && AutoConnectInfo(what, n, AddrText(cfg, n)) == if what.uuid == n then None else Some(r)
  {
    hide JoinInfo, AutoConnectInfo, FormatNodeAddr;
    var p := Rebuilt(what.uuid, what.name, cfg[what.uuid].addr);
    GenuineFirstAddr(cfg, p);
    assert Discovered(p) == what;
    OneHop(p);
    AutoConnectKeepsIdentity(p, n, AddrText(cfg, n));
    if what.uuid != n && AddrText(cfg, what.uuid) == AddrText(cfg, n) {
      AddrTextInjective(cfg, what.uuid, n);
    }
  }

  /** In a closed network registration is always safe for the name index. */
  lemma RegisterOk(cfg: Config, n: string, d: Dir, p: NodeInfo)
    requires ValidConfig(cfg) && DirOk(cfg, n, d) && Genuine(cfg, p)
    ensures DirOk(cfg, n, Apply(n, d, Register(Some(p))))
    ensures UuidOf(p) != n ==> Apply(n, d, Register(Some(p))).online == d.online[UuidOf(p) := p]
    ensures UuidOf(p) == n ==> Apply(n, d, Register(Some(p))) == d
  {
    hide FormatNodeAddr, Exact, AddNameAddr, Listed, WF, AddrText;
    var u := UuidOf(p);
    GenuineFirstAddr(cfg, p);
    ApplyKeepsWF(n, d, Register(Some(p)));
    StepExactIff(n, d, Register(Some(p)));
    if u in d.online {
      SameUuidSameListing(cfg, n, d, p);
    } else {
      NotListedYet(cfg, n, d, p);
    }
  }

  lemma SameUuidSameListing(cfg: Config, n: string, d: Dir, p: NodeInfo)
    requires DirOk(cfg, n, d) && Genuine(cfg, p) && UuidOf(p) in d.online
    ensures SameListing(d.online[UuidOf(p)], p)
  {
    hide FormatNodeAddr, Exact;
    GenuineFirstAddr(cfg, p);
    GenuineFirstAddr(cfg, d.online[UuidOf(p)]);
  }

  lemma NotListedYet(cfg: Config, n: string, d: Dir, p: NodeInfo)
    requires ValidConfig(cfg) && DirOk(cfg, n, d) && Genuine(cfg, p) && UuidOf(p) !in d.online
    ensures FirstAddr(p).Some? && FirstAddr(p).value !in Listed(d.order, d.online, NameOf(p))
  {
    hide FormatNodeAddr, Exact, Listed;
    GenuineFirstAddr(cfg, p);
    var a := FirstAddr(p).value;
    InListed(d.order, d.online, NameOf(p), a);
    forall v | v in d.order ensures Contribution(d.online, v, NameOf(p)) != [a] {
      GenuineFirstAddr(cfg, d.online[v]);
      if AddrText(cfg, v) == AddrText(cfg, UuidOf(p)) {
        AddrTextInjective(cfg, v, UuidOf(p));
      }
    }
  }

  lemma UnregisterOk(cfg: Config, n: string, d: Dir, u: string)
    requires ValidConfig(cfg) && DirOk(cfg, n, d)
    ensures DirOk(cfg, n, Apply(n, d, Unregister(u)))
  {
    hide FormatNodeAddr, Exact, CleanNameAddr, FirstAddr, AddrText, AddrTexts;
    ApplyKeepsWF(n, d, Unregister(u));
    StepExactIff(n, d, Unregister(u));
    if u in d.online {
      GenuineFirstAddr(cfg, d.online[u]);
      forall v | v in d.online && v != u && FirstAddr(d.online[v]).Some?
        ensures FirstAddr(d.online[v]).value !in AddrTexts(d.online[u]) {
        GenuineFirstAddr(cfg, d.online[v]);
        if AddrText(cfg, v) == AddrText(cfg, u) {
          AddrTextInjective(cfg, v, u);
        }
      }
    }
  }

  lemma StatusOk(cfg: Config, n: string, d: Dir, u: string, status: NodeStatus)
    requires DirOk(cfg, n, d)
    ensures DirOk(cfg, n, Apply(n, d, SetStatus(u, status)))
  {
    hide FormatNodeAddr, Exact;
    ApplyKeepsWF(n, d, SetStatus(u, status));
    StepExactIff(n, d, SetStatus(u, status));
  }

  lemma {:induction false} RecordsGenuine(cfg: Config, n: string, d: Dir, order: seq<string>)
    requires DirOk(cfg, n, d)
    ensures forall p | p in Records(d, order) :: Genuine(cfg, p) && UuidOf(p) in d.online && UuidOf(p) in order
    ensures forall u | u in order && u in d.online :: d.online[u] in Records(d, order)
  {
    if order != [] {
      RecordsGenuine(cfg, n, d, order[..|order| - 1]);
      assert order == order[..|order| - 1] + [order[|order| - 1]];
    }
  }

  lemma {:induction false} MessagesGenuine(cfg: Config, d: Dir, order: seq<string>, n: string, about: string, info: NodeInfo)
    requires Genuine(cfg, info)
    ensures forall w | w in Messages(d, order, n, about, info) :: WorkOk(cfg, w) && w.Notify? && w.info == info
  {
    if order != [] {
      MessagesGenuine(cfg, d, order[..|order| - 1], n, about, info);
    }
  }

  lemma {:induction false} MessagesAreNotices(d: Dir, order: seq<string>, n: string, about: string, info: NodeInfo)
    ensures forall w | w in Messages(d, order, n, about, info) :: w.Notify?
  {
    if order != [] {
      MessagesAreNotices(d, order[..|order| - 1], n, about, info);
    }
  }

  lemma DirsUpdated(cfg: Config, dirs: Dirs, n: string, d: Dir)
    requires DirsOk(cfg, dirs) && n in cfg && DirOk(cfg, n, d)
    ensures DirsOk(cfg, dirs[n := d])
  {
    hide DirOk;
  }

  lemma RegisteredOk(cfg: Config, dirs: Dirs, n: string, p: NodeInfo)
    requires ValidConfig(cfg) && DirsOk(cfg, dirs) && n in cfg && Genuine(cfg, p)
    ensures DirsOk(cfg, Registered(dirs, n, p))
  {
    hide DirOk, Apply;
    RegisterOk(cfg, n, dirs[n], p);
    DirsUpdated(cfg, dirs, n, Apply(n, dirs[n], Register(Some(p))));
  }

  /** Executing a well-founded item yields well-founded items and registries. */
  lemma EffectOk(cfg: Config, dirs: Dirs, w: Work, ok: bool)
    requires ValidConfig(cfg) && DirsOk(cfg, dirs) && WorkOk(cfg, w)
    ensures var (dirs', produced) := Effect(cfg, dirs, w, ok);
            DirsOk(cfg, dirs') && AllOk(cfg, produced)
  {
    hide DirOk, ValidConfig, Genuine, GenuineNotice, Discovered, JoinInfo, AutoConnectInfo, Records, Messages, AddrText, Registered, NodeAt;
    match w
    case Hello(to, _, info) =>
      if NodeAt(cfg, to).Some? {
        NodeAtIsReal(cfg, to);
        RegisteredOk(cfg, dirs, NodeAt(cfg, to).value, info);
      }
    case HelloRegistered(n, from, info) =>
      RecordsGenuine(cfg, n, dirs[n], dirs[n].order);
      SelfGenuine(cfg, n);
      DiscoveredGenuine(cfg, info);
    case Reply(n, info) => RegisteredOk(cfg, dirs, n, info);
    case Notify(to, _) =>
      if NodeAt(cfg, to).Some? { NodeAtIsReal(cfg, to); }
    case Checked(n, info) =>
      RegisteredOk(cfg, dirs, n, info);
      DiscoveredGenuine(cfg, info);
    case Announce(_, _) =>
    case Broadcast(n, what) =>
      RebuiltGenuine(cfg, what, n);
      MessagesGenuine(cfg, dirs[n], dirs[n].order, n, what.uuid, JoinInfo(what).value);
    case AutoConnect(n, what) =>
      RebuiltGenuine(cfg, what, n);
      if AutoConnectInfo(what, n, AddrText(cfg, n)).Some? {
        RegisteredOk(cfg, dirs, n, AutoConnectInfo(what, n, AddrText(cfg, n)).value);
      }
    case Gossip(_, info) => DiscoveredGenuine(cfg, info);
  }

  lemma NodeAtIsReal(cfg: Config, text: string)
    requires NodeAt(cfg, text).Some?
    ensures NodeAt(cfg, text).value in cfg && AddrText(cfg, NodeAt(cfg, text).value) == text
  {
  }

  lemma SelfGenuine(cfg: Config, n: string)
    requires n in cfg
    ensures Genuine(cfg, SelfInfo(cfg, n)) && UuidOf(SelfInfo(cfg, n)) == n
  {
  }

  lemma ReplaceOk(cfg: Config, work: seq<Work>, i: nat, produced: seq<Work>)
    requires i < |work| && AllOk(cfg, work) && AllOk(cfg, produced)
    ensures AllOk(cfg, Replace(work, i, produced))
  {
    hide WorkOk;
  }

  /** Provenance: whatever is executed, lost, gossiped, relayed or removed, every record in any
      registry, message or half-done handler carries the identity of a real node, and every
      name index stays exact. */
  lemma NextKeepsInv(cfg: Config, s: State, e: Event)
    requires ValidConfig(cfg) && Inv(cfg, s) && Enabled(cfg, s, e)
    ensures Inv(cfg, Next(cfg, s, e))
  {
    hide DirOk, ValidConfig, Effect, WorkOk, Replace, Apply, Records;
    match e
    case Step(i, ok) =>
      EffectOk(cfg, s.dirs, s.work[i], ok);
      ReplaceOk(cfg, s.work, i, Effect(cfg, s.dirs, s.work[i], ok).1);
    case Lose(i) => ReplaceOk(cfg, s.work, i, []);
    case Handshake(from, to) => HelloOk(cfg, to, from);
    case Ask(at, whom) => GossipsOk(cfg, s.dirs, at, whom);
    case Leave(at, u) =>
      UnregisterOk(cfg, at, s.dirs[at], u);
      DirsUpdated(cfg, s.dirs, at, Apply(at, s.dirs[at], Unregister(u)));
    case Status(at, u, status) =>
      StatusOk(cfg, at, s.dirs[at], u, status);
      DirsUpdated(cfg, s.dirs, at, Apply(at, s.dirs[at], SetStatus(u, status)));
  }

  lemma HelloOk(cfg: Config, to: string, from: string)
    requires from in cfg
    ensures WorkOk(cfg, Hello(to, from, SelfInfo(cfg, from)))
  {
  }

  lemma GossipsOk(cfg: Config, dirs: Dirs, at: string, whom: string)
    requires DirsOk(cfg, dirs) && at in cfg && whom in cfg
    ensures AllOk(cfg, Gossips(at, Records(dirs[whom], dirs[whom].order)))
  {
    hide DirOk, Records, Genuine;
    RecordsGenuine(cfg, whom, dirs[whom], dirs[whom].order);
  }

  lemma InitInv(cfg: Config)
    ensures Inv(cfg, Init(cfg))
  {
    EmptyExact();
  }

  /** Identity provenance over whole runs, from any state that has it. */
  lemma {:induction false} RunKeepsInv(cfg: Config, states: seq<State>, events: seq<Event>, k: nat)
    requires ValidConfig(cfg) && IsRun(cfg, states, events) && Inv(cfg, states[0]) && k < |states|
    ensures Inv(cfg, states[k])
  {
    hide Inv, ValidConfig, Enabled, Next;
    if k > 0 {
      RunKeepsInv(cfg, states, events, k - 1);
      NextKeepsInv(cfg, states[k - 1], events[k - 1]);
    }
  }

  /** In every reachable state of a closed network, whatever a node has on record under a uuid
      is that node's own name and address, and looking a name up finds the real address of
      the longest-registered online peer of that name. */
  lemma ClosedNetworkTruthful(cfg: Config, states: seq<State>, events: seq<Event>, k: nat, n: string)
    requires ValidConfig(cfg) && IsRun(cfg, states, events) && states[0] == Init(cfg) && k < |states| && n in cfg
    ensures n in states[k].dirs
    ensures var d := states[k].dirs[n];
            && (forall u | u in d.online :: u in cfg && u != n && NameOf(d.online[u]) == cfg[u].name && FirstAddr(d.online[u]) == Some(AddrText(cfg, u)))
            && (forall name | GetAddrByName(d, name).Some? ::
                  exists u :: u in d.online && cfg[u].name == name && GetAddrByName(d, name) == Some(AddrText(cfg, u))
                              && forall v | v in d.online && cfg[v].name == name :: Before(d.order, u, v))
  {
    hide ValidConfig, Enabled, Next, FormatNodeAddr, Exact, GetAddrByName;
    InitInv(cfg);
    RunKeepsInv(cfg, states, events, k);
    var d := states[k].dirs[n];
    forall u | u in d.online ensures FirstAddr(d.online[u]) == Some(AddrText(cfg, u)) {
      GenuineFirstAddr(cfg, d.online[u]);
    }
    forall name | GetAddrByName(d, name).Some?
      ensures exists u :: u in d.online && cfg[u].name == name && GetAddrByName(d, name) == Some(AddrText(cfg, u))
                          && forall v | v in d.online && cfg[v].name == name :: Before(d.order, u, v) {
      LookupNamesake(cfg, n, d, name);
    }
  }

  ghost predicate Before(order: seq<string>, u: string, v: string) {
    exists i, j :: 0 <= i <= j < |order| && order[i] == u && order[j] == v
  }

  lemma LookupNamesake(cfg: Config, n: string, d: Dir, name: string)
    requires DirOk(cfg, n, d) && GetAddrByName(d, name).Some?
    ensures exists u :: u in d.online && cfg[u].name == name && GetAddrByName(d, name) == Some(AddrText(cfg, u))
                        && forall v | v in d.online && cfg[v].name == name :: Before(d.order, u, v)
  {
    hide Exact, FormatNodeAddr, AddrText, GetAddrByName, FirstAddr;
    var i := LookupIsLongestRegistered(n, d, name);
    var u := d.order[i];
    assert u in d.order;
    GenuineFirstAddr(cfg, d.online[u]);
    forall v | v in d.online && cfg[v].name == name ensures Before(d.order, u, v) {
      GenuineFirstAddr(cfg, d.online[v]);
      assert v in d.order;
      var j :| 0 <= j < |d.order| && d.order[j] == v;
    }
  }

  /** Re-registration never changes a name or a first address: whoever is on record before and
      after a step of the network is recorded with the same ones. */
  lemma IdentityNeverChanges(cfg: Config, s: State, e: Event, n: string, u: string)
    requires ValidConfig(cfg) && Inv(cfg, s) && Enabled(cfg, s, e)
    requires Knows(s.dirs, n, u) && Knows(Next(cfg, s, e).dirs, n, u)
    ensures SameListing(s.dirs[n].online[u], Next(cfg, s, e).dirs[n].online[u])
  {
    hide ValidConfig, Next, FormatNodeAddr, Exact;
    NextKeepsInv(cfg, s, e);
    GenuineFirstAddr(cfg, s.dirs[n].online[u]);
    GenuineFirstAddr(cfg, Next(cfg, s, e).dirs[n].online[u]);
  }
}
