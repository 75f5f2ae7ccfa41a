/** Who learns of a newcomer: with no message lost and no peer removed, once nothing about the
    newcomer is left to execute, every node reachable from the seed along the registries of
    the start has it on record. Handshakes and their answers, gossip, auto-connects and loss of
    messages that do not carry the flood may go on all the while. A node that first hears of the
    newcomer from the answer to a handshake of its own does not relay it: such nodes are `deaf`,
    and only they are excepted. */
module FloodCoverage {
  import opened Types
  import opened AddrCodec
  import opened Relay
  import opened Directory
  import opened Network

  function Subject(w: Work): string {
    match w
    case Hello(_, _, info) => UuidOf(info)
    case HelloRegistered(_, _, info) => UuidOf(info)
    case Reply(_, info) => UuidOf(info)
    case Notify(_, info) => UuidOf(info)
    case Checked(_, info) => UuidOf(info)
    case Gossip(_, info) => UuidOf(info)
    case Announce(_, what) => if what.PeerDiscovered? then what.uuid else ""
    case Broadcast(_, what) => if what.PeerDiscovered? then what.uuid else ""
    case AutoConnect(_, what) => if what.PeerDiscovered? then what.uuid else ""
  }

  /** The part of the work that carries the flood, as opposed to the side channels by which a
      node may also learn of peers without relaying them. */
  predicate Carries(w: Work, x: string) {
    Subject(w) == x && !w.Reply? && !w.Gossip? && !w.AutoConnect?
  }

  /** The items of a handler whose node is to broadcast, or has just broadcast, the newcomer. */
  predicate AtNode(w: Work) {
    w.HelloRegistered? || w.Announce? || w.Broadcast? || w.AutoConnect?
  }

  /** An addressed peer of `n` other than itself and the newcomer. */
  ghost predicate Edge(start: Dirs, x: string, n: string, m: string) {
    n in start && m in start[n].online && m != n && m != x && start[n].online[m].addrs != []
  }

  /** A handler at `n` still has to broadcast the newcomer, whether it has registered it yet or not. */
  ghost predicate Pending(work: seq<Work>, n: string, x: string) {
    exists w :: w in work && ToBroadcast(w) && w.at == n && Subject(w) == x
  }

  predicate ToBroadcast(w: Work) {
    w.HelloRegistered? || w.Checked? || w.Announce? || w.Broadcast?
  }

  /** `n` may come to record the newcomer by connecting to it, which is not a reason to broadcast. */
  ghost predicate Connecting(work: seq<Work>, n: string, x: string) {
    exists w :: w in work && w.AutoConnect? && w.at == n && Subject(w) == x
  }

  /** A message about the newcomer is on its way to `m`, or being handled there. */
  ghost predicate Reaching(cfg: Config, work: seq<Work>, m: string, x: string) {
    exists w :: w in work && Carriesto(cfg, w, m, x)
  }

  ghost predicate Carriesto(cfg: Config, w: Work, m: string, x: string) {
    Subject(w) == x && m in cfg && ((w.Notify? && w.to == AddrText(cfg, m)) || (w.Checked? && w.at == m))
  }

  ghost predicate Covered(cfg: Config, start: Dirs, dirs: Dirs, work: seq<Work>, n: string, x: string) {
    forall m | Edge(start, x, n, m) :: Knows(dirs, m, x) || Reaching(cfg, work, m, x)
  }

  ghost predicate Greeting(cfg: Config, work: seq<Work>, seed: string, x: string)
    requires seed in cfg
  {
    exists w :: w in work && w.Hello? && w.to == AddrText(cfg, seed) && Subject(w) == x
  }

  /** The handshake with the seed is on its way, or the seed has it and passes it on, deaf or not. */
  ghost predicate SeedServed(cfg: Config, start: Dirs, dirs: Dirs, work: seq<Work>, seed: string, x: string) {
    seed in cfg &&
    (Greeting(cfg, work, seed, x) || (Knows(dirs, seed, x) && (Pending(work, seed, x) || Covered(cfg, start, dirs, work, seed, x))))
  }

  ghost predicate Grown(a: Dirs, b: Dirs) {
    forall n, u | Knows(a, n, u) :: Knows(b, n, u)
  }

  ghost predicate NodesServed(cfg: Config, deaf: set<string>, start: Dirs, dirs: Dirs, work: seq<Work>, x: string) {
    forall n | n != x && n !in deaf && (Knows(dirs, n, x) || Connecting(work, n, x)) ::
      Pending(work, n, x) || Covered(cfg, start, dirs, work, n, x)
  }

  ghost predicate HandlersKnow(dirs: Dirs, work: seq<Work>, x: string) {
    forall w | w in work && w.HelloRegistered? && Subject(w) == x && w.at != x :: Knows(dirs, w.at, x)
  }

  /** The invariant of the flood of `x` started at `seed`. */
  ghost predicate FloodInv(cfg: Config, deaf: set<string>, start: Dirs, seed: string, x: string, dirs: Dirs, work: seq<Work>) {
    && SeedServed(cfg, start, dirs, work, seed, x)
    && NodesServed(cfg, deaf, start, dirs, work, x)
    && HandlersKnow(dirs, work, x)
    && Grown(start, dirs)
  }

  /** `n` knows `x`, or has a handler under way that it came by before: past the existence check, about
      to announce or broadcast, or about to connect. */
  ghost predicate HasHeard(s: State, n: string, x: string) {
    Knows(s.dirs, n, x) || Pending(s.work, n, x) || Connecting(s.work, n, x)
  }

  /** No removals, no loss of a message that carries the flood, and nobody but the deaf first hears
      of `x` from the answer to a handshake. */
  ghost predicate FloodEvent(s: State, e: Event, x: string, deaf: set<string>) {
    match e
    case Step(i, _) =>
      i < |s.work| && (Subject(s.work[i]) == x && s.work[i].Reply? ==>
                         var n := s.work[i].at; n == x || n in deaf || HasHeard(s, n, x))
    case Lose(i) => i < |s.work| && !Carries(s.work[i], x)
    case Leave(_, _) => false
    case _ => true
  }

  // ---- What executing one item leaves of the rest -------------------------------------------------

  lemma ReplaceMembers(work: seq<Work>, i: nat, produced: seq<Work>)
    requires i < |work|
    ensures forall v | v in work && v != work[i] :: v in Replace(work, i, produced)
    ensures forall v | v in produced :: v in Replace(work, i, produced)
    ensures forall v | v in Replace(work, i, produced) :: v in work || v in produced
  {
    assert work == work[..i] + [work[i]] + work[i + 1..];
  }

  /** Four kinds of item write to a registry: a greeting, a notice past its check and, if the
      connection comes about, an answer and the auto-connect subscriber. */
  ghost predicate Enters(cfg: Config, w: Work, ok: bool, n: string) {
    || (w.Hello? && NodeAt(cfg, w.to) == Some(n))
    || (w.Checked? && w.at == n)
    || (w.Reply? && w.at == n && ok)
    || (w.AutoConnect? && w.at == n && ok)
  }

  /** Who registers whom: exactly these items, their subject, at no node but theirs. */
  lemma EffectLearns(cfg: Config, dirs: Dirs, w: Work, ok: bool)
    requires ValidConfig(cfg) && DirsOk(cfg, dirs) && WorkOk(cfg, w)
    ensures var dirs' := Effect(cfg, dirs, w, ok).0;
            forall n, u :: Knows(dirs', n, u) <==> Knows(dirs, n, u) || (u == Subject(w) && u != n && Enters(cfg, w, ok, n))
  {
    hide DirOk, ValidConfig, Genuine, GenuineNotice, Discovered, JoinInfo, AutoConnectInfo, Records, Messages,
         AddrText, Registered, NodeAt, Knows;
    match w
    case Hello(to, _, info) =>
      ValidGenuine(cfg, info);
      if NodeAt(cfg, to).Some? {
        NodeAtIsReal(cfg, to);
        Learns(cfg, dirs, NodeAt(cfg, to).value, info);
      }
    case Reply(n, info) => Learns(cfg, dirs, n, info);
    case Checked(n, info) => Learns(cfg, dirs, n, info);
    case AutoConnect(n, what) =>
      RebuiltGenuine(cfg, what, n);
      if AutoConnectInfo(what, n, AddrText(cfg, n)).Some? {
        Learns(cfg, dirs, n, AutoConnectInfo(what, n, AddrText(cfg, n)).value);
      }
    case _ =>
  }

  lemma Learns(cfg: Config, dirs: Dirs, n: string, p: NodeInfo)
    requires ValidConfig(cfg) && DirsOk(cfg, dirs) && n in cfg && Genuine(cfg, p)
    ensures forall m, u :: Knows(Registered(dirs, n, p), m, u) <==>
                           Knows(dirs, m, u) || (m == n && u == UuidOf(p) && u != n)
  {
    hide DirOk, Apply;
    RegisterOk(cfg, n, dirs[n], p);
  }

  /** Who is on record after any step of the network: exactly who was before, the subject of an item
      that registers it, and not whom the step removes. */
  lemma KnowledgeExactly(cfg: Config, s: State, e: Event, n: string, u: string)
    requires ValidConfig(cfg) && Inv(cfg, s) && Enabled(cfg, s, e)
    ensures Knows(Next(cfg, s, e).dirs, n, u) <==>
            || (Knows(s.dirs, n, u) && e != Leave(n, u))
            || (e.Step? && u == Subject(s.work[e.i]) && u != n && Enters(cfg, s.work[e.i], e.ok, n))
  {
    hide DirOk, ValidConfig, WorkOk, Effect, Replace, Records, SelfInfo, Subject, Enters;
    if e.Step? {
      EffectLearns(cfg, s.dirs, s.work[e.i], e.ok);
    }
  }

  /** What is asked from outside comes about: a greeting that bears the caller's identity, every
      record of the node whose list is fetched, the status of a peer on record. */
  lemma OutsideBrings(cfg: Config, s: State, e: Event)
    requires ValidConfig(cfg) && Inv(cfg, s) && Enabled(cfg, s, e)
    ensures e.Handshake? ==> exists w :: w in Next(cfg, s, e).work && w.Hello? && w.to == e.to && Subject(w) == e.from
    ensures e.Ask? ==> forall u | Knows(s.dirs, e.whom, u) ::
                         Gossip(e.at, s.dirs[e.whom].online[u]) in Next(cfg, s, e).work && Subject(Gossip(e.at, s.dirs[e.whom].online[u])) == u
    ensures e.Handshake? || e.Ask? ==> s.work <= Next(cfg, s, e).work
    ensures e.Status? && Knows(s.dirs, e.at, e.uuid) ==> Next(cfg, s, e).dirs[e.at].online[e.uuid].status == e.status
  {
    hide ValidConfig, Genuine, Exact, Records, Replace, AddrText;
    match e
    case Handshake(from, to) =>
      SelfGenuine(cfg, from);
      assert Hello(to, from, SelfInfo(cfg, from)) in Next(cfg, s, e).work;
    case Ask(at, whom) =>
      var d := s.dirs[whom];
      RecordsGenuine(cfg, whom, d, d.order);
      forall u | u in d.online ensures Gossip(at, d.online[u]) in Next(cfg, s, e).work && UuidOf(d.online[u]) == u {
        PeersGenuine(cfg, whom, d, u);
        GossipOfEach(at, Records(d, d.order), d.online[u]);
      }
    case _ =>
  }

  lemma GossipOfEach(at: string, infos: seq<NodeInfo>, p: NodeInfo)
    requires p in infos
    ensures Gossip(at, p) in Gossips(at, infos)
  {
    var i :| 0 <= i < |infos| && infos[i] == p;
    assert Gossips(at, infos)[i] == Gossip(at, p);
  }

  /** The answer to a handshake brings back the node itself and everybody it has on record, and
      nobody else. */
  lemma AnswerExactly(cfg: Config, dirs: Dirs, n: string, from: string, info: NodeInfo, ok: bool)
    requires ValidConfig(cfg) && DirsOk(cfg, dirs) && WorkOk(cfg, HelloRegistered(n, from, info))
    ensures forall w | w in Effect(cfg, dirs, HelloRegistered(n, from, info), ok).1 && w.Reply? ::
              w.at == from && (Subject(w) == n || Knows(dirs, n, Subject(w)))
    ensures Reply(from, SelfInfo(cfg, n)) in Effect(cfg, dirs, HelloRegistered(n, from, info), ok).1
    ensures forall u | Knows(dirs, n, u) ::
              Reply(from, dirs[n].online[u]) in Effect(cfg, dirs, HelloRegistered(n, from, info), ok).1
  {
    hide ValidConfig, Genuine, Exact, Records, AddrText, Discovered;
    var d := dirs[n];
    var known := Records(d, d.order);
    RecordsGenuine(cfg, n, d, d.order);
    SelfGenuine(cfg, n);
    forall u | u in d.online ensures Reply(from, d.online[u]) in Replies(from, known) {
      PeersGenuine(cfg, n, d, u);
      ReplyOfEach(from, known, d.online[u]);
    }
  }

  lemma ReplyOfEach(from: string, infos: seq<NodeInfo>, p: NodeInfo)
    requires p in infos
    ensures Reply(from, p) in Replies(from, infos)
  {
    var i :| 0 <= i < |infos| && infos[i] == p;
    assert Replies(from, infos)[i] == Reply(from, p);
  }

  /** A broadcast reaches every initial neighbour, at its real address. */
  lemma BroadcastCovers(cfg: Config, start: Dirs, dirs: Dirs, n: string, what: Notification, ok: bool, m: string)
    requires ValidConfig(cfg) && DirsOk(cfg, dirs) && Grown(start, dirs) && WorkOk(cfg, Broadcast(n, what))
    requires Edge(start, what.uuid, n, m)
    ensures Reaching(cfg, Effect(cfg, dirs, Broadcast(n, what), ok).1, m, what.uuid)
  {
    hide DirsOk, ValidConfig, Genuine, JoinInfo, Messages, AddrText, Exact;
    DirsOkAt(cfg, dirs, n);
    RebuiltGenuine(cfg, what, n);
    assert Knows(start, n, m) && Knows(dirs, n, m);
    var d := dirs[n];
    GenuineFirstAddr(cfg, d.online[m]) by { PeersGenuine(cfg, n, d, m); }
    PeersGenuine(cfg, n, d, m);
    MessagesReach(d, d.order, n, what.uuid, JoinInfo(what).value, m);
    var msg := Notify(AddrText(cfg, m), JoinInfo(what).value);
    assert Carriesto(cfg, msg, m, what.uuid);
  }

  lemma DirsOkAt(cfg: Config, dirs: Dirs, n: string)
    requires DirsOk(cfg, dirs) && n in cfg
    ensures n in dirs && DirOk(cfg, n, dirs[n]) && dirs.Keys == cfg.Keys
  {
  }

  lemma PeersGenuine(cfg: Config, n: string, d: Dir, m: string)
    requires DirOk(cfg, n, d) && m in d.online
    ensures Genuine(cfg, d.online[m]) && UuidOf(d.online[m]) == m && m in d.order && m in cfg
  {
    hide Exact;
  }

  lemma {:induction false} MessagesReach(d: Dir, order: seq<string>, n: string, about: string, info: NodeInfo, m: string)
    requires m in order && m in d.online && m != n && m != about && FirstAddr(d.online[m]).Some?
    ensures Notify(FirstAddr(d.online[m]).value, info) in Messages(d, order, n, about, info)
  {
    var last := |order| - 1;
    if order[last] != m {
      assert order == order[..last] + [order[last]];
      MessagesReach(d, order[..last], n, about, info, m);
    }
  }

  /** Replying to a handshake announces the newcomer, since it is on record by then. */
  lemma AnswerAnnounces(cfg: Config, dirs: Dirs, n: string, from: string, info: NodeInfo, ok: bool)
    requires ValidConfig(cfg) && DirsOk(cfg, dirs) && WorkOk(cfg, HelloRegistered(n, from, info)) && Knows(dirs, n, UuidOf(info))
    ensures Announce(n, Discovered(info)) in Effect(cfg, dirs, HelloRegistered(n, from, info), ok).1
    ensures Subject(Announce(n, Discovered(info))) == UuidOf(info)
  {
    hide DirOk, ValidConfig, Genuine, Discovered, Records, AddrText;
    RecordsGenuine(cfg, n, dirs[n], dirs[n].order);
    PeersGenuine(cfg, n, dirs[n], UuidOf(info));
    DiscoveredGenuine(cfg, info);
  }

  lemma CheckedAnnounces(cfg: Config, dirs: Dirs, n: string, info: NodeInfo, ok: bool)
    requires ValidConfig(cfg) && dirs.Keys == cfg.Keys && WorkOk(cfg, Checked(n, info))
    ensures Announce(n, Discovered(info)) in Effect(cfg, dirs, Checked(n, info), ok).1
    ensures Subject(Announce(n, Discovered(info))) == UuidOf(info)
  {
    hide ValidConfig, Genuine, Discovered, Registered;
    DiscoveredGenuine(cfg, info);
  }

  // ---- The invariant over one step -----------------------------------------------------------------

  lemma StillPending(cfg: Config, deaf: set<string>, start: Dirs, s: State, i: nat, ok: bool, x: string, n: string)
    requires ValidConfig(cfg) && Inv(cfg, s) && i < |s.work| && FloodEvent(s, Step(i, ok), x, deaf)
    requires Grown(start, s.dirs) && HandlersKnow(s.dirs, s.work, x) && n != x && Pending(s.work, n, x)
    ensures var (dirs', produced) := Effect(cfg, s.dirs, s.work[i], ok);
            var work' := Replace(s.work, i, produced);
            Pending(work', n, x) || Covered(cfg, start, dirs', work', n, x)
  {
    hide DirOk, ValidConfig, WorkOk, Replace, AddrText, Records, Knows, Covered, Reaching, Edge, Messages, JoinInfo, Discovered;
    var w := s.work[i];
    assert WorkOk(cfg, w);
    var (dirs', produced) := Effect(cfg, s.dirs, w, ok);
    var work' := Replace(s.work, i, produced);
    ReplaceMembers(s.work, i, produced);
    var v :| v in s.work && ToBroadcast(v) && v.at == n && Subject(v) == x;
    if v == w {
      match w
      case HelloRegistered(_, from, info) =>
        AnswerAnnounces(cfg, s.dirs, n, from, info, ok);
        assert Announce(n, Discovered(info)) in work';
      case Announce(_, what) =>
        assert Broadcast(n, what) in produced;
        assert Broadcast(n, what) in work';
      case Checked(_, info) =>
        CheckedAnnounces(cfg, s.dirs, n, info, ok);
        assert Announce(n, Discovered(info)) in work';
      case Broadcast(_, what) => BroadcastCoversAll(cfg, start, s, i, ok, x, n);
    } else {
      assert v in work';
    }
  }

  lemma BroadcastCoversAll(cfg: Config, start: Dirs, s: State, i: nat, ok: bool, x: string, n: string)
    requires ValidConfig(cfg) && Inv(cfg, s) && i < |s.work| && Grown(start, s.dirs)
    requires s.work[i].Broadcast? && s.work[i].at == n && Subject(s.work[i]) == x
    ensures var (dirs', produced) := Effect(cfg, s.dirs, s.work[i], ok);
            Covered(cfg, start, dirs', Replace(s.work, i, produced), n, x)
  {
    hide DirOk, ValidConfig, Replace, Messages, JoinInfo, Effect, Carriesto, Grown;
    var w := s.work[i];
    assert WorkOk(cfg, w);
    var (dirs', produced) := Effect(cfg, s.dirs, w, ok);
    ReplaceMembers(s.work, i, produced);
    forall m | Edge(start, x, n, m) ensures Reaching(cfg, Replace(s.work, i, produced), m, x) {
      BroadcastCovers(cfg, start, s.dirs, n, w.what, ok, m);
    }
  }

  lemma StillCovered(cfg: Config, deaf: set<string>, start: Dirs, s: State, i: nat, ok: bool, x: string, n: string)
    requires ValidConfig(cfg) && Inv(cfg, s) && i < |s.work| && FloodEvent(s, Step(i, ok), x, deaf)
    requires Covered(cfg, start, s.dirs, s.work, n, x)
    ensures var (dirs', produced) := Effect(cfg, s.dirs, s.work[i], ok);
            Covered(cfg, start, dirs', Replace(s.work, i, produced), n, x)
  {
    hide DirOk, ValidConfig, WorkOk, Replace, AddrText, Effect, Knows, Carriesto;
    var w := s.work[i];
    assert WorkOk(cfg, w);
    var (dirs', produced) := Effect(cfg, s.dirs, w, ok);
    var work' := Replace(s.work, i, produced);
    ReplaceMembers(s.work, i, produced);
    EffectLearns(cfg, s.dirs, w, ok);
    forall m | Edge(start, x, n, m) ensures Knows(dirs', m, x) || Reaching(cfg, work', m, x) {
      if !Knows(s.dirs, m, x) {
        var v :| v in s.work && Carriesto(cfg, v, m, x);
        if v == w {
          Arrives(cfg, s.dirs, w, ok, m, x);
        }
      }
    }
  }

  /** Executing a message that reaches `m`, or its handler there, makes `m` know or move on. */
  lemma Arrives(cfg: Config, dirs: Dirs, w: Work, ok: bool, m: string, x: string)
    requires ValidConfig(cfg) && DirsOk(cfg, dirs) && WorkOk(cfg, w) && Carriesto(cfg, w, m, x) && m != x
    ensures var (dirs', produced) := Effect(cfg, dirs, w, ok);
            Knows(dirs', m, x) || Reaching(cfg, produced, m, x)
  {
    hide DirOk, ValidConfig, AddrText, Registered, NodeAt, Discovered;
    if w.Notify? {
      NodeAtOwnAddress(cfg, m);
      ValidGenuine(cfg, w.info);
      var (dirs', produced) := Effect(cfg, dirs, w, ok);
      if !Knows(dirs, m, x) {
        assert produced == [Checked(m, w.info)];
        assert Carriesto(cfg, Checked(m, w.info), m, x);
      }
    } else {
      Learns(cfg, dirs, m, w.info);
    }
  }

  lemma ValidGenuine(cfg: Config, p: NodeInfo)
    requires ValidConfig(cfg) && Genuine(cfg, p)
    ensures ValidPeer(Some(p))
  {
  }

  /** A node that learns of the newcomer otherwise than by connecting to it, or that is to connect
      to it from now on, has a handler about to broadcast it. */
  lemma NewlyPending(cfg: Config, deaf: set<string>, s: State, i: nat, ok: bool, x: string, n: string)
    requires ValidConfig(cfg) && Inv(cfg, s) && i < |s.work| && FloodEvent(s, Step(i, ok), x, deaf)
    requires !HasHeard(s, n, x) && n !in deaf
    ensures var (dirs', produced) := Effect(cfg, s.dirs, s.work[i], ok);
            var work' := Replace(s.work, i, produced);
            Knows(dirs', n, x) || Connecting(work', n, x) ==> Pending(work', n, x)
  {
    hide DirOk, ValidConfig, Replace, AddrText, Knows, Effect, WorkOk;
    var w := s.work[i];
    assert WorkOk(cfg, w);
    EffectLearns(cfg, s.dirs, w, ok);
    var (dirs', produced) := Effect(cfg, s.dirs, w, ok);
    ReplaceMembers(s.work, i, produced);
    if Knows(dirs', n, x) {
      NewlyKnown(cfg, s.dirs, w, ok, x, n);
    } else if Connecting(Replace(s.work, i, produced), n, x) {
      var v :| v in Replace(s.work, i, produced) && v.AutoConnect? && v.at == n && Subject(v) == x;
      OnlyAnnounceConnects(cfg, s.dirs, w, ok, v);
    }
  }

  lemma NewlyKnown(cfg: Config, dirs: Dirs, w: Work, ok: bool, x: string, n: string)
    requires ValidConfig(cfg) && DirsOk(cfg, dirs) && WorkOk(cfg, w) && Subject(w) == x
    requires !Knows(dirs, n, x) && Knows(Effect(cfg, dirs, w, ok).0, n, x)
    requires (w.Hello? && NodeAt(cfg, w.to) == Some(n)) || (w.Checked? && w.at == n)
    ensures Pending(Effect(cfg, dirs, w, ok).1, n, x)
  {
    hide DirOk, ValidConfig, Genuine, AddrText, Registered, Knows, NodeAt, Discovered;
    var produced := Effect(cfg, dirs, w, ok).1;
    if w.Hello? {
      ValidGenuine(cfg, w.info);
      assert HelloRegistered(n, w.from, w.info) in produced;
    } else {
      DiscoveredGenuine(cfg, w.info);
      assert Announce(n, Discovered(w.info)) in produced;
    }
  }

  lemma OnlyAnnounceConnects(cfg: Config, dirs: Dirs, w: Work, ok: bool, v: Work)
    requires dirs.Keys == cfg.Keys && v in Effect(cfg, dirs, w, ok).1 && v.AutoConnect?
    ensures w.Announce? && Broadcast(v.at, v.what) in Effect(cfg, dirs, w, ok).1
  {
    hide AddrText, Registered, NodeAt, Discovered, JoinInfo, Records, Messages;
    if w.Broadcast? && w.at in cfg && w.what.PeerDiscovered? && JoinInfo(w.what).Some? {
      MessagesAreNotices(dirs[w.at], dirs[w.at].order, w.at, w.what.uuid, JoinInfo(w.what).value);
    }
  }

  lemma SeedStillServed(cfg: Config, deaf: set<string>, start: Dirs, s: State, i: nat, ok: bool, seed: string, x: string)
    requires ValidConfig(cfg) && Inv(cfg, s) && i < |s.work| && FloodEvent(s, Step(i, ok), x, deaf) && seed != x
    requires FloodInv(cfg, deaf, start, seed, x, s.dirs, s.work)
    ensures var (dirs', produced) := Effect(cfg, s.dirs, s.work[i], ok);
            SeedServed(cfg, start, dirs', Replace(s.work, i, produced), seed, x)
  {
    hide DirOk, ValidConfig, Replace, AddrText, Knows, WorkOk, Effect, Covered, Pending;
    var w := s.work[i];
    assert WorkOk(cfg, w);
    var (dirs', produced) := Effect(cfg, s.dirs, w, ok);
    ReplaceMembers(s.work, i, produced);
    EffectLearns(cfg, s.dirs, w, ok);
    if Greeting(cfg, s.work, seed, x) {
      var v :| v in s.work && v.Hello? && v.to == AddrText(cfg, seed) && Subject(v) == x;
      if v == w {
        HelloRegisters(cfg, s.dirs, w, ok, seed, x);
        PendingSurvives(produced, Replace(s.work, i, produced), seed, x);
      } else {
        assert v in Replace(s.work, i, produced);
      }
    } else if Pending(s.work, seed, x) {
      StillPending(cfg, deaf, start, s, i, ok, x, seed);
    } else {
      StillCovered(cfg, deaf, start, s, i, ok, x, seed);
    }
  }

  lemma PendingSurvives(part: seq<Work>, work: seq<Work>, n: string, x: string)
    requires Pending(part, n, x) && forall v | v in part :: v in work
    ensures Pending(work, n, x)
  {
  }

  lemma HelloRegisters(cfg: Config, dirs: Dirs, w: Work, ok: bool, seed: string, x: string)
    requires ValidConfig(cfg) && DirsOk(cfg, dirs) && WorkOk(cfg, w) && w.Hello?
    requires seed in cfg && w.to == AddrText(cfg, seed) && Subject(w) == x && seed != x
    ensures Knows(Effect(cfg, dirs, w, ok).0, seed, x) && Pending(Effect(cfg, dirs, w, ok).1, seed, x)
  {
    hide DirOk, ValidConfig, AddrText, Registered, NodeAt;
    NodeAtOwnAddress(cfg, seed);
    ValidGenuine(cfg, w.info);
    assert HelloRegistered(seed, w.from, w.info) in Effect(cfg, dirs, w, ok).1;
    Learns(cfg, dirs, seed, w.info);
  }

  lemma HandlersStillKnow(cfg: Config, s: State, i: nat, ok: bool, x: string)
    requires ValidConfig(cfg) && Inv(cfg, s) && i < |s.work| && HandlersKnow(s.dirs, s.work, x)
    ensures var (dirs', produced) := Effect(cfg, s.dirs, s.work[i], ok);
            HandlersKnow(dirs', Replace(s.work, i, produced), x)
  {
    hide DirOk, ValidConfig, Replace, Knows, WorkOk, Effect;
    var w := s.work[i];
    assert WorkOk(cfg, w);
    var (dirs', produced) := Effect(cfg, s.dirs, w, ok);
    ReplaceMembers(s.work, i, produced);
    EffectLearns(cfg, s.dirs, w, ok);
    GreetedKnows(cfg, s.dirs, w, ok);
  }

  lemma GreetedKnows(cfg: Config, dirs: Dirs, w: Work, ok: bool)
    requires ValidConfig(cfg) && DirsOk(cfg, dirs) && WorkOk(cfg, w)
    ensures var (dirs', produced) := Effect(cfg, dirs, w, ok);
            forall v | v in produced && v.HelloRegistered? && Subject(v) != v.at :: Knows(dirs', v.at, Subject(v))
  {
    hide DirOk, ValidConfig, AddrText, Registered, NodeAt, Knows, Genuine, Discovered, JoinInfo, Records, Messages;
    if w.Hello? && NodeAt(cfg, w.to).Some? {
      NodeAtIsReal(cfg, w.to);
      Learns(cfg, dirs, NodeAt(cfg, w.to).value, w.info);
    } else if w.Broadcast? && w.at in cfg && w.what.PeerDiscovered? && JoinInfo(w.what).Some? {
      MessagesAreNotices(dirs[w.at], dirs[w.at].order, w.at, w.what.uuid, JoinInfo(w.what).value);
    }
  }

  lemma StepKeepsFlood(cfg: Config, deaf: set<string>, start: Dirs, seed: string, s: State, i: nat, ok: bool, x: string)
    requires ValidConfig(cfg) && Inv(cfg, s) && i < |s.work| && FloodEvent(s, Step(i, ok), x, deaf) && seed != x
    requires FloodInv(cfg, deaf, start, seed, x, s.dirs, s.work)
    ensures var (dirs', produced) := Effect(cfg, s.dirs, s.work[i], ok);
            FloodInv(cfg, deaf, start, seed, x, dirs', Replace(s.work, i, produced))
  {
    hide DirOk, ValidConfig, Replace, Knows, WorkOk, Effect, SeedServed, HandlersKnow, Pending, Covered, Connecting;
    assert WorkOk(cfg, s.work[i]);
    var (dirs', produced) := Effect(cfg, s.dirs, s.work[i], ok);
    var work' := Replace(s.work, i, produced);
    SeedStillServed(cfg, deaf, start, s, i, ok, seed, x);
    HandlersStillKnow(cfg, s, i, ok, x);
    EffectLearns(cfg, s.dirs, s.work[i], ok);
    forall n | n != x && n !in deaf && (Knows(dirs', n, x) || Connecting(work', n, x))
      ensures Pending(work', n, x) || Covered(cfg, start, dirs', work', n, x) {
      if Pending(s.work, n, x) {
        StillPending(cfg, deaf, start, s, i, ok, x, n);
      } else if !HasHeard(s, n, x) {
        NewlyPending(cfg, deaf, s, i, ok, x, n);
      } else {
        StillCovered(cfg, deaf, start, s, i, ok, x, n);
      }
    }
  }

  /** More work, or other work lost, never hurts the invariant. */
  lemma WorkChangeKeepsFlood(cfg: Config, deaf: set<string>, start: Dirs, seed: string, x: string, dirs: Dirs, work: seq<Work>, work': seq<Work>)
    requires FloodInv(cfg, deaf, start, seed, x, dirs, work)
    requires forall w | w in work && Carries(w, x) :: w in work'
    requires forall w | w in work' && AtNode(w) && Subject(w) == x :: w in work
    ensures FloodInv(cfg, deaf, start, seed, x, dirs, work')
  {
    hide Knows, AddrText, Edge;
    forall n | Pending(work, n, x) ensures Pending(work', n, x) {
      var w :| w in work && ToBroadcast(w) && w.at == n && Subject(w) == x;
      assert Carries(w, x);
    }
    forall n | Connecting(work', n, x) ensures Connecting(work, n, x) {
    }
    forall n, m | Covered(cfg, start, dirs, work, n, x) && Edge(start, x, n, m)
      ensures Knows(dirs, m, x) || Reaching(cfg, work', m, x) {
      if !Knows(dirs, m, x) {
        var w :| w in work && Carriesto(cfg, w, m, x);
        assert Carries(w, x) && w in work';
      }
    }
    forall n | Covered(cfg, start, dirs, work, n, x) ensures Covered(cfg, start, dirs, work', n, x) {
    }
  }

  /** Knowledge is all the invariant asks of the registries. */
  lemma SameKnowledgeKeepsFlood(cfg: Config, deaf: set<string>, start: Dirs, seed: string, x: string, dirs: Dirs, dirs': Dirs, work: seq<Work>)
    requires FloodInv(cfg, deaf, start, seed, x, dirs, work)
    requires forall n, u :: Knows(dirs, n, u) == Knows(dirs', n, u)
    ensures FloodInv(cfg, deaf, start, seed, x, dirs', work)
  {
    hide Knows, Pending, Reaching, AddrText;
    forall n | n != x && n !in deaf && (Knows(dirs', n, x) || Connecting(work, n, x))
      ensures Pending(work, n, x) || Covered(cfg, start, dirs', work, n, x) {
      assert Knows(dirs, n, x) || Connecting(work, n, x);
      if Covered(cfg, start, dirs, work, n, x) {
        forall m | Edge(start, x, n, m) ensures Knows(dirs', m, x) || Reaching(cfg, work, m, x) {
          assert Knows(dirs, m, x) || Reaching(cfg, work, m, x);
        }
      }
    }
  }

  /** The invariant of the flood survives every event the hypotheses allow. */
  lemma NextKeepsFlood(cfg: Config, deaf: set<string>, start: Dirs, seed: string, s: State, e: Event, x: string)
    requires ValidConfig(cfg) && Inv(cfg, s) && Enabled(cfg, s, e) && FloodEvent(s, e, x, deaf) && seed != x
    requires FloodInv(cfg, deaf, start, seed, x, s.dirs, s.work)
    ensures FloodInv(cfg, deaf, start, seed, x, Next(cfg, s, e).dirs, Next(cfg, s, e).work)
  {
    hide FloodInv, ValidConfig, Effect, Records, DirOk;
    match e
    case Step(i, ok) => StepKeepsFlood(cfg, deaf, start, seed, s, i, ok, x);
    case Lose(i) =>
      ReplaceMembers(s.work, i, []);
      WorkChangeKeepsFlood(cfg, deaf, start, seed, x, s.dirs, s.work, Replace(s.work, i, []));
    case Handshake(from, to) =>
      WorkChangeKeepsFlood(cfg, deaf, start, seed, x, s.dirs, s.work, s.work + [Hello(to, from, SelfInfo(cfg, from))]);
    case Ask(at, whom) =>
      var more := Gossips(at, Records(s.dirs[whom], s.dirs[whom].order));
      WorkChangeKeepsFlood(cfg, deaf, start, seed, x, s.dirs, s.work, s.work + more);
    case Status(at, u, status) =>
      SameKnowledgeKeepsFlood(cfg, deaf, start, seed, x, s.dirs, Next(cfg, s, e).dirs, s.work);
  }

  lemma {:induction false} RunKeepsFlood(cfg: Config, deaf: set<string>, seed: string, x: string, states: seq<State>, events: seq<Event>, k: nat)
    requires ValidConfig(cfg) && IsRun(cfg, states, events) && Inv(cfg, states[0]) && seed != x
    requires forall i | 0 <= i < |events| :: FloodEvent(states[i], events[i], x, deaf)
    requires FloodInv(cfg, deaf, states[0].dirs, seed, x, states[0].dirs, states[0].work) && k < |states|
    ensures FloodInv(cfg, deaf, states[0].dirs, seed, x, states[k].dirs, states[k].work)
  {
    hide FloodInv, ValidConfig, Inv, FloodEvent, Enabled, Next;
    if k > 0 {
      RunKeepsFlood(cfg, deaf, seed, x, states, events, k - 1);
      RunKeepsInv(cfg, states, events, k - 1);
      NextKeepsFlood(cfg, deaf, states[0].dirs, seed, states[k - 1], events[k - 1], x);
    }
  }

  // ---- The theorem ------------------------------------------------------------------------------

  /** A path of initial registry edges from the seed, clear of the newcomer. */
  ghost predicate Path(start: Dirs, x: string, path: seq<string>) {
    path != [] && forall i | 0 <= i < |path| - 1 :: Edge(start, x, path[i], path[i + 1])
  }

  /** Every node between the seed and the end of the path, having to pass the newcomer on, hears of
      it from the flood. */
  predicate Relays(deaf: set<string>, path: seq<string>) {
    forall i | 0 < i < |path| - 1 :: path[i] !in deaf
  }

  /** Nobody has heard of `x` yet, but its handshake request to the seed is on its way. */
  ghost predicate FloodStart(cfg: Config, s: State, seed: string, x: string) {
    && (forall n :: !Knows(s.dirs, n, x))
    && (forall w | w in s.work && Subject(w) == x :: w.Hello?)
    && seed in cfg && Greeting(cfg, s.work, seed, x)
  }

  ghost predicate Quiescent(s: State, x: string) {
    forall w | w in s.work :: !Carries(w, x)
  }

  lemma StartInv(cfg: Config, deaf: set<string>, s: State, seed: string, x: string)
    requires FloodStart(cfg, s, seed, x)
    ensures FloodInv(cfg, deaf, s.dirs, seed, x, s.dirs, s.work)
  {
    hide Knows, AddrText;
  }

  lemma NotX(start: Dirs, x: string, path: seq<string>, i: nat)
    requires i < |path| && Path(start, x, path) && path[0] != x
    ensures path[i] != x
  {
    if i > 0 {
      assert Edge(start, x, path[i - 1], path[i]);
    }
  }

  lemma {:induction false} AlongPath(cfg: Config, deaf: set<string>, start: Dirs, seed: string, x: string, s: State, path: seq<string>)
    requires FloodInv(cfg, deaf, start, seed, x, s.dirs, s.work) && Quiescent(s, x) && seed != x
    requires Path(start, x, path) && path[0] == seed && Relays(deaf, path)
    ensures Knows(s.dirs, path[|path| - 1], x)
  {
    hide Knows, Edge, AddrText;
    var last := |path| - 1;
    if last > 0 {
      var front := path[..last];
      forall i | 0 <= i < |front| - 1 ensures Edge(start, x, front[i], front[i + 1]) {
        assert Edge(start, x, path[i], path[i + 1]);
      }
      AlongPath(cfg, deaf, start, seed, x, s, front);
      assert Edge(start, x, path[last - 1], path[last]);
      NotX(start, x, path, last - 1);
    }
  }

  /** Coverage: however the handlers interleave, when nothing carries `x` any more, every node
      on a path of initial registry edges from the seed has `x` on record, provided those in
      between, which have to pass it on, did not first hear of it from an answer to a handshake. */
  lemma FloodCovers(cfg: Config, deaf: set<string>, seed: string, x: string, states: seq<State>, events: seq<Event>, path: seq<string>)
    requires ValidConfig(cfg) && IsRun(cfg, states, events) && Inv(cfg, states[0]) && seed != x
    requires FloodStart(cfg, states[0], seed, x)
    requires forall i | 0 <= i < |events| :: FloodEvent(states[i], events[i], x, deaf)
    requires Quiescent(states[|events|], x)
    requires Path(states[0].dirs, x, path) && path[0] == seed && Relays(deaf, path)
    ensures Knows(states[|events|].dirs, path[|path| - 1], x)
  {
    hide FloodInv, ValidConfig, Inv, FloodEvent, Enabled, Next, FloodStart, Quiescent, Path, Relays;
    StartInv(cfg, deaf, states[0], seed, x);
    RunKeepsFlood(cfg, deaf, seed, x, states, events, |events|);
    AlongPath(cfg, deaf, states[0].dirs, seed, x, states[|events|], path);
  }
}
