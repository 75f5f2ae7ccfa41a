/** Who broadcasts a newcomer, and how often: exact accounts over every run, handlers interleaving at
    lock boundaries or not, and the exact condition under which a node broadcasts a newcomer once. */
module FloodAccounts {
  import opened Types
  import opened Relay
  import opened Directory
  import opened Network
  import opened FloodTermination
  import opened FloodCoverage

  // ---- Counting -----------------------------------------------------------------------------------------

  /** How many of the first `k` events of a run are of a certain kind. */
  ghost function Count(kind: (State, Event) -> bool, states: seq<State>, events: seq<Event>, k: nat): nat
    requires k <= |events| < |states|
  {
    if k == 0 then 0
    else Count(kind, states, events, k - 1) + (if kind(states[k - 1], events[k - 1]) then 1 else 0)
  }

  lemma {:induction false} CountGrows(kind: (State, Event) -> bool, states: seq<State>, events: seq<Event>, j: nat, k: nat)
    requires j <= k <= |events| < |states|
    ensures Count(kind, states, events, j) <= Count(kind, states, events, k)
    ensures forall i | j <= i < k && kind(states[i], events[i]) :: Count(kind, states, events, j) < Count(kind, states, events, k)
  {
    if j < k {
      CountGrows(kind, states, events, j, k - 1);
    }
  }

  /** One node, or all of them. */
  predicate Concerns(whose: Option<string>, n: string) {
    whose.None? || whose.value == n
  }

  /** A handler past the existence check that has not broadcast `x` yet. */
  predicate Owing(w: Work, whose: Option<string>, x: string) {
    (w.Checked? || w.Announce? || w.Broadcast?) && Subject(w) == x && Concerns(whose, w.at)
  }

  function Owes(whose: Option<string>, x: string): Work -> nat {
    w => if Owing(w, whose, x) then 1 else 0
  }

  predicate CastsItem(cfg: Config, w: Work, whose: Option<string>, x: string) {
    Casting(cfg, w) && Subject(w) == x && Concerns(whose, w.at)
  }

  /** A notice about `x` that passes the existence check where it arrives. */
  ghost predicate PassesItem(cfg: Config, dirs: Dirs, w: Work, whose: Option<string>, x: string) {
    w.Notify? && Subject(w) == x && NodeAt(cfg, w.to).Some? &&
    var n := NodeAt(cfg, w.to).value;
    Concerns(whose, n) && n != x && !Knows(dirs, n, x)
  }

  /** A node is asked to broadcast `x`: by a handshake of `x`, once anybody is on record there, or by a
      gossiped record of `x` that is news to it. */
  ghost predicate AsksItem(dirs: Dirs, w: Work, whose: Option<string>, x: string) {
    Subject(w) == x && (w.HelloRegistered? || w.Gossip?) && Concerns(whose, w.at)
    && (if w.HelloRegistered? then w.at in dirs && dirs[w.at].online != map[] else w.at != x && !Knows(dirs, w.at, x))
  }

  ghost function Casts(cfg: Config, whose: Option<string>, x: string): (State, Event) -> bool {
    (s: State, e: Event) => e.Step? && e.i < |s.work| && CastsItem(cfg, s.work[e.i], whose, x)
  }

  ghost function Passes(cfg: Config, whose: Option<string>, x: string): (State, Event) -> bool {
    (s: State, e: Event) => e.Step? && e.i < |s.work| && PassesItem(cfg, s.dirs, s.work[e.i], whose, x)
  }

  ghost function Asks(whose: Option<string>, x: string): (State, Event) -> bool {
    (s: State, e: Event) => e.Step? && e.i < |s.work| && AsksItem(s.dirs, s.work[e.i], whose, x)
  }

  function One(b: bool): nat {
    if b then 1 else 0
  }

  // ---- One step ----------------------------------------------------------------------------------------

  lemma NobodyListed(cfg: Config, n: string, d: Dir)
    requires DirOk(cfg, n, d)
    ensures Records(d, d.order) == [] <==> d.online == map[]
  {
    hide Records, Exact, Genuine;
    RecordsGenuine(cfg, n, d, d.order);
    if Records(d, d.order) != [] {
      assert Records(d, d.order)[0] in Records(d, d.order);
    }
    if u :| u in d.online {
      assert u in d.order;
    }
  }

  lemma AnswerOwes(cfg: Config, dirs: Dirs, w: Work, ok: bool, whose: Option<string>, x: string)
    requires ValidConfig(cfg) && DirsOk(cfg, dirs) && WorkOk(cfg, w) && w.HelloRegistered?
    ensures Total(Owes(whose, x), Effect(cfg, dirs, w, ok).1) == One(AsksItem(dirs, w, whose, x))
  {
    hide DirOk, ValidConfig, Genuine, Records, Discovered, SelfInfo;
    NobodyListed(cfg, w.at, dirs[w.at]);
    DiscoveredGenuine(cfg, w.info);
    var known := Records(dirs[w.at], dirs[w.at].order);
    var replies := [Reply(w.from, SelfInfo(cfg, w.at))] + Replies(w.from, known);
    TotalZero(Owes(whose, x), replies);
    if known != [] {
      var a := Announce(w.at, Discovered(w.info));
      TotalConcat(Owes(whose, x), replies, [a]);
      TotalOne(Owes(whose, x), a);
      assert Effect(cfg, dirs, w, ok).1 == replies + [a];
    } else {
      assert Effect(cfg, dirs, w, ok).1 == replies;
    }
  }

  lemma BroadcastOwes(cfg: Config, dirs: Dirs, w: Work, ok: bool, whose: Option<string>, x: string)
    requires ValidConfig(cfg) && dirs.Keys == cfg.Keys && WorkOk(cfg, w) && w.Broadcast?
    ensures Casting(cfg, w) && Total(Owes(whose, x), Effect(cfg, dirs, w, ok).1) == 0
  {
    hide ValidConfig, Genuine, JoinInfo, Messages, AddrText;
    RebuiltGenuine(cfg, w.what, w.at);
    MessagesAreNotices(dirs[w.at], dirs[w.at].order, w.at, w.what.uuid, JoinInfo(w.what).value);
    TotalZero(Owes(whose, x), Effect(cfg, dirs, w, ok).1);
  }

  lemma NoticeOwes(cfg: Config, dirs: Dirs, w: Work, ok: bool, whose: Option<string>, x: string)
    requires ValidConfig(cfg) && dirs.Keys == cfg.Keys && WorkOk(cfg, w) && w.Notify?
    ensures Effect(cfg, dirs, w, ok).0 == dirs
    ensures PassesItem(cfg, dirs, w, None, Subject(w)) ==> Effect(cfg, dirs, w, ok).1 == [Checked(NodeAt(cfg, w.to).value, w.info)]
    ensures !PassesItem(cfg, dirs, w, None, Subject(w)) ==> Effect(cfg, dirs, w, ok).1 == []
    ensures Total(Owes(whose, x), Effect(cfg, dirs, w, ok).1) == One(PassesItem(cfg, dirs, w, whose, x))
  {
    hide ValidConfig, AddrText, NodeAt, Genuine;
    ValidGenuine(cfg, w.info);
    if NodeAt(cfg, w.to).Some? {
      NodeAtIsReal(cfg, w.to);
      TotalOne(Owes(whose, x), Checked(NodeAt(cfg, w.to).value, w.info));
    }
  }

  lemma AnnounceOwes(n: string, what: Notification, whose: Option<string>, x: string)
    ensures Total(Owes(whose, x), [Broadcast(n, what), AutoConnect(n, what)]) == Owes(whose, x)(Announce(n, what))
  {
    var b, a := Broadcast(n, what), AutoConnect(n, what);
    assert [b, a] == [b] + [a];
    TotalConcat(Owes(whose, x), [b], [a]);
    TotalOne(Owes(whose, x), b);
    TotalOne(Owes(whose, x), a);
  }

  /** What an item owes, with what it is given to owe, is what it pays or passes on. */
  lemma ItemAccount(cfg: Config, dirs: Dirs, w: Work, ok: bool, whose: Option<string>, x: string)
    requires ValidConfig(cfg) && DirsOk(cfg, dirs) && WorkOk(cfg, w)
    ensures One(CastsItem(cfg, w, whose, x)) + Total(Owes(whose, x), Effect(cfg, dirs, w, ok).1) ==
            Owes(whose, x)(w) + One(PassesItem(cfg, dirs, w, whose, x)) + One(AsksItem(dirs, w, whose, x))
  {
    hide DirOk, ValidConfig, AddrText, NodeAt, Genuine, Registered, Discovered, JoinInfo, AutoConnectInfo, Records, Messages, Knows, Total;
    match w
    case Hello(to, from, info) =>
      if NodeAt(cfg, to).Some? { TotalOne(Owes(whose, x), HelloRegistered(NodeAt(cfg, to).value, from, info)); }
      TotalNone(Owes(whose, x));
    case HelloRegistered(_, _, _) => AnswerOwes(cfg, dirs, w, ok, whose, x);
    case Reply(_, _) => TotalNone(Owes(whose, x));
    case Notify(_, _) => NoticeOwes(cfg, dirs, w, ok, whose, x);
    case Checked(n, info) =>
      DiscoveredGenuine(cfg, info);
      TotalOne(Owes(whose, x), Announce(n, Discovered(info)));
    case Announce(n, what) => AnnounceOwes(n, what, whose, x);
    case Broadcast(_, _) => BroadcastOwes(cfg, dirs, w, ok, whose, x);
    case AutoConnect(_, _) => TotalNone(Owes(whose, x));
    case Gossip(n, info) => GossipOwes(cfg, dirs, w, ok, whose, x);
  }

  lemma GossipOwes(cfg: Config, dirs: Dirs, w: Work, ok: bool, whose: Option<string>, x: string)
    requires ValidConfig(cfg) && DirsOk(cfg, dirs) && WorkOk(cfg, w) && w.Gossip?
    ensures Effect(cfg, dirs, w, ok) == (dirs, if AsksItem(dirs, w, None, Subject(w)) then [Announce(w.at, Discovered(w.info))] else [])
    ensures Total(Owes(whose, x), Effect(cfg, dirs, w, ok).1) == One(AsksItem(dirs, w, whose, x))
  {
    hide DirOk, ValidConfig, Genuine, Discovered;
    ValidGenuine(cfg, w.info);
    DiscoveredGenuine(cfg, w.info);
    TotalOne(Owes(whose, x), Announce(w.at, Discovered(w.info)));
    assert Total(Owes(whose, x), []) == 0;
  }

  lemma TotalNone(f: Work -> nat)
    ensures Total(f, []) == 0
  {
  }

  /** An event from outside adds or takes out work that owes nothing, and teaches nobody. */
  lemma OutsideWork(cfg: Config, s: State, e: Event)
    requires ValidConfig(cfg) && Inv(cfg, s) && Enabled(cfg, s, e) && !e.Step?
    ensures var t := Next(cfg, s, e);
            && t.sent == s.sent && t.casts == s.casts
            && (forall w | w in t.work && w !in s.work :: w.Hello? || (w.Gossip? && exists n :: n in cfg && Knows(s.dirs, n, Subject(w))))
            && (!e.Leave? ==> forall n, u :: Knows(t.dirs, n, u) == Knows(s.dirs, n, u))
  {
    hide ValidConfig, DirOk, AllOk, Records, Replace;
    match e
    case Lose(i) => ReplaceMembers(s.work, i, []);
    case Ask(at, whom) => AskedKnown(cfg, s, whom);
    case _ =>
  }

  lemma AskedKnown(cfg: Config, s: State, whom: string)
    requires Inv(cfg, s) && whom in cfg
    ensures forall p | p in Records(s.dirs[whom], s.dirs[whom].order) :: Knows(s.dirs, whom, UuidOf(p))
  {
    hide Genuine, Exact;
    RecordsGenuine(cfg, whom, s.dirs[whom], s.dirs[whom].order);
  }

  /** A measure of work that ignores what comes from outside and what may be lost stands still. */
  lemma OutsideTotal(cfg: Config, s: State, e: Event, f: Work -> nat)
    requires Enabled(cfg, s, e) && !e.Step?
    requires forall w: Work | w.Hello? || w.Gossip? || w.Reply? :: f(w) == 0
    ensures Total(f, Next(cfg, s, e).work) <= Total(f, s.work)
    ensures (forall w: Work | w.Notify? :: f(w) == 0) ==> Total(f, Next(cfg, s, e).work) == Total(f, s.work)
  {
    hide Records, SelfInfo, AddrText;
    match e
    case Lose(i) =>
      TotalReplace(f, s.work, i, []);
      TotalNone(f);
    case Handshake(from, to) =>
      TotalConcat(f, s.work, [Hello(to, from, SelfInfo(cfg, from))]);
      TotalOne(f, Hello(to, from, SelfInfo(cfg, from)));
    case Ask(at, whom) =>
      var more := Gossips(at, Records(s.dirs[whom], s.dirs[whom].order));
      TotalConcat(f, s.work, more);
      TotalZero(f, more);
    case _ =>
  }

  lemma StepAccount(cfg: Config, s: State, e: Event, whose: Option<string>, x: string)
    requires ValidConfig(cfg) && Inv(cfg, s) && Enabled(cfg, s, e)
    ensures One(Casts(cfg, whose, x)(s, e)) + Total(Owes(whose, x), Next(cfg, s, e).work) ==
            Total(Owes(whose, x), s.work) + One(Passes(cfg, whose, x)(s, e)) + One(Asks(whose, x)(s, e))
  {
    hide ValidConfig, DirOk, WorkOk, Effect, Total, CastsItem, PassesItem, AsksItem, Owing;
    if e.Step? {
      var w := s.work[e.i];
      assert WorkOk(cfg, w);
      ItemAccount(cfg, s.dirs, w, e.ok, whose, x);
      TotalReplace(Owes(whose, x), s.work, e.i, Effect(cfg, s.dirs, w, e.ok).1);
    } else {
      OwesInside(whose, x);
      OutsideTotal(cfg, s, e, Owes(whose, x));
    }
  }

  lemma OwesInside(whose: Option<string>, x: string)
    ensures forall w: Work | w.Hello? || w.Gossip? || w.Reply? || w.Notify? :: Owes(whose, x)(w) == 0
  {
  }

  // ---- Exact accounts -------------------------------------------------------------------------------------

  /** Over any run, removals and losses or not: broadcasts made and still owed, at one node or at all,
      are those owed at the start, the notices that pass the check, and the asks. */
  lemma {:induction false} Accounts(cfg: Config, states: seq<State>, events: seq<Event>, k: nat, whose: Option<string>, x: string)
    requires ValidConfig(cfg) && IsRun(cfg, states, events) && Inv(cfg, states[0]) && k <= |events|
    ensures Count(Casts(cfg, whose, x), states, events, k) + Total(Owes(whose, x), states[k].work) ==
            Total(Owes(whose, x), states[0].work) + Count(Passes(cfg, whose, x), states, events, k) + Count(Asks(whose, x), states, events, k)
  {
    hide ValidConfig, Inv, Enabled, Next, Total, Owes, Casts, Passes, Asks;
    if k > 0 {
      Accounts(cfg, states, events, k - 1, whose, x);
      RunKeepsInv(cfg, states, events, k - 1);
      StepAccount(cfg, states[k - 1], events[k - 1], whose, x);
    }
  }

  lemma CastsStep(cfg: Config, s: State, e: Event, n: string, x: string)
    requires Enabled(cfg, s, e)
    ensures Next(cfg, s, e).casts[(n, x)] == s.casts[(n, x)] + One(Casts(cfg, Some(n), x)(s, e))
  {
    hide Effect, JoinInfo, Replace, Records, SelfInfo, Apply;
  }

  lemma {:induction false} CastsCounted(cfg: Config, states: seq<State>, events: seq<Event>, k: nat, n: string, x: string)
    requires IsRun(cfg, states, events) && k <= |events|
    ensures states[k].casts[(n, x)] == states[0].casts[(n, x)] + Count(Casts(cfg, Some(n), x), states, events, k)
  {
    hide Enabled, Next, Casts;
    if k > 0 {
      CastsCounted(cfg, states, events, k - 1, n, x);
      CastsStep(cfg, states[k - 1], events[k - 1], n, x);
    }
  }

  /** Exactly how often a node has broadcast another, whatever interleaves. */
  lemma BroadcastsExactly(cfg: Config, states: seq<State>, events: seq<Event>, k: nat, n: string, x: string)
    requires ValidConfig(cfg) && IsRun(cfg, states, events) && Inv(cfg, states[0]) && k <= |events|
    ensures states[k].casts[(n, x)] + Total(Owes(Some(n), x), states[k].work) ==
            states[0].casts[(n, x)] + Total(Owes(Some(n), x), states[0].work)
            + Count(Passes(cfg, Some(n), x), states, events, k) + Count(Asks(Some(n), x), states, events, k)
  {
    hide ValidConfig, Inv, Enabled, Next, Total, Owes, Casts, Passes, Asks;
    Accounts(cfg, states, events, k, Some(n), x);
    CastsCounted(cfg, states, events, k, n, x);
  }

  // ---- When a node takes one notice only ------------------------------------------------------------------

  /** `x` is on a handler past the check at `n`. */
  ghost predicate PastCheck(work: seq<Work>, n: string, x: string) {
    exists w :: w in work && w.Checked? && w.at == n && Subject(w) == x
  }

  ghost predicate Reached(s: State, n: string, x: string) {
    Knows(s.dirs, n, x) || PastCheck(s.work, n, x)
  }

  /** No notice about `x` passes the check at `n` while another stands between check and registration. */
  ghost predicate RaceFree(cfg: Config, states: seq<State>, events: seq<Event>, n: string, x: string)
    requires |events| < |states|
  {
    forall i | 0 <= i < |events| && Passes(cfg, Some(n), x)(states[i], events[i]) :: !PastCheck(states[i].work, n, x)
  }

  predicate NoRemovals(events: seq<Event>) {
    forall i | 0 <= i < |events| :: !events[i].Leave?
  }

  lemma CheckedTeaches(cfg: Config, dirs: Dirs, w: Work, ok: bool)
    requires ValidConfig(cfg) && DirsOk(cfg, dirs) && WorkOk(cfg, w) && w.Checked?
    ensures Knows(Effect(cfg, dirs, w, ok).0, w.at, Subject(w))
  {
    hide DirOk, ValidConfig, Genuine, Registered, Discovered, Knows;
    Learns(cfg, dirs, w.at, w.info);
  }

  lemma OnlyNoticesPass(cfg: Config, dirs: Dirs, w: Work, ok: bool, v: Work)
    requires ValidConfig(cfg) && dirs.Keys == cfg.Keys && WorkOk(cfg, w) && v in Effect(cfg, dirs, w, ok).1 && v.Checked?
    ensures PassesItem(cfg, dirs, w, Some(v.at), Subject(v))
  {
    hide ValidConfig, AddrText, NodeAt, Genuine, Registered, Discovered, JoinInfo, AutoConnectInfo, Records, Messages, Knows;
    if w.Notify? {
      NoticeOwes(cfg, dirs, w, ok, None, Subject(w));
    } else if w.Broadcast? {
      RebuiltGenuine(cfg, w.what, w.at);
      MessagesAreNotices(dirs[w.at], dirs[w.at].order, w.at, w.what.uuid, JoinInfo(w.what).value);
    }
  }

  /** Without removals nobody forgets. */
  lemma NobodyForgets(cfg: Config, s: State, e: Event)
    requires ValidConfig(cfg) && Inv(cfg, s) && Enabled(cfg, s, e) && !e.Leave?
    ensures Grown(s.dirs, Next(cfg, s, e).dirs)
  {
    hide ValidConfig, DirOk, WorkOk, Effect, Knows, Replace, Apply, Records;
    if e.Step? {
      assert WorkOk(cfg, s.work[e.i]);
      EffectLearns(cfg, s.dirs, s.work[e.i], e.ok);
    } else {
      OutsideWork(cfg, s, e);
    }
  }

  /** A handler past the check comes of a passing notice, and leaves by registering. */
  lemma PastStep(cfg: Config, s: State, e: Event, n: string, x: string)
    requires ValidConfig(cfg) && Inv(cfg, s) && Enabled(cfg, s, e)
    ensures var t := Next(cfg, s, e);
            && (PastCheck(t.work, n, x) ==> PastCheck(s.work, n, x) || Passes(cfg, Some(n), x)(s, e))
            && (Passes(cfg, Some(n), x)(s, e) ==> PastCheck(t.work, n, x) && !Knows(s.dirs, n, x))
            && (PastCheck(s.work, n, x) && !e.Leave? ==> Reached(t, n, x))
  {
    hide ValidConfig, DirOk, WorkOk, Effect, Knows, Replace, NodeAt, Apply, Records;
    var t := Next(cfg, s, e);
    if e.Step? {
      var w := s.work[e.i];
      assert WorkOk(cfg, w);
      var produced := Effect(cfg, s.dirs, w, e.ok).1;
      ReplaceMembers(s.work, e.i, produced);
      if v :| v in produced && v.Checked? && v.at == n && Subject(v) == x {
        OnlyNoticesPass(cfg, s.dirs, w, e.ok, v);
      }
      if Passes(cfg, Some(n), x)(s, e) {
        NoticeOwes(cfg, s.dirs, w, e.ok, None, x);
        assert Checked(n, w.info) in produced;
      }
      if v :| v in s.work && v.Checked? && v.at == n && Subject(v) == x {
        if v == w {
          CheckedTeaches(cfg, s.dirs, w, e.ok);
        } else {
          assert v in t.work;
        }
      }
    } else {
      OutsidePast(cfg, s, e, n, x);
    }
  }

  lemma OutsidePast(cfg: Config, s: State, e: Event, n: string, x: string)
    requires ValidConfig(cfg) && Inv(cfg, s) && Enabled(cfg, s, e) && !e.Step?
    ensures PastCheck(Next(cfg, s, e).work, n, x) == PastCheck(s.work, n, x)
  {
    hide ValidConfig, DirOk, WorkOk, Knows, Replace, Apply, Records;
    OutsideWork(cfg, s, e);
    if e.Lose? {
      ReplaceMembers(s.work, e.i, []);
    }
  }

  lemma {:induction false} PassedOnce(cfg: Config, states: seq<State>, events: seq<Event>, k: nat, n: string, x: string)
    requires ValidConfig(cfg) && IsRun(cfg, states, events) && Inv(cfg, states[0]) && k <= |events| && NoRemovals(events)
    requires RaceFree(cfg, states, events, n, x)
    ensures Count(Passes(cfg, Some(n), x), states, events, k) <= One(Reached(states[k], n, x))
    ensures Reached(states[0], n, x) ==> Reached(states[k], n, x) && Count(Passes(cfg, Some(n), x), states, events, k) == 0
  {
    hide ValidConfig, Inv, Enabled, Next, Passes, Knows, PastCheck;
    if k > 0 {
      PassedOnce(cfg, states, events, k - 1, n, x);
      RunKeepsInv(cfg, states, events, k - 1);
      NobodyForgets(cfg, states[k - 1], events[k - 1]);
      PastStep(cfg, states[k - 1], events[k - 1], n, x);
    }
  }

  lemma {:induction false} PastComesOfPassing(cfg: Config, states: seq<State>, events: seq<Event>, k: nat, n: string, x: string)
    requires ValidConfig(cfg) && IsRun(cfg, states, events) && Inv(cfg, states[0]) && k <= |events|
    requires !PastCheck(states[0].work, n, x)
    ensures PastCheck(states[k].work, n, x) ==> Count(Passes(cfg, Some(n), x), states, events, k) >= 1
  {
    hide ValidConfig, Inv, Enabled, Next, Passes, PastCheck;
    if k > 0 {
      PastComesOfPassing(cfg, states, events, k - 1, n, x);
      RunKeepsInv(cfg, states, events, k - 1);
      PastStep(cfg, states[k - 1], events[k - 1], n, x);
    }
  }

  /** Without removals at most one notice about `x` passes the check at a node if and only if none
      passes there while another is between check and registration. */
  lemma OneNoticeIff(cfg: Config, states: seq<State>, events: seq<Event>, n: string, x: string)
    requires ValidConfig(cfg) && IsRun(cfg, states, events) && Inv(cfg, states[0]) && NoRemovals(events)
    requires !PastCheck(states[0].work, n, x)
    ensures Count(Passes(cfg, Some(n), x), states, events, |events|) <= 1 <==> RaceFree(cfg, states, events, n, x)
  {
    hide ValidConfig, Inv, Enabled, Next, Passes, PastCheck;
    if RaceFree(cfg, states, events, n, x) {
      PassedOnce(cfg, states, events, |events|, n, x);
    } else {
      var i :| 0 <= i < |events| && Passes(cfg, Some(n), x)(states[i], events[i]) && PastCheck(states[i].work, n, x);
      PastComesOfPassing(cfg, states, events, i, n, x);
      CountGrows(Passes(cfg, Some(n), x), states, events, i, |events|);
    }
  }

  lemma NothingOwed(work: seq<Work>, whose: Option<string>, x: string)
    requires forall w | w in work :: !Owing(w, whose, x)
    ensures Total(Owes(whose, x), work) == 0
  {
    TotalZero(Owes(whose, x), work);
  }

  /** Nothing about `x` that leads to a broadcast is under way. */
  ghost predicate Quiet(s: State, x: string) {
    forall w | w in s.work && Subject(w) == x :: !w.Notify? && !ToBroadcast(w)
  }

  /** A node that nobody asks, over a run from one quiet state to another, broadcasts `x` at most once
      if and only if its notices do not race. */
  lemma OnceIff(cfg: Config, states: seq<State>, events: seq<Event>, n: string, x: string)
    requires ValidConfig(cfg) && IsRun(cfg, states, events) && Inv(cfg, states[0]) && NoRemovals(events)
    requires Quiet(states[0], x)
    ensures Quiescent(states[|events|], x) && Count(Asks(Some(n), x), states, events, |events|) == 0 ==>
              (states[|events|].casts[(n, x)] <= states[0].casts[(n, x)] + 1 <==> RaceFree(cfg, states, events, n, x))
  {
    hide ValidConfig, Inv, Enabled, Next, Passes, Asks, RaceFree, Total;
    if Quiescent(states[|events|], x) {
      NothingOwed(states[0].work, Some(n), x);
      NothingOwed(states[|events|].work, Some(n), x);
      BroadcastsExactly(cfg, states, events, |events|, n, x);
      OneNoticeIff(cfg, states, events, n, x);
    }
  }

  /** In a race-free run a node broadcasts `x` at most once more than it is asked to. */
  lemma OnceMoreThanAsked(cfg: Config, states: seq<State>, events: seq<Event>, k: nat, n: string, x: string)
    requires ValidConfig(cfg) && IsRun(cfg, states, events) && Inv(cfg, states[0]) && NoRemovals(events) && k <= |events|
    requires RaceFree(cfg, states, events, n, x)
    ensures states[k].casts[(n, x)] <= states[0].casts[(n, x)] + Total(Owes(Some(n), x), states[0].work)
                                       + Count(Asks(Some(n), x), states, events, k) + One(!Reached(states[0], n, x))
  {
    hide ValidConfig, Inv, Enabled, Next, Passes, Asks, RaceFree, Total, Reached;
    BroadcastsExactly(cfg, states, events, k, n, x);
    PassedOnce(cfg, states, events, k, n, x);
  }

  // ---- Handlers that run from check to registration undisturbed ----------------------------------------------

  function Past(x: string): Work -> nat {
    (w: Work) => if w.Checked? && Subject(w) == x then 1 else 0
  }

  /** A notice that has passed the check is registered in the very next event. */
  ghost predicate AtomicHandlers(cfg: Config, states: seq<State>, events: seq<Event>, x: string)
    requires |events| < |states|
  {
    forall i | 0 <= i < |events| - 1 && Passes(cfg, None, x)(states[i], events[i]) ::
      var e := events[i + 1];
      e.Step? && e.i < |states[i + 1].work| && states[i + 1].work[e.i].Checked? && Subject(states[i + 1].work[e.i]) == x
  }

  lemma PastAccount(cfg: Config, s: State, e: Event, x: string)
    requires ValidConfig(cfg) && Inv(cfg, s) && Enabled(cfg, s, e)
    ensures Total(Past(x), Next(cfg, s, e).work) + One(e.Step? && s.work[e.i].Checked? && Subject(s.work[e.i]) == x) ==
            Total(Past(x), s.work) + One(Passes(cfg, None, x)(s, e))
  {
    hide ValidConfig, DirOk, WorkOk, Effect, Total, NodeAt, Knows;
    if e.Step? {
      var w := s.work[e.i];
      assert WorkOk(cfg, w);
      var produced := Effect(cfg, s.dirs, w, e.ok).1;
      TotalReplace(Past(x), s.work, e.i, produced);
      if w.Notify? {
        NoticeOwes(cfg, s.dirs, w, e.ok, None, x);
        TotalNone(Past(x));
        if PassesItem(cfg, s.dirs, w, None, Subject(w)) {
          TotalOne(Past(x), Checked(NodeAt(cfg, w.to).value, w.info));
        }
      } else {
        forall v | v in produced ensures !v.Checked? {
          if v.Checked? { OnlyNoticesPass(cfg, s.dirs, w, e.ok, v); }
        }
        TotalZero(Past(x), produced);
      }
    } else {
      OutsideTotal(cfg, s, e, Past(x));
    }
  }

  lemma {:induction false} PastAtMostOne(cfg: Config, states: seq<State>, events: seq<Event>, k: nat, x: string)
    requires ValidConfig(cfg) && IsRun(cfg, states, events) && Inv(cfg, states[0]) && k <= |events|
    requires AtomicHandlers(cfg, states, events, x) && Total(Past(x), states[0].work) == 0
    ensures Total(Past(x), states[k].work) == One(k > 0 && Passes(cfg, None, x)(states[k - 1], events[k - 1]))
  {
    hide ValidConfig, Inv, Next, Total, NodeAt, Knows;
    if k > 0 {
      PastAtMostOne(cfg, states, events, k - 1, x);
      RunKeepsInv(cfg, states, events, k - 1);
      var s, e := states[k - 1], events[k - 1];
      PastAccount(cfg, s, e, x);
      if e.Step? && s.work[e.i].Checked? && Subject(s.work[e.i]) == x {
        SomePast(s.work, s.work[e.i], x);
      }
    }
  }

  /** Handlers that are not disturbed between check and registration never race. */
  lemma AtomicIsRaceFree(cfg: Config, states: seq<State>, events: seq<Event>, n: string, x: string)
    requires ValidConfig(cfg) && IsRun(cfg, states, events) && Inv(cfg, states[0])
    requires AtomicHandlers(cfg, states, events, x) && Quiet(states[0], x)
    ensures RaceFree(cfg, states, events, n, x)
  {
    hide ValidConfig, Inv, Enabled, Next, Total;
    TotalZero(Past(x), states[0].work);
    forall i | 0 <= i < |events| && Passes(cfg, Some(n), x)(states[i], events[i]) ensures !PastCheck(states[i].work, n, x) {
      PastAtMostOne(cfg, states, events, i, x);
      if w :| w in states[i].work && w.Checked? && w.at == n && Subject(w) == x {
        SomePast(states[i].work, w, x);
      }
    }
  }

  lemma SomePast(work: seq<Work>, w: Work, x: string)
    requires w in work && w.Checked? && Subject(w) == x
    ensures Total(Past(x), work) >= 1
  {
    var i :| 0 <= i < |work| && work[i] == w;
    TotalReplace(Past(x), work, i, []);
  }

  // ---- A node that knows -----------------------------------------------------------------------------------

  /** A handshake of `x` answered at `n`. */
  ghost function Greets(n: string, x: string): (State, Event) -> bool {
    (s: State, e: Event) => e.Step? && e.i < |s.work| && s.work[e.i].HelloRegistered? && s.work[e.i].at == n && Subject(s.work[e.i]) == x
  }

  lemma {:induction false} KnowerOnlyGreeted(cfg: Config, states: seq<State>, events: seq<Event>, k: nat, n: string, x: string)
    requires ValidConfig(cfg) && IsRun(cfg, states, events) && Inv(cfg, states[0]) && NoRemovals(events) && k <= |events|
    requires Knows(states[0].dirs, n, x)
    ensures Knows(states[k].dirs, n, x) && Count(Passes(cfg, Some(n), x), states, events, k) == 0
    ensures Count(Asks(Some(n), x), states, events, k) == Count(Greets(n, x), states, events, k)
  {
    hide ValidConfig, Inv, Enabled, Next, NodeAt;
    if k > 0 {
      KnowerOnlyGreeted(cfg, states, events, k - 1, n, x);
      RunKeepsInv(cfg, states, events, k - 1);
      NobodyForgets(cfg, states[k - 1], events[k - 1]);
    }
  }

  /** A node that first hears of `x` from the answer to a handshake of its own: from then on it
      broadcasts `x` exactly as often as `x` itself greets it, however many notices of it arrive. */
  lemma DeafOnlyGreeted(cfg: Config, states: seq<State>, events: seq<Event>, k: nat, n: string, x: string)
    requires ValidConfig(cfg) && IsRun(cfg, states, events) && Inv(cfg, states[0]) && NoRemovals(events) && 0 < k <= |events|
    requires !HasHeard(states[0], n, x) && Knows(states[1].dirs, n, x)
    requires events[0].Step? && states[0].work[events[0].i].Reply? && Subject(states[0].work[events[0].i]) == x
    ensures states[k].casts[(n, x)] + Total(Owes(Some(n), x), states[k].work) ==
            states[0].casts[(n, x)] + Count(Greets(n, x), states[1..], events[1..], k - 1)
  {
    hide ValidConfig, Inv, Enabled, Next, Total, Knows;
    RunKeepsInv(cfg, states, events, 1);
    var later, rest := states[1..], events[1..];
    assert IsRun(cfg, later, rest);
    KnowerOnlyGreeted(cfg, later, rest, k - 1, n, x);
    BroadcastsExactly(cfg, later, rest, k - 1, n, x);
    NothingOwed(states[0].work, Some(n), x);
    BroadcastsExactly(cfg, states, events, 1, n, x);
    assert !Passes(cfg, Some(n), x)(states[0], events[0]) && !Asks(Some(n), x)(states[0], events[0]);
  }
}
