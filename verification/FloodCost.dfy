/** How many broadcasts and messages a newcomer can cause among N nodes: with handlers that race at
    will at most 2^(N-2) broadcasts a request, without races one for each other node but one, and one
    for each request. */
module FloodCost {
  import opened Types
  import opened AddrCodec
  import opened Relay
  import opened Directory
  import opened Network
  import opened FloodTermination
  import opened FloodCoverage
  import opened FloodAccounts

  // ---- How many messages one broadcast sends ----------------------------------------------------------

  lemma {:induction false} MessagesBound(d: Dir, order: seq<string>, n: string, about: string, info: NodeInfo)
    requires Distinct(order)
    ensures |Messages(d, order, n, about, info)| + (if about in order then 1 else 0) <= |order|
  {
    if order != [] {
      var front, last := order[..|order| - 1], order[|order| - 1];
      assert order == front + [last];
      MessagesBound(d, front, n, about, info);
    }
  }

  lemma {:induction false} DistinctSize(s: seq<string>, space: set<string>)
    requires Distinct(s) && forall u | u in s :: u in space
    ensures |s| <= |space|
  {
    if s != [] {
      var front, last := s[..|s| - 1], s[|s| - 1];
      assert s == front + [last] && last !in front;
      DistinctSize(front, space - {last});
    }
  }

  /** A broadcast goes to neither its sender nor its subject, whether the sender records it or not. */
  lemma BroadcastSize(cfg: Config, n: string, d: Dir, about: string, info: NodeInfo)
    requires n in cfg && about in cfg && about != n && DirOk(cfg, n, d)
    ensures |Messages(d, d.order, n, about, info)| <= |cfg| - 2
  {
    hide Exact, Messages;
    MessagesBound(d, d.order, n, about, info);
    DistinctSize(d.order, if about in d.order then cfg.Keys - {n} else cfg.Keys - {n} - {about});
  }

  /** A notice about `x` under way to `m`, or past the check there. */
  ghost function Toward(cfg: Config, m: string, x: string): Work -> nat
    requires m in cfg
  {
    (w: Work) => if Subject(w) == x && ((w.Notify? && w.to == AddrText(cfg, m)) || (w.Checked? && w.at == m)) then 1 else 0
  }

  /** A broadcast sends each node one message at most. */
  lemma {:induction false} OneEach(cfg: Config, n: string, d: Dir, order: seq<string>, about: string, info: NodeInfo, m: string, x: string)
    requires ValidConfig(cfg) && m in cfg && DirOk(cfg, n, d) && Distinct(order)
    ensures Total(Toward(cfg, m, x), Messages(d, order, n, about, info)) <= One(m in order)
  {
    hide ValidConfig, Exact, AddrText, FormatNodeAddr, FirstAddr;
    if order != [] {
      var front, last := order[..|order| - 1], order[|order| - 1];
      assert order == front + [last] && last !in front;
      OneEach(cfg, n, d, front, about, info, m, x);
      var before := Messages(d, front, n, about, info);
      if last in d.online && last != n && last != about && FirstAddr(d.online[last]).Some? {
        var msg := Notify(FirstAddr(d.online[last]).value, info);
        TotalConcat(Toward(cfg, m, x), before, [msg]);
        TotalOne(Toward(cfg, m, x), msg);
        GenuineFirstAddr(cfg, d.online[last]);
        if AddrText(cfg, last) == AddrText(cfg, m) {
          AddrTextInjective(cfg, last, m);
        }
      } else {
        assert Messages(d, order, n, about, info) == before;
      }
    }
  }

  // ---- What both bounds rest on ---------------------------------------------------------------------------

  /** The peers one broadcast can reach: all nodes but the sender and the newcomer. */
  function Fanout(cfg: Config): nat {
    if |cfg| < 2 then 0 else |cfg| - 2
  }

  ghost predicate SomebodyKnows(cfg: Config, dirs: Dirs, x: string) {
    exists n :: n in cfg && Knows(dirs, n, x)
  }

  /** Whoever is to be gossiped about is known to somebody. */
  ghost predicate GossipKnown(cfg: Config, s: State, x: string) {
    forall w | w in s.work && w.Gossip? && Subject(w) == x :: SomebodyKnows(cfg, s.dirs, x)
  }

  /** `x` has no handler of its own about itself. */
  ghost predicate NotSelf(work: seq<Work>, x: string) {
    forall w | w in work && ToBroadcast(w) && Subject(w) == x :: w.at != x
  }

  /** After `asked` requests and `cast` broadcasts. */
  ghost predicate Base(cfg: Config, s: State, x: string, asked: nat, cast: nat) {
    && HandlersKnow(s.dirs, s.work, x) && GossipKnown(cfg, s, x) && NotSelf(s.work, x)
    && SentAbout(s.sent, x) <= cast * Fanout(cfg)
    && (asked == 0 ==> cast == 0 && NothingSpreads(s.work, x))
  }

  /** Up to the first request, a handshake of `x` may have been registered, but not yet answered. */
  ghost predicate NothingSpreads(work: seq<Work>, x: string) {
    forall w | w in work && Subject(w) == x :: !w.Notify? && !w.Checked? && !w.Announce? && !w.Broadcast?
  }

  /** No removals, and `x` does not handshake with itself. */
  ghost predicate CostEvent(cfg: Config, s: State, e: Event, x: string) {
    match e
    case Step(i, _) => i < |s.work| && !(s.work[i].Hello? && Subject(s.work[i]) == x && NodeAt(cfg, s.work[i].to) == Some(x))
    case Leave(_, _) => false
    case _ => true
  }

  ghost predicate CostRun(cfg: Config, states: seq<State>, events: seq<Event>, x: string) {
    && ValidConfig(cfg) && IsRun(cfg, states, events) && Inv(cfg, states[0]) && CostStart(cfg, states[0], x)
    && forall i | 0 <= i < |events| :: CostEvent(cfg, states[i], events[i], x)
  }

  /** Nothing about `x` is under way but handshakes of its own, gossip of what somebody knows, answers
      to others' handshakes and connects. */
  ghost predicate CostStart(cfg: Config, s: State, x: string) {
    Quiet(s, x) && GossipKnown(cfg, s, x) && SentAbout(s.sent, x) == 0
  }

  lemma OneMore(a: nat, b: nat, m: nat, sent: nat, k: nat)
    requires sent <= a * m && a + 1 <= b && k <= m
    ensures sent + k <= b * m
  {
    assert (a + 1) * m == a * m + m;
    assert (a + 1) * m <= b * m;
  }

  lemma NotFewer(a: nat, b: nat, m: nat, sent: nat)
    requires sent <= a * m && a <= b
    ensures sent <= b * m
  {
    assert a * m <= b * m;
  }

  /** Messages about `x` come of broadcasts of `x` only, at most Fanout of each. */
  lemma StepSends(cfg: Config, s: State, e: Event, x: string) returns (k: nat)
    requires ValidConfig(cfg) && Inv(cfg, s) && Enabled(cfg, s, e) && NotSelf(s.work, x)
    ensures SentAbout(Next(cfg, s, e).sent, x) == SentAbout(s.sent, x) + k
    ensures if Casts(cfg, None, x)(s, e) then k <= Fanout(cfg) else k == 0
  {
    hide ValidConfig, DirOk, AllOk, Replace, Records, Apply, AddrText, JoinInfo, Messages, Genuine;
    k := 0;
    if e.Step? && s.work[e.i].Broadcast? {
      var w := s.work[e.i];
      ItemWorks(cfg, s, e.i);
      RebuiltGenuine(cfg, w.what, w.at);
      if w.what.uuid == x {
        BroadcastSize(cfg, w.at, s.dirs[w.at], x, JoinInfo(w.what).value);
        k := |Messages(s.dirs[w.at], s.dirs[w.at].order, w.at, x, JoinInfo(w.what).value)|;
      }
    }
  }

  lemma ItemWorks(cfg: Config, s: State, i: nat)
    requires Inv(cfg, s) && i < |s.work|
    ensures WorkOk(cfg, s.work[i])
  {
    hide WorkOk, DirOk;
  }

  /** Which items about `x` come of which. */
  lemma Descent(cfg: Config, dirs: Dirs, w: Work, ok: bool, v: Work)
    requires ValidConfig(cfg) && DirsOk(cfg, dirs) && WorkOk(cfg, w)
    ensures v in Effect(cfg, dirs, w, ok).1 ==>
              && !v.Gossip? && !v.Hello?
              && (v.HelloRegistered? ==> w.Hello? && NodeAt(cfg, w.to) == Some(v.at) && Subject(w) == Subject(v))
              && (v.Checked? ==> Subject(v) != v.at && PassesItem(cfg, dirs, w, Some(v.at), Subject(v)))
              && (v.Announce? ==> Subject(w) == Subject(v) && (w.HelloRegistered? || w.Checked? || w.Gossip?) && w.at == v.at
                                  && (w.Gossip? ==> w.at != Subject(w)) && (!w.Checked? ==> AsksItem(dirs, w, None, Subject(w))))
              && (v.Broadcast? ==> w.Announce? && w.at == v.at && Subject(w) == Subject(v))
              && (v.Notify? ==> w.Broadcast? && Subject(w) == Subject(v))
  {
    hide ValidConfig, DirOk, AddrText, NodeAt, Genuine, Registered, Discovered, JoinInfo, AutoConnectInfo, Records, Messages, Knows, SelfInfo;
    match w
    case Notify(_, _) => NoticeOwes(cfg, dirs, w, ok, None, Subject(w));
    case HelloRegistered(n, _, info) =>
      DiscoveredGenuine(cfg, info);
      NobodyListed(cfg, n, dirs[n]);
    case Checked(_, info) => DiscoveredGenuine(cfg, info);
    case Broadcast(n, what) =>
      RebuiltGenuine(cfg, what, n);
      MessagesGenuine(cfg, dirs[n], dirs[n].order, n, what.uuid, JoinInfo(what).value);
    case Gossip(_, info) =>
      GossipOwes(cfg, dirs, w, ok, None, Subject(w));
      DiscoveredGenuine(cfg, info);
    case _ =>
  }

  lemma CheckedApart(cfg: Config, s: State, w: Work)
    requires Inv(cfg, s) && w in s.work && w.Checked?
    ensures Subject(w) != w.at
  {
    hide DirOk;
    assert WorkOk(cfg, w);
  }

  lemma StepKeepsNotSelf(cfg: Config, s: State, e: Event, x: string)
    requires ValidConfig(cfg) && Inv(cfg, s) && Enabled(cfg, s, e) && CostEvent(cfg, s, e, x) && NotSelf(s.work, x)
    ensures NotSelf(Next(cfg, s, e).work, x)
  {
    hide ValidConfig, Inv, Effect, Replace, NodeAt, Knows, PassesItem, AsksItem, Records, Apply, SelfInfo;
    if e.Step? {
      var w := s.work[e.i];
      ItemWorks(cfg, s, e.i);
      InvDirs(cfg, s);
      var produced := Effect(cfg, s.dirs, w, e.ok).1;
      ReplaceMembers(s.work, e.i, produced);
      forall v | v in produced && ToBroadcast(v) && Subject(v) == x ensures v.at != x {
        Descent(cfg, s.dirs, w, e.ok, v);
        if w.Checked? { CheckedApart(cfg, s, w); }
      }
    } else {
      OutsideWork(cfg, s, e);
    }
  }

  lemma InvDirs(cfg: Config, s: State)
    requires Inv(cfg, s)
    ensures DirsOk(cfg, s.dirs)
  {
  }

  lemma StepKeepsGossip(cfg: Config, s: State, e: Event, x: string)
    requires ValidConfig(cfg) && Inv(cfg, s) && Enabled(cfg, s, e) && CostEvent(cfg, s, e, x) && GossipKnown(cfg, s, x)
    ensures GossipKnown(cfg, Next(cfg, s, e), x)
  {
    hide ValidConfig, Inv, Effect, Replace, NodeAt, Knows, PassesItem, AsksItem, Records, Apply, SelfInfo;
    NobodyForgets(cfg, s, e);
    if e.Step? {
      var w := s.work[e.i];
      ItemWorks(cfg, s, e.i);
      InvDirs(cfg, s);
      var produced := Effect(cfg, s.dirs, w, e.ok).1;
      ReplaceMembers(s.work, e.i, produced);
      forall v | v in produced ensures !v.Gossip? {
        Descent(cfg, s.dirs, w, e.ok, v);
      }
    } else {
      OutsideWork(cfg, s, e);
    }
  }

  lemma StepKeepsHandlers(cfg: Config, s: State, e: Event, x: string)
    requires ValidConfig(cfg) && Inv(cfg, s) && Enabled(cfg, s, e) && CostEvent(cfg, s, e, x) && HandlersKnow(s.dirs, s.work, x)
    ensures HandlersKnow(Next(cfg, s, e).dirs, Next(cfg, s, e).work, x)
  {
    hide ValidConfig, Inv, Effect, Replace, Knows, Records, Apply, SelfInfo;
    if e.Step? {
      HandlersStillKnow(cfg, s, e.i, e.ok, x);
    } else {
      OutsideWork(cfg, s, e);
    }
  }

  /** While nobody has been asked, nothing spreads and nothing is broadcast or passes a check. */
  lemma StepBeforeAsked(cfg: Config, s: State, e: Event, x: string)
    requires ValidConfig(cfg) && Inv(cfg, s) && Enabled(cfg, s, e) && NothingSpreads(s.work, x)
    ensures !Casts(cfg, None, x)(s, e) && !Passes(cfg, None, x)(s, e)
    ensures !Asks(None, x)(s, e) ==> NothingSpreads(Next(cfg, s, e).work, x)
  {
    hide ValidConfig, Inv, Effect, Replace, NodeAt, Knows, Records, Apply, SelfInfo, AsksItem;
    if e.Step? {
      var w := s.work[e.i];
      ItemWorks(cfg, s, e.i);
      InvDirs(cfg, s);
      var produced := Effect(cfg, s.dirs, w, e.ok).1;
      ReplaceMembers(s.work, e.i, produced);
      forall v | v in produced && Subject(v) == x && !Asks(None, x)(s, e) ensures !v.Notify? && !v.Checked? && !v.Announce? && !v.Broadcast? {
        Descent(cfg, s.dirs, w, e.ok, v);
      }
    } else {
      OutsideWork(cfg, s, e);
    }
  }

  lemma StepKeepsBase(cfg: Config, s: State, e: Event, x: string, asked: nat, cast: nat)
    requires ValidConfig(cfg) && Inv(cfg, s) && Enabled(cfg, s, e) && CostEvent(cfg, s, e, x) && Base(cfg, s, x, asked, cast)
    ensures Base(cfg, Next(cfg, s, e), x, asked + One(Asks(None, x)(s, e)), cast + One(Casts(cfg, None, x)(s, e)))
  {
    hide ValidConfig, Inv, Enabled, CostEvent, Next, Asks, Casts, HandlersKnow, GossipKnown, NotSelf, NothingSpreads;
    StepKeepsNotSelf(cfg, s, e, x);
    StepKeepsGossip(cfg, s, e, x);
    StepKeepsHandlers(cfg, s, e, x);
    var k := StepSends(cfg, s, e, x);
    if asked == 0 {
      StepBeforeAsked(cfg, s, e, x);
    }
    if Casts(cfg, None, x)(s, e) {
      OneMore(cast, cast + 1, Fanout(cfg), SentAbout(s.sent, x), k);
    }
  }

  /** Whoever is asked knows, or somebody else does. */
  lemma AskedMeansKnown(cfg: Config, s: State, e: Event, x: string, asked: nat, cast: nat)
    requires ValidConfig(cfg) && Inv(cfg, s) && Base(cfg, s, x, asked, cast) && Asks(None, x)(s, e)
    ensures SomebodyKnows(cfg, s.dirs, x)
  {
    hide ValidConfig, Knows;
    var w := s.work[e.i];
    assert WorkOk(cfg, w) && w in s.work;
    if w.HelloRegistered? {
      assert ToBroadcast(w) && w.at != x && Knows(s.dirs, w.at, x);
    }
  }

  lemma {:induction false} RunKeepsBase(cfg: Config, states: seq<State>, events: seq<Event>, x: string, k: nat)
    requires CostRun(cfg, states, events, x) && k <= |events|
    ensures Inv(cfg, states[k])
    ensures Base(cfg, states[k], x, Count(Asks(None, x), states, events, k), Count(Casts(cfg, None, x), states, events, k))
  {
    hide ValidConfig, Inv, Enabled, CostEvent, Next, Asks, Casts, Base, CostStart;
    RunKeepsInv(cfg, states, events, k);
    if k > 0 {
      RunKeepsBase(cfg, states, events, x, k - 1);
      StepKeepsBase(cfg, states[k - 1], events[k - 1], x, Count(Asks(None, x), states, events, k - 1), Count(Casts(cfg, None, x), states, events, k - 1));
    } else {
      StartBase(cfg, states[0], x);
    }
  }

  lemma StartBase(cfg: Config, s: State, x: string)
    requires CostStart(cfg, s, x)
    ensures Base(cfg, s, x, 0, 0) && Total(Owes(None, x), s.work) == 0
  {
    NothingOwed(s.work, None, x);
  }

  lemma {:induction false} Subsets(a: set<string>, b: set<string>)
    requires a <= b
    ensures |a| <= |b|
  {
    if a != {} {
      var e :| e in a;
      Subsets(a - {e}, b - {e});
    }
  }

  // ---- Without races -----------------------------------------------------------------------------------------

  ghost function AllReached(cfg: Config, s: State, x: string): set<string> {
    set n | n in cfg && Reached(s, n, x)
  }

  lemma ReachedGrows(cfg: Config, s: State, e: Event, x: string)
    requires ValidConfig(cfg) && Inv(cfg, s) && Enabled(cfg, s, e) && !e.Leave?
    ensures AllReached(cfg, s, x) <= AllReached(cfg, Next(cfg, s, e), x)
    ensures forall n | n in cfg && Passes(cfg, Some(n), x)(s, e) && !PastCheck(s.work, n, x) ::
              n in AllReached(cfg, Next(cfg, s, e), x) - AllReached(cfg, s, x)
  {
    hide ValidConfig, Inv, Enabled, Next, Knows, PastCheck, Passes;
    NobodyForgets(cfg, s, e);
    forall n | n in cfg ensures Reached(s, n, x) ==> Reached(Next(cfg, s, e), n, x) {
      PastStep(cfg, s, e, n, x);
    }
    forall n | n in cfg && Passes(cfg, Some(n), x)(s, e) ensures PastCheck(Next(cfg, s, e).work, n, x) && !Knows(s.dirs, n, x) {
      PastStep(cfg, s, e, n, x);
    }
  }

  /** Where a notice passes. */
  lemma PassesSomewhere(cfg: Config, s: State, e: Event, x: string) returns (n: string)
    requires Passes(cfg, None, x)(s, e)
    ensures n in cfg && Passes(cfg, Some(n), x)(s, e)
  {
    hide AddrText, NodeAt, Knows;
    n := NodeAt(cfg, s.work[e.i].to).value;
    NodeAtIsReal(cfg, s.work[e.i].to);
  }

  /** Broadcasts made and owed are paid for by the nodes reached and the requests. */
  ghost predicate Paid(cfg: Config, s: State, x: string, asked: nat, cast: nat) {
    if asked == 0 then cast + Total(Owes(None, x), s.work) == 0
    else cast + Total(Owes(None, x), s.work) + 1 <= |AllReached(cfg, s, x)| + asked
  }

  lemma StepKeepsPaid(cfg: Config, s: State, e: Event, x: string, asked: nat, cast: nat)
    requires ValidConfig(cfg) && Inv(cfg, s) && Enabled(cfg, s, e) && CostEvent(cfg, s, e, x)
    requires Base(cfg, s, x, asked, cast) && Paid(cfg, s, x, asked, cast)
    ensures (forall n | Passes(cfg, Some(n), x)(s, e) :: !PastCheck(s.work, n, x)) ==>
              Paid(cfg, Next(cfg, s, e), x, asked + One(Asks(None, x)(s, e)), cast + One(Casts(cfg, None, x)(s, e)))
  {
    hide ValidConfig, Inv, Enabled, Next, Knows, PastCheck, Passes, Asks, Casts, Total, Reached, HandlersKnow, GossipKnown, NotSelf, NothingSpreads;
    StepAccount(cfg, s, e, None, x);
    ReachedGrows(cfg, s, e, x) by { NotLeaving(cfg, s, e, x); }
    var a, b := AllReached(cfg, s, x), AllReached(cfg, Next(cfg, s, e), x);
    Subsets(a, b);
    if asked == 0 {
      StepBeforeAsked(cfg, s, e, x);
      if Asks(None, x)(s, e) {
        AskedMeansKnown(cfg, s, e, x, asked, cast);
        SomebodyReached(cfg, s, x);
      }
    }
    if Passes(cfg, None, x)(s, e) {
      var n := PassesSomewhere(cfg, s, e, x);
      if !PastCheck(s.work, n, x) {
        Subsets(a, b - {n});
      }
    }
    AtMostOneKind(cfg, s, e, x);
  }

  lemma NotLeaving(cfg: Config, s: State, e: Event, x: string)
    requires CostEvent(cfg, s, e, x)
    ensures !e.Leave?
  {
  }

  lemma SomebodyReached(cfg: Config, s: State, x: string)
    requires SomebodyKnows(cfg, s.dirs, x)
    ensures |AllReached(cfg, s, x)| >= 1
  {
    hide Knows, PastCheck;
    var n :| n in cfg && Knows(s.dirs, n, x);
    assert n in AllReached(cfg, s, x);
  }

  lemma AtMostOneKind(cfg: Config, s: State, e: Event, x: string)
    ensures One(Casts(cfg, None, x)(s, e)) + One(Passes(cfg, None, x)(s, e)) + One(Asks(None, x)(s, e)) <= 1
  {
    hide NodeAt, Knows, JoinInfo;
  }

  ghost predicate RaceFreeRun(cfg: Config, states: seq<State>, events: seq<Event>, x: string)
    requires |events| < |states|
  {
    forall n :: RaceFree(cfg, states, events, n, x)
  }

  lemma {:induction false} RunKeepsPaid(cfg: Config, states: seq<State>, events: seq<Event>, x: string, k: nat)
    requires CostRun(cfg, states, events, x) && RaceFreeRun(cfg, states, events, x) && k <= |events|
    ensures Paid(cfg, states[k], x, Count(Asks(None, x), states, events, k), Count(Casts(cfg, None, x), states, events, k))
  {
    hide ValidConfig, Inv, Enabled, CostEvent, Next, Asks, Casts, Passes, Base, Paid, CostStart, PastCheck;
    if k > 0 {
      RunKeepsPaid(cfg, states, events, x, k - 1);
      RunKeepsBase(cfg, states, events, x, k - 1);
      forall n | Passes(cfg, Some(n), x)(states[k - 1], events[k - 1]) ensures !PastCheck(states[k - 1].work, n, x) {
        assert RaceFree(cfg, states, events, n, x);
      }
      StepKeepsPaid(cfg, states[k - 1], events[k - 1], x, Count(Asks(None, x), states, events, k - 1), Count(Casts(cfg, None, x), states, events, k - 1));
    } else {
      StartPaid(cfg, states[0], x);
    }
  }

  lemma StartPaid(cfg: Config, s: State, x: string)
    requires CostStart(cfg, s, x)
    ensures Paid(cfg, s, x, 0, 0)
  {
    StartBase(cfg, s, x);
  }

  lemma AllButOne(cfg: Config, s: State, x: string)
    requires Inv(cfg, s) && x in cfg
    ensures |AllReached(cfg, s, x)| <= |cfg| - 1
  {
    hide Exact, Genuine;
    forall n | n in cfg && Reached(s, n, x) ensures n in cfg.Keys - {x} {
      if w :| w in s.work && w.Checked? && w.at == n && Subject(w) == x {
        CheckedApart(cfg, s, w);
      }
    }
    Subsets(AllReached(cfg, s, x), cfg.Keys - {x});
    assert |cfg.Keys - {x}| == |cfg| - 1;
  }

  /** Without races and removals among N nodes, a node is broadcast at most once for each request and
      for each other node but one, and each broadcast sends N - 2 messages at most. Who knew it
      before, and who handshakes with it, is left open. */
  lemma RaceFreeCost(cfg: Config, states: seq<State>, events: seq<Event>, x: string)
    requires CostRun(cfg, states, events, x) && RaceFreeRun(cfg, states, events, x) && x in cfg
    ensures var asked, cast := Count(Asks(None, x), states, events, |events|), Count(Casts(cfg, None, x), states, events, |events|);
            && cast <= (if asked == 0 then 0 else |cfg| - 2 + asked)
            && SentAbout(states[|events|].sent, x) <= cast * Fanout(cfg)
  {
    hide ValidConfig, Inv, Enabled, CostEvent, Next, Asks, Casts, RaceFreeRun, CostStart, Total, AllReached;
    RunKeepsPaid(cfg, states, events, x, |events|);
    RunKeepsBase(cfg, states, events, x, |events|);
    AllButOne(cfg, states[|events|], x);
  }

  // ---- One handshake without races ---------------------------------------------------------------------------

  /** Whoever was asked was asked by a handshake of `x`. */
  ghost predicate OnlyHandshakes(states: seq<State>, events: seq<Event>, x: string)
    requires |events| < |states|
  {
    forall i | 0 <= i < |events| && Asks(None, x)(states[i], events[i]) :: states[i].work[events[i].i].HelloRegistered?
  }

  lemma AskedHere(s: State, e: Event, n: string, x: string)
    requires Asks(Some(n), x)(s, e)
    ensures Asks(None, x)(s, e) && e.Step? && e.i < |s.work| && s.work[e.i].at == n && Subject(s.work[e.i]) == x
  {
    hide Knows;
  }

  lemma PassedHere(cfg: Config, s: State, e: Event, n: string, x: string)
    requires Passes(cfg, Some(n), x)(s, e)
    ensures Passes(cfg, None, x)(s, e)
  {
    hide Knows, NodeAt;
  }

  lemma {:induction false} ReachedOnce(cfg: Config, states: seq<State>, events: seq<Event>, x: string, n: string, k: nat)
    requires CostRun(cfg, states, events, x) && RaceFree(cfg, states, events, n, x) && OnlyHandshakes(states, events, x) && k <= |events|
    requires Count(Asks(None, x), states, events, k) <= 1
    ensures Count(Passes(cfg, Some(n), x), states, events, k) + Count(Asks(Some(n), x), states, events, k) <= One(Reached(states[k], n, x))
    ensures Count(Asks(None, x), states, events, k) == 0 ==>
              Count(Passes(cfg, Some(n), x), states, events, k) + Count(Asks(Some(n), x), states, events, k) == 0
  {
    hide ValidConfig, Inv, Enabled, CostEvent, Next, Asks, Casts, Passes, Knows, CostStart, PastCheck, HandlersKnow, GossipKnown, NotSelf, NothingSpreads;
    if k > 0 {
      var s, e := states[k - 1], events[k - 1];
      ReachedOnce(cfg, states, events, x, n, k - 1);
      RunKeepsBase(cfg, states, events, x, k - 1);
      NotLeaving(cfg, s, e, x);
      NobodyForgets(cfg, s, e);
      PastStep(cfg, s, e, n, x);
      AtMostOneKind(cfg, s, e, x);
      var asked := Count(Asks(None, x), states, events, k - 1);
      if asked == 0 {
        StepBeforeAsked(cfg, s, e, x);
      }
      if Passes(cfg, Some(n), x)(s, e) {
        PassedHere(cfg, s, e, n, x);
      }
      if Asks(Some(n), x)(s, e) {
        AskedHere(s, e, n, x);
        GreetedKnowsFirst(cfg, s, e, x, asked, Count(Casts(cfg, None, x), states, events, k - 1));
      }
    }
  }

  lemma GreetedKnowsFirst(cfg: Config, s: State, e: Event, x: string, asked: nat, cast: nat)
    requires Base(cfg, s, x, asked, cast) && e.Step? && e.i < |s.work| && s.work[e.i].HelloRegistered? && Subject(s.work[e.i]) == x
    ensures Knows(s.dirs, s.work[e.i].at, x)
  {
    hide Knows;
    assert ToBroadcast(s.work[e.i]);
  }

  /** One handshake of a newcomer among N nodes, and no races: each node broadcasts the newcomer at
      most once, and at most (N - 1)(N - 2) messages go out about it. */
  lemma OneHandshakeCosts(cfg: Config, states: seq<State>, events: seq<Event>, x: string)
    requires CostRun(cfg, states, events, x) && RaceFreeRun(cfg, states, events, x) && x in cfg
    requires Count(Asks(None, x), states, events, |events|) <= 1 && OnlyHandshakes(states, events, x)
    ensures forall n :: states[|events|].casts[(n, x)] <= states[0].casts[(n, x)] + 1
    ensures SentAbout(states[|events|].sent, x) <= (|cfg| - 1) * (|cfg| - 2)
  {
    hide ValidConfig, Inv, CostStart, CostEvent, Enabled, Next, Asks, Passes, Casts, Total, Reached, RaceFree;
    forall n ensures states[|events|].casts[(n, x)] <= states[0].casts[(n, x)] + 1 {
      assert RaceFree(cfg, states, events, n, x);
      ReachedOnce(cfg, states, events, x, n, |events|);
      BroadcastsExactly(cfg, states, events, |events|, n, x);
      StartOwesNothing(cfg, states[0], n, x);
    }
    RaceFreeCost(cfg, states, events, x);
    assert |cfg| >= 1;
    var cast := Count(Casts(cfg, None, x), states, events, |events|);
    if |cfg| >= 2 {
      NotFewer(cast, |cfg| - 1, |cfg| - 2, cast * Fanout(cfg));
    }
  }

  lemma StartOwesNothing(cfg: Config, s: State, n: string, x: string)
    requires CostStart(cfg, s, x)
    ensures Total(Owes(Some(n), x), s.work) == 0
  {
    NothingOwed(s.work, Some(n), x);
  }
}
