/** The worst case of the flood: handlers that race at will make the broadcasts of a newcomer double at
    most with every node that comes to know it, and no further. */
module FloodWorst {
  import opened Types
  import opened Relay
  import opened Directory
  import opened Network
  import opened FloodTermination
  import opened FloodCoverage
  import opened FloodAccounts
  import opened FloodCost

  function Pow2(n: nat): (p: nat)
    ensures p >= 1
  {
    if n == 0 then 1 else 2 * Pow2(n - 1)
  }

  lemma {:induction false} Pow2Grows(a: nat, b: nat)
    requires a <= b
    ensures Pow2(a) <= Pow2(b)
    decreases b
  {
    if a < b {
      Pow2Grows(a, b - 1);
    }
  }

  // ---- What the knowers owe -------------------------------------------------------------------------------

  /** A handler that will broadcast `x`; one past the check counts once its node knows. */
  ghost predicate OwedBy(dirs: Dirs, w: Work, x: string) {
    Subject(w) == x && (w.Announce? || w.Broadcast? || (w.Checked? && Knows(dirs, w.at, x)))
  }

  ghost function Owed(dirs: Dirs, x: string): Work -> nat {
    w => if OwedBy(dirs, w, x) then 1 else 0
  }

  ghost function PastAt(m: string, x: string): Work -> nat {
    (w: Work) => if w.Checked? && w.at == m && Subject(w) == x then 1 else 0
  }

  lemma {:induction false} TotalSum(f: Work -> nat, g: Work -> nat, h: Work -> nat, work: seq<Work>)
    requires forall w | w in work :: f(w) == g(w) + h(w)
    ensures Total(f, work) == Total(g, work) + Total(h, work)
  {
    if work != [] {
      TotalSum(f, g, h, work[..|work| - 1]);
    }
  }

  lemma {:induction false} TotalLess(f: Work -> nat, g: Work -> nat, work: seq<Work>)
    requires forall w | w in work :: f(w) <= g(w)
    ensures Total(f, work) <= Total(g, work)
  {
    if work != [] {
      TotalLess(f, g, work[..|work| - 1]);
    }
  }

  /** Who, if anybody, comes to know `x` in a step. */
  lemma NewKnower(cfg: Config, s: State, e: Event, x: string) returns (m: Option<string>)
    requires ValidConfig(cfg) && Inv(cfg, s) && Enabled(cfg, s, e) && !e.Leave?
    ensures var t := Next(cfg, s, e);
            && (forall n | Some(n) != m :: Knows(t.dirs, n, x) == Knows(s.dirs, n, x))
            && (m.Some? ==> m.value in cfg && !Knows(s.dirs, m.value, x) && Knows(t.dirs, m.value, x) && e.Step?
                            && (s.work[e.i].Hello? || s.work[e.i].Reply? || s.work[e.i].Checked? || s.work[e.i].AutoConnect?))
  {
    hide ValidConfig, DirOk, WorkOk, Effect, Knows, NodeAt, Records, SelfInfo, Apply;
    NobodyForgets(cfg, s, e);
    var t := Next(cfg, s, e);
    m := None;
    if n :| Knows(t.dirs, n, x) && !Knows(s.dirs, n, x) {
      m := Some(n);
      if e.Step? {
        ItemWorks(cfg, s, e.i);
        EffectLearns(cfg, s.dirs, s.work[e.i], e.ok);
        KnowersReal(cfg, t, n, x) by { NextKeepsInv(cfg, s, e); }
      } else {
        OutsideWork(cfg, s, e);
      }
    }
  }

  lemma KnowersReal(cfg: Config, s: State, n: string, x: string)
    requires Inv(cfg, s) && Knows(s.dirs, n, x)
    ensures n in cfg && x in cfg && n != x
  {
    hide Exact;
  }

  lemma ProducedOwed(cfg: Config, dirs: Dirs, w: Work, ok: bool, x: string)
    requires ValidConfig(cfg) && DirsOk(cfg, dirs) && WorkOk(cfg, w)
    ensures One(CastsItem(cfg, w, None, x)) + Total(Owed(dirs, x), Effect(cfg, dirs, w, ok).1) <=
            Owed(dirs, x)(w) + One(AsksItem(dirs, w, None, x)) + One(w.Checked? && Subject(w) == x && !Knows(dirs, w.at, x))
  {
    hide ValidConfig, DirOk, Effect, Total, NodeAt, Knows, Casting, AsksItem;
    var produced := Effect(cfg, dirs, w, ok).1;
    if w.Notify? {
      forall v | v in produced ensures Owed(dirs, x)(v) == 0 {
        Descent(cfg, dirs, w, ok, v);
      }
      TotalZero(Owed(dirs, x), produced);
      NotCasting(cfg, w);
    } else {
      forall v | v in produced ensures Owed(dirs, x)(v) == Owes(None, x)(v) {
        Descent(cfg, dirs, w, ok, v);
      }
      TotalFrame(Owed(dirs, x), Owes(None, x), produced);
      ItemAccount(cfg, dirs, w, ok, None, x);
    }
  }

  lemma NotCasting(cfg: Config, w: Work)
    requires !w.Broadcast?
    ensures !Casting(cfg, w)
  {
  }

  lemma ProducedPast(cfg: Config, dirs: Dirs, w: Work, ok: bool, m: string, x: string)
    requires ValidConfig(cfg) && DirsOk(cfg, dirs) && WorkOk(cfg, w) && !w.Notify?
    ensures Total(PastAt(m, x), Effect(cfg, dirs, w, ok).1) == 0
  {
    hide ValidConfig, DirOk, Effect, Total, NodeAt, Knows;
    var produced := Effect(cfg, dirs, w, ok).1;
    forall v | v in produced ensures !v.Checked? {
      Descent(cfg, dirs, w, ok, v);
    }
    TotalZero(PastAt(m, x), produced);
  }

  /** What the knowers owe grows by the requests, and by what stands past the check at a new knower. */
  lemma OwedStep(cfg: Config, s: State, e: Event, x: string, m: Option<string>)
    requires ValidConfig(cfg) && Inv(cfg, s) && Enabled(cfg, s, e) && e.Step?
    requires forall n | Some(n) != m :: Knows(Next(cfg, s, e).dirs, n, x) == Knows(s.dirs, n, x)
    requires m.Some? ==> !Knows(s.dirs, m.value, x) && Knows(Next(cfg, s, e).dirs, m.value, x) && !s.work[e.i].Notify?
    ensures One(Casts(cfg, None, x)(s, e)) + Total(Owed(Next(cfg, s, e).dirs, x), Next(cfg, s, e).work) <=
            Total(Owed(s.dirs, x), s.work) + One(Asks(None, x)(s, e)) + (if m.Some? then Total(PastAt(m.value, x), s.work) else 0)
  {
    hide ValidConfig, DirOk, WorkOk, Effect, Total, Knows, Replace, CastsItem, AsksItem;
    var t, w := Next(cfg, s, e), s.work[e.i];
    ItemWorks(cfg, s, e.i);
    var produced := Effect(cfg, s.dirs, w, e.ok).1;
    ProducedOwed(cfg, s.dirs, w, e.ok, x);
    TotalReplace(Owed(s.dirs, x), s.work, e.i, produced);
    if w.Checked? && Subject(w) == x {
      CheckedTeaches(cfg, s.dirs, w, e.ok);
    }
    if m.Some? {
      ProducedPast(cfg, s.dirs, w, e.ok, m.value, x);
      TotalReplace(PastAt(m.value, x), s.work, e.i, produced);
      TotalSum(Owed(t.dirs, x), Owed(s.dirs, x), PastAt(m.value, x), t.work);
    } else {
      TotalFrame(Owed(t.dirs, x), Owed(s.dirs, x), t.work);
    }
  }

  lemma OutsideOwed(cfg: Config, s: State, e: Event, x: string)
    requires ValidConfig(cfg) && Inv(cfg, s) && Enabled(cfg, s, e) && !e.Step? && !e.Leave?
    ensures Total(Owed(Next(cfg, s, e).dirs, x), Next(cfg, s, e).work) == Total(Owed(s.dirs, x), s.work)
    ensures forall m | m in cfg :: Total(Toward(cfg, m, x), Next(cfg, s, e).work) <= Total(Toward(cfg, m, x), s.work)
  {
    hide ValidConfig, Inv, Next, Enabled, Total, Knows, AddrText;
    OutsideWork(cfg, s, e);
    var t := Next(cfg, s, e);
    TotalFrame(Owed(t.dirs, x), Owed(s.dirs, x), t.work);
    OutsideTotal(cfg, s, e, Owed(s.dirs, x));
    forall m | m in cfg ensures Total(Toward(cfg, m, x), t.work) <= Total(Toward(cfg, m, x), s.work) {
      OutsideTotal(cfg, s, e, Toward(cfg, m, x));
    }
  }

  // ---- What comes to a node that does not know ---------------------------------------------------------------

  lemma ProducedToward(cfg: Config, dirs: Dirs, w: Work, ok: bool, m: string, x: string)
    requires ValidConfig(cfg) && DirsOk(cfg, dirs) && WorkOk(cfg, w) && m in cfg
    ensures Total(Toward(cfg, m, x), Effect(cfg, dirs, w, ok).1) <= Toward(cfg, m, x)(w) + One(CastsItem(cfg, w, None, x))
  {
    hide ValidConfig, DirOk, Effect, Total, NodeAt, Knows, AddrText, JoinInfo;
    var produced := Effect(cfg, dirs, w, ok).1;
    if w.Broadcast? && Subject(w) == x {
      SentToward(cfg, dirs, w, ok, m, x);
    } else if w.Notify? {
      PassedToward(cfg, dirs, w, ok, m, x);
    } else {
      forall v | v in produced ensures Toward(cfg, m, x)(v) == 0 {
        Descent(cfg, dirs, w, ok, v);
      }
      TotalZero(Toward(cfg, m, x), produced);
    }
  }

  lemma SentToward(cfg: Config, dirs: Dirs, w: Work, ok: bool, m: string, x: string)
    requires ValidConfig(cfg) && DirsOk(cfg, dirs) && WorkOk(cfg, w) && m in cfg && w.Broadcast? && Subject(w) == x
    ensures Total(Toward(cfg, m, x), Effect(cfg, dirs, w, ok).1) <= 1 && CastsItem(cfg, w, None, x)
  {
    hide ValidConfig, Exact, Total, AddrText, JoinInfo, Messages, Genuine;
    RebuiltGenuine(cfg, w.what, w.at);
    OneEach(cfg, w.at, dirs[w.at], dirs[w.at].order, x, JoinInfo(w.what).value, m, x);
  }

  lemma PassedToward(cfg: Config, dirs: Dirs, w: Work, ok: bool, m: string, x: string)
    requires ValidConfig(cfg) && DirsOk(cfg, dirs) && WorkOk(cfg, w) && m in cfg && w.Notify?
    ensures Total(Toward(cfg, m, x), Effect(cfg, dirs, w, ok).1) <= Toward(cfg, m, x)(w)
  {
    hide ValidConfig, DirOk, Effect, NodeAt, Knows, AddrText, Genuine;
    NoticeOwes(cfg, dirs, w, ok, None, Subject(w));
    TotalNone(Toward(cfg, m, x));
    if PassesItem(cfg, dirs, w, None, Subject(w)) {
      NodeAtIsReal(cfg, w.to);
      TotalOne(Toward(cfg, m, x), Checked(NodeAt(cfg, w.to).value, w.info));
    }
  }

  lemma TowardStep(cfg: Config, s: State, e: Event, m: string, x: string)
    requires ValidConfig(cfg) && Inv(cfg, s) && Enabled(cfg, s, e) && !e.Leave? && m in cfg
    ensures Total(Toward(cfg, m, x), Next(cfg, s, e).work) <= Total(Toward(cfg, m, x), s.work) + One(Casts(cfg, None, x)(s, e))
  {
    hide ValidConfig, DirOk, WorkOk, Effect, Total, Knows, AddrText, Records, SelfInfo, CastsItem;
    if e.Step? {
      ItemWorks(cfg, s, e.i);
      ProducedToward(cfg, s.dirs, s.work[e.i], e.ok, m, x);
      TotalReplace(Toward(cfg, m, x), s.work, e.i, Effect(cfg, s.dirs, s.work[e.i], e.ok).1);
    } else {
      OutsideOwed(cfg, s, e, x);
    }
  }

  // ---- The invariant ------------------------------------------------------------------------------------------

  ghost function Knowers(cfg: Config, dirs: Dirs, x: string): set<string> {
    set n | n in cfg && Knows(dirs, n, x)
  }

  /** A node that does not know has at most one notice to come for each broadcast made. */
  ghost predicate FewToward(cfg: Config, s: State, x: string, cast: nat) {
    forall m | m in cfg && !Knows(s.dirs, m, x) :: Total(Toward(cfg, m, x), s.work) <= cast
  }

  /** What the knowers have broadcast and owe has at most doubled with each of them but the first. */
  ghost predicate Doubled(cfg: Config, s: State, x: string, asked: nat, cast: nat) {
    asked > 0 ==> Knowers(cfg, s.dirs, x) != {} &&
                  cast + Total(Owed(s.dirs, x), s.work) <= asked * Pow2(|Knowers(cfg, s.dirs, x)| - 1)
  }

  lemma KeepsFewToward(cfg: Config, s: State, e: Event, x: string, cast: nat)
    requires ValidConfig(cfg) && Inv(cfg, s) && Enabled(cfg, s, e) && !e.Leave? && FewToward(cfg, s, x, cast)
    ensures FewToward(cfg, Next(cfg, s, e), x, cast + One(Casts(cfg, None, x)(s, e)))
  {
    hide ValidConfig, Inv, Enabled, Next, Total, Knows, Casts, Toward;
    NobodyForgets(cfg, s, e);
    forall m | m in cfg && !Knows(Next(cfg, s, e).dirs, m, x)
      ensures Total(Toward(cfg, m, x), Next(cfg, s, e).work) <= cast + One(Casts(cfg, None, x)(s, e)) {
      TowardStep(cfg, s, e, m, x);
    }
  }

  /** One more knower doubles what is owed at most, one more request adds one. */
  lemma Doubling(asked: nat, ask: nat, k: nat, owed: nat, owed': nat, learnt: bool)
    requires k >= 1 && owed <= asked * Pow2(k - 1)
    requires if learnt then ask == 0 && owed' <= 2 * owed else owed' <= owed + ask
    ensures owed' <= (asked + ask) * Pow2(k + One(learnt) - 1)
  {
    if learnt {
      assert asked * Pow2(k) == asked * (2 * Pow2(k - 1)) == 2 * (asked * Pow2(k - 1));
    } else {
      assert (asked + ask) * Pow2(k - 1) == asked * Pow2(k - 1) + ask * Pow2(k - 1);
      assert ask * Pow2(k - 1) >= ask * 1;
    }
  }

  lemma PastIsToward(cfg: Config, s: State, m: string, x: string)
    requires m in cfg
    ensures Total(PastAt(m, x), s.work) <= Total(Toward(cfg, m, x), s.work)
  {
    TotalLess(PastAt(m, x), Toward(cfg, m, x), s.work);
  }

  lemma NothingSpread(s: State, x: string)
    requires NothingSpreads(s.work, x)
    ensures Total(Owed(s.dirs, x), s.work) == 0
  {
    TotalZero(Owed(s.dirs, x), s.work);
  }

  lemma OwedGrows(cfg: Config, s: State, e: Event, x: string, m: Option<string>)
    requires ValidConfig(cfg) && Inv(cfg, s) && Enabled(cfg, s, e) && !e.Leave?
    requires forall n | Some(n) != m :: Knows(Next(cfg, s, e).dirs, n, x) == Knows(s.dirs, n, x)
    requires m.Some? ==> m.value in cfg && !Knows(s.dirs, m.value, x) && Knows(Next(cfg, s, e).dirs, m.value, x) && e.Step?
                         && (s.work[e.i].Hello? || s.work[e.i].Reply? || s.work[e.i].Checked? || s.work[e.i].AutoConnect?)
    ensures One(Casts(cfg, None, x)(s, e)) + Total(Owed(Next(cfg, s, e).dirs, x), Next(cfg, s, e).work) <=
            Total(Owed(s.dirs, x), s.work) + One(Asks(None, x)(s, e)) + (if m.Some? then Total(Toward(cfg, m.value, x), s.work) else 0)
    ensures m.Some? ==> !Asks(None, x)(s, e) && !Casts(cfg, None, x)(s, e)
  {
    hide ValidConfig, Inv, Next, Total, Knows, Toward, Casting, JoinInfo;
    if e.Step? {
      OwedStep(cfg, s, e, x, m);
      if m.Some? {
        PastIsToward(cfg, s, m.value, x);
        NotCasting(cfg, s.work[e.i]);
      }
    } else {
      OutsideOwed(cfg, s, e, x);
    }
  }

  lemma KnowersStep(cfg: Config, s: State, t: State, x: string, m: Option<string>)
    requires forall n | Some(n) != m :: Knows(t.dirs, n, x) == Knows(s.dirs, n, x)
    requires m.Some? ==> m.value in cfg && !Knows(s.dirs, m.value, x) && Knows(t.dirs, m.value, x)
    ensures |Knowers(cfg, t.dirs, x)| == |Knowers(cfg, s.dirs, x)| + One(m.Some?)
    ensures SomebodyKnows(cfg, s.dirs, x) ==> Knowers(cfg, s.dirs, x) != {}
  {
    hide Knows;
    if m.Some? {
      assert Knowers(cfg, t.dirs, x) == Knowers(cfg, s.dirs, x) + {m.value};
    } else {
      assert Knowers(cfg, t.dirs, x) == Knowers(cfg, s.dirs, x);
    }
    if n :| n in cfg && Knows(s.dirs, n, x) {
      assert n in Knowers(cfg, s.dirs, x);
    }
  }

  lemma KeepsDoubled(cfg: Config, s: State, e: Event, x: string, asked: nat, cast: nat)
    requires ValidConfig(cfg) && Inv(cfg, s) && Enabled(cfg, s, e) && CostEvent(cfg, s, e, x)
    requires Base(cfg, s, x, asked, cast) && FewToward(cfg, s, x, cast) && Doubled(cfg, s, x, asked, cast)
    ensures Doubled(cfg, Next(cfg, s, e), x, asked + One(Asks(None, x)(s, e)), cast + One(Casts(cfg, None, x)(s, e)))
  {
    hide ValidConfig, Inv, Enabled, Next, Total, Knows, Casts, Asks, Toward, HandlersKnow, GossipKnown, NotSelf, NothingSpreads, Pow2, Knowers, SomebodyKnows;
    NotLeaving(cfg, s, e, x);
    var m := NewKnower(cfg, s, e, x);
    OwedGrows(cfg, s, e, x, m);
    KnowersStep(cfg, s, Next(cfg, s, e), x, m);
    var k, ask := |Knowers(cfg, s.dirs, x)|, One(Asks(None, x)(s, e));
    var owed := cast + Total(Owed(s.dirs, x), s.work);
    if asked == 0 {
      NothingSpread(s, x);
      StepBeforeAsked(cfg, s, e, x);
      if ask > 0 {
        AskedMeansKnown(cfg, s, e, x, asked, cast);
      }
    }
    if asked + ask > 0 {
      var t := Next(cfg, s, e);
      Doubling(asked, ask, k, owed, cast + One(Casts(cfg, None, x)(s, e)) + Total(Owed(t.dirs, x), t.work), m.Some?);
    }
  }

  lemma {:induction false} RunKeepsDoubled(cfg: Config, states: seq<State>, events: seq<Event>, x: string, k: nat)
    requires CostRun(cfg, states, events, x) && k <= |events|
    ensures FewToward(cfg, states[k], x, Count(Casts(cfg, None, x), states, events, k))
    ensures Doubled(cfg, states[k], x, Count(Asks(None, x), states, events, k), Count(Casts(cfg, None, x), states, events, k))
  {
    hide ValidConfig, Inv, Enabled, CostEvent, Next, Asks, Casts, Base, FewToward, Doubled, CostStart;
    if k > 0 {
      var s, e := states[k - 1], events[k - 1];
      var asked, cast := Count(Asks(None, x), states, events, k - 1), Count(Casts(cfg, None, x), states, events, k - 1);
      RunKeepsDoubled(cfg, states, events, x, k - 1);
      RunKeepsBase(cfg, states, events, x, k - 1);
      NotLeaving(cfg, s, e, x);
      KeepsFewToward(cfg, s, e, x, cast);
      KeepsDoubled(cfg, s, e, x, asked, cast);
    } else {
      StartDoubled(cfg, states[0], x);
    }
  }

  lemma StartDoubled(cfg: Config, s: State, x: string)
    requires CostStart(cfg, s, x)
    ensures FewToward(cfg, s, x, 0) && Doubled(cfg, s, x, 0, 0)
  {
    hide AddrText, Knows;
    forall m | m in cfg ensures Total(Toward(cfg, m, x), s.work) == 0 {
      TotalZero(Toward(cfg, m, x), s.work);
    }
  }

  /** Whatever races: among N nodes and without removals, a node is broadcast at most 2^(N-2) times for
      each request about it, and each broadcast sends N - 2 messages at most. */
  lemma WorstCost(cfg: Config, states: seq<State>, events: seq<Event>, x: string)
    requires CostRun(cfg, states, events, x) && x in cfg
    ensures var asked, cast := Count(Asks(None, x), states, events, |events|), Count(Casts(cfg, None, x), states, events, |events|);
            && cast <= asked * Pow2(Fanout(cfg))
            && SentAbout(states[|events|].sent, x) <= cast * Fanout(cfg)
  {
    hide ValidConfig, Inv, Enabled, CostEvent, Next, Asks, Casts, CostStart, FewToward, Doubled, HandlersKnow, GossipKnown, NotSelf, NothingSpreads;
    var asked, cast := Count(Asks(None, x), states, events, |events|), Count(Casts(cfg, None, x), states, events, |events|);
    RunKeepsDoubled(cfg, states, events, x, |events|);
    RunKeepsBase(cfg, states, events, x, |events|);
    DoubledBound(cfg, states[|events|], x, asked, cast);
  }

  lemma DoubledBound(cfg: Config, s: State, x: string, asked: nat, cast: nat)
    requires Inv(cfg, s) && x in cfg && Base(cfg, s, x, asked, cast) && Doubled(cfg, s, x, asked, cast)
    ensures cast <= asked * Pow2(Fanout(cfg))
  {
    hide Inv, Total, Pow2, Knowers, HandlersKnow, GossipKnown, NotSelf, NothingSpreads;
    var k := |Knowers(cfg, s.dirs, x)|;
    KnowersBut(cfg, s, x);
    if asked > 0 {
      Pow2Grows(k - 1, Fanout(cfg));
      assert asked * Pow2(k - 1) <= asked * Pow2(Fanout(cfg));
    }
  }

  lemma KnowersBut(cfg: Config, s: State, x: string)
    requires Inv(cfg, s) && x in cfg
    ensures |Knowers(cfg, s.dirs, x)| <= |cfg| - 1
  {
    hide DirOk, AllOk;
    forall n | n in cfg && Knows(s.dirs, n, x) ensures n in cfg.Keys - {x} {
      KnowersReal(cfg, s, n, x);
    }
    Subsets(Knowers(cfg, s.dirs, x), cfg.Keys - {x});
    assert |cfg.Keys - {x}| == |cfg| - 1;
  }
}
