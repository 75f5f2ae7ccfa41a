/** The join flood stops under every interleaving. Only the existence check breaks the relay
    loop, and it is not atomic with the registration, so several handlers at one node may all
    announce the same newcomer; the measure below still falls at every internal step. */
module FloodTermination {
  import opened Types
  import opened Relay
  import opened Directory
  import opened Network

  // ---- Sums over the items of work ------------------------------------------------------------

  ghost function Total(f: Work -> nat, work: seq<Work>): nat {
    if work == [] then 0 else Total(f, work[..|work| - 1]) + f(work[|work| - 1])
  }

  lemma {:induction false} TotalConcat(f: Work -> nat, a: seq<Work>, b: seq<Work>)
    ensures Total(f, a + b) == Total(f, a) + Total(f, b)
  {
    if b == [] {
      assert a + b == a;
    } else {
      assert (a + b)[..|a + b| - 1] == a + b[..|b| - 1];
      TotalConcat(f, a, b[..|b| - 1]);
    }
  }

  lemma TotalReplace(f: Work -> nat, work: seq<Work>, i: nat, produced: seq<Work>)
    requires i < |work|
    ensures Total(f, Replace(work, i, produced)) == Total(f, work) - f(work[i]) + Total(f, produced)
  {
    var a, b := work[..i], work[i + 1..];
    assert work == a + [work[i]] + b;
    TotalConcat(f, a + [work[i]], b);
    TotalConcat(f, a, [work[i]]);
    assert Total(f, [work[i]][..0]) == 0;
    TotalConcat(f, a + b, produced);
    TotalConcat(f, a, b);
  }

  lemma {:induction false} TotalFrame(f: Work -> nat, g: Work -> nat, work: seq<Work>)
    requires forall w | w in work :: f(w) == g(w)
    ensures Total(f, work) == Total(g, work)
  {
    if work != [] {
      TotalFrame(f, g, work[..|work| - 1]);
    }
  }

  lemma {:induction false} TotalZero(f: Work -> nat, work: seq<Work>)
    requires forall w | w in work :: f(w) == 0
    ensures Total(f, work) == 0
  {
    if work != [] {
      TotalZero(f, work[..|work| - 1]);
    }
  }

  // ---- The measure -------------------------------------------------------------------------

  /** Requests made from outside that are still to be answered. */
  function RequestWeight(w: Work): nat {
    match w
    case Hello(_, _, _) => 2
    case HelloRegistered(_, _, _) => 1
    case Gossip(_, _) => 1
    case _ => 0
  }

  /** Handlers past the check, by the steps they have left; one at a node that does not know the
      newcomer yet costs nothing, because its registration is paid for by that node's ignorance. */
  function HandlerWeight(dirs: Dirs, w: Work): nat {
    match w
    case Checked(n, info) => if Knows(dirs, n, UuidOf(info)) then 4 else 0
    case Announce(_, _) => 3
    case Broadcast(_, _) => 1
    case AutoConnect(_, _) => 1
    case Reply(_, _) => 1
    case _ => 0
  }

  function MessageWeight(w: Work): nat {
    if w.Notify? then 1 else 0
  }

  function HandlerWeights(dirs: Dirs): Work -> nat {
    w => HandlerWeight(dirs, w)
  }

  /** Pairs (node, peer) of which the first does not know the second. */
  ghost function Ignorance(cfg: Config, dirs: Dirs): set<(string, string)> {
    set n, u | n in cfg && u in cfg && !Knows(dirs, n, u) :: (n, u)
  }

  datatype Measure = Measure(requests: nat, ignorance: nat, handlers: nat, messages: nat)

  ghost function MeasureOf(cfg: Config, s: State): Measure {
    Measure(Total(RequestWeight, s.work), |Ignorance(cfg, s.dirs)|,
            Total(HandlerWeights(s.dirs), s.work), Total(MessageWeight, s.work))
  }

  predicate Less(a: Measure, b: Measure) {
    || a.requests < b.requests
    || (a.requests == b.requests &&
        (|| a.ignorance < b.ignorance
         || (a.ignorance == b.ignorance &&
             (|| a.handlers < b.handlers
              || (a.handlers == b.handlers && a.messages < b.messages)))))
  }

  /** What happens inside the network, as opposed to what is asked of it from outside. */
  predicate Internal(e: Event) {
    e.Step? || e.Lose?
  }

  // ---- Registration and ignorance ----------------------------------------------------------

  lemma RegisteredKnows(cfg: Config, dirs: Dirs, n: string, p: NodeInfo)
    requires ValidConfig(cfg) && DirsOk(cfg, dirs) && n in cfg && Genuine(cfg, p)
    ensures forall m, u :: Knows(Registered(dirs, n, p), m, u) <==>
                           Knows(dirs, m, u) || (m == n && u == UuidOf(p) && u != n)
  {
    hide DirOk, Apply;
    RegisterOk(cfg, n, dirs[n], p);
  }

  /** A registration either teaches the node somebody new or changes no one's knowledge. */
  lemma RegisteredIgnorance(cfg: Config, dirs: Dirs, n: string, p: NodeInfo)
    requires ValidConfig(cfg) && DirsOk(cfg, dirs) && n in cfg && Genuine(cfg, p)
    ensures var dirs' := Registered(dirs, n, p);
            if UuidOf(p) != n && !Knows(dirs, n, UuidOf(p))
            then |Ignorance(cfg, dirs')| < |Ignorance(cfg, dirs)|
            else (forall m, u :: Knows(dirs', m, u) == Knows(dirs, m, u)) && Ignorance(cfg, dirs') == Ignorance(cfg, dirs)
  {
    hide DirOk, Registered, Knows, ValidConfig;
    RegisteredKnows(cfg, dirs, n, p);
    var dirs' := Registered(dirs, n, p);
    if UuidOf(p) != n && !Knows(dirs, n, UuidOf(p)) {
      assert Ignorance(cfg, dirs) == Ignorance(cfg, dirs') + {(n, UuidOf(p))};
      assert (n, UuidOf(p)) !in Ignorance(cfg, dirs');
    } else {
      assert Ignorance(cfg, dirs) == Ignorance(cfg, dirs');
    }
  }

  // ---- One internal step ----------------------------------------------------------------------

  /** What each kind of item does to the measure, apart from the rest of the work. */
  ghost predicate Pays(cfg: Config, dirs: Dirs, w: Work, dirs': Dirs, produced: seq<Work>) {
    || Total(RequestWeight, produced) < RequestWeight(w)
    || (Total(RequestWeight, produced) == RequestWeight(w) &&
        (|| |Ignorance(cfg, dirs')| < |Ignorance(cfg, dirs)|
         || ((forall m, u :: Knows(dirs', m, u) == Knows(dirs, m, u)) &&
             (|| Total(HandlerWeights(dirs), produced) < HandlerWeight(dirs, w)
              || (Total(HandlerWeights(dirs), produced) == HandlerWeight(dirs, w)
                  && Total(MessageWeight, produced) < MessageWeight(w))))))
  }

  lemma EmptyTotals(dirs: Dirs)
    ensures Total(RequestWeight, []) == Total(HandlerWeights(dirs), []) == Total(MessageWeight, []) == 0
  {
  }

  lemma TotalOne(f: Work -> nat, w: Work)
    ensures Total(f, [w]) == f(w)
  {
    assert [w][..0] == [];
  }

  lemma AnswerAsksNothing(cfg: Config, dirs: Dirs, w: Work, ok: bool)
    requires dirs.Keys == cfg.Keys && w.HelloRegistered?
    ensures Total(RequestWeight, Effect(cfg, dirs, w, ok).1) == 0
  {
    hide Records, AddrText, Discovered;
    TotalZero(RequestWeight, Effect(cfg, dirs, w, ok).1);
  }

  lemma CheckedPays(cfg: Config, dirs: Dirs, n: string, info: NodeInfo, ok: bool)
    requires ValidConfig(cfg) && DirsOk(cfg, dirs) && WorkOk(cfg, Checked(n, info))
    ensures var (dirs', produced) := Effect(cfg, dirs, Checked(n, info), ok);
            Pays(cfg, dirs, Checked(n, info), dirs', produced)
  {
    hide DirOk, Registered, ValidConfig, Discovered, Genuine, Ignorance, Knows;
    RegisteredIgnorance(cfg, dirs, n, info);
    var a := Announce(n, Discovered(info));
    TotalOne(RequestWeight, a);
    TotalOne(HandlerWeights(dirs), a);
  }

  lemma RegistrationPays(cfg: Config, dirs: Dirs, w: Work, n: string, p: NodeInfo)
    requires ValidConfig(cfg) && DirsOk(cfg, dirs) && n in cfg && Genuine(cfg, p)
    requires RequestWeight(w) == 0 && HandlerWeight(dirs, w) > 0
    ensures Pays(cfg, dirs, w, Registered(dirs, n, p), [])
  {
    hide DirOk, Registered, ValidConfig, Genuine, Ignorance, Knows, HandlerWeight;
    RegisteredIgnorance(cfg, dirs, n, p);
    EmptyTotals(dirs);
  }

  lemma BroadcastPays(cfg: Config, dirs: Dirs, n: string, what: Notification, ok: bool)
    requires dirs.Keys == cfg.Keys
    ensures var (dirs', produced) := Effect(cfg, dirs, Broadcast(n, what), ok);
            Pays(cfg, dirs, Broadcast(n, what), dirs', produced)
  {
    hide JoinInfo, Ignorance;
    var produced := Effect(cfg, dirs, Broadcast(n, what), ok).1;
    if n in cfg && what.PeerDiscovered? && JoinInfo(what).Some? {
      MessagesAreNotices(dirs[n], dirs[n].order, n, what.uuid, JoinInfo(what).value);
    }
    TotalZero(RequestWeight, produced);
    TotalZero(HandlerWeights(dirs), produced);
  }

  lemma AnnouncePays(cfg: Config, dirs: Dirs, n: string, what: Notification)
    ensures Pays(cfg, dirs, Announce(n, what), dirs, [Broadcast(n, what), AutoConnect(n, what)])
  {
    hide Ignorance;
    var b, a := Broadcast(n, what), AutoConnect(n, what);
    assert [b, a] == [b] + [a];
    TotalConcat(RequestWeight, [b], [a]);
    TotalConcat(HandlerWeights(dirs), [b], [a]);
    TotalOne(RequestWeight, b);
    TotalOne(RequestWeight, a);
    TotalOne(HandlerWeights(dirs), b);
    TotalOne(HandlerWeights(dirs), a);
  }

  lemma EffectPays(cfg: Config, dirs: Dirs, w: Work, ok: bool)
    requires ValidConfig(cfg) && DirsOk(cfg, dirs) && WorkOk(cfg, w)
    ensures var (dirs', produced) := Effect(cfg, dirs, w, ok);
            Pays(cfg, dirs, w, dirs', produced)
  {
    hide DirOk, ValidConfig, Genuine, GenuineNotice, Discovered, JoinInfo, AutoConnectInfo, Records, Messages,
         AddrText, Registered, NodeAt, Ignorance, Knows;
    EmptyTotals(dirs);
    match w
    case Hello(to, from, info) =>
      if NodeAt(cfg, to).Some? {
        TotalOne(RequestWeight, HelloRegistered(NodeAt(cfg, to).value, from, info));
      }
    case HelloRegistered(_, _, _) => AnswerAsksNothing(cfg, dirs, w, ok);
    case Reply(n, info) =>
      if ok { RegistrationPays(cfg, dirs, w, n, info); }
    case Notify(to, info) =>
      if NodeAt(cfg, to).Some? {
        var c := Checked(NodeAt(cfg, to).value, info);
        TotalOne(RequestWeight, c);
        TotalOne(HandlerWeights(dirs), c);
        TotalOne(MessageWeight, c);
        NotifyPays(cfg, dirs, w, ok);
      }
    case Checked(n, info) => CheckedPays(cfg, dirs, n, info, ok);
    case Announce(n, what) => AnnouncePays(cfg, dirs, n, what);
    case Broadcast(n, what) => BroadcastPays(cfg, dirs, n, what, ok);
    case AutoConnect(n, what) =>
      RebuiltGenuine(cfg, what, n);
      if ok && AutoConnectInfo(what, n, AddrText(cfg, n)).Some? {
        RegistrationPays(cfg, dirs, w, n, AutoConnectInfo(what, n, AddrText(cfg, n)).value);
      }
    case Gossip(n, info) => TotalOne(RequestWeight, Announce(n, Discovered(info)));
  }

  lemma NotifyPays(cfg: Config, dirs: Dirs, w: Work, ok: bool)
    requires dirs.Keys == cfg.Keys && w.Notify? && NodeAt(cfg, w.to).Some?
    ensures var produced := Effect(cfg, dirs, w, ok).1;
            produced == [] || (produced == [Checked(NodeAt(cfg, w.to).value, w.info)]
                               && !Knows(dirs, NodeAt(cfg, w.to).value, UuidOf(w.info)))
  {
  }

  /** Every internal step, of any handler, in any order, with messages lost or not, makes the
      measure smaller. */
  lemma InternalStepDecreases(cfg: Config, s: State, e: Event)
    requires ValidConfig(cfg) && Inv(cfg, s) && Enabled(cfg, s, e) && Internal(e)
    ensures Less(MeasureOf(cfg, Next(cfg, s, e)), MeasureOf(cfg, s))
  {
    hide DirOk, ValidConfig, WorkOk, Effect, Knows, Ignorance, Replace, HandlerWeight;
    match e
    case Lose(i) =>
      TotalReplace(RequestWeight, s.work, i, []);
      TotalReplace(HandlerWeights(s.dirs), s.work, i, []);
      TotalReplace(MessageWeight, s.work, i, []);
      EmptyTotals(s.dirs);
      LostWeighs(s.dirs, s.work[i]);
    case Step(i, ok) =>
      EffectPays(cfg, s.dirs, s.work[i], ok);
      var (dirs', produced) := Effect(cfg, s.dirs, s.work[i], ok);
      var work' := Replace(s.work, i, produced);
      TotalReplace(RequestWeight, s.work, i, produced);
      TotalReplace(HandlerWeights(s.dirs), s.work, i, produced);
      TotalReplace(MessageWeight, s.work, i, produced);
      if forall m, u :: Knows(dirs', m, u) == Knows(s.dirs, m, u) {
        SameKnowledge(cfg, s.dirs, dirs', work');
      }
  }

  lemma LostWeighs(dirs: Dirs, w: Work)
    requires w.Hello? || w.Reply? || w.Notify? || w.Gossip?
    ensures RequestWeight(w) + HandlerWeight(dirs, w) + MessageWeight(w) > 0
  {
  }

  lemma SameKnowledge(cfg: Config, dirs: Dirs, dirs': Dirs, work: seq<Work>)
    requires forall m, u :: Knows(dirs', m, u) == Knows(dirs, m, u)
    ensures Ignorance(cfg, dirs') == Ignorance(cfg, dirs)
    ensures Total(HandlerWeights(dirs'), work) == Total(HandlerWeights(dirs), work)
  {
    hide Knows;
    assert Ignorance(cfg, dirs') == Ignorance(cfg, dirs);
    TotalFrame(HandlerWeights(dirs'), HandlerWeights(dirs), work);
  }

  // ---- Whole runs ------------------------------------------------------------------------------

  ghost predicate Follows(cfg: Config, s: State, e: Event, s': State) {
    Enabled(cfg, s, e) && s' == Next(cfg, s, e)
  }

  /** Every state of an infinite run of the network starts well and follows from the last. */
  ghost predicate InfiniteRun(cfg: Config, states: nat -> State, events: nat -> Event) {
    Inv(cfg, states(0)) && forall i: nat :: Follows(cfg, states(i), events(i), states(i + 1))
  }

  lemma {:induction false} InfiniteRunInv(cfg: Config, states: nat -> State, events: nat -> Event, k: nat)
    requires ValidConfig(cfg) && InfiniteRun(cfg, states, events)
    ensures Inv(cfg, states(k))
  {
    hide Inv, ValidConfig;
    if k > 0 {
      InfiniteRunInv(cfg, states, events, k - 1);
      assert Follows(cfg, states(k - 1), events(k - 1), states(k));
      NextKeepsInv(cfg, states(k - 1), events(k - 1));
    }
  }

  /** The flood terminates: a run goes on for ever only if, for ever, something is asked of the
      network from outside (a handshake, a gossip round, a removal, a status change). */
  lemma {:induction false} FloodTerminates(cfg: Config, states: nat -> State, events: nat -> Event, k: nat) returns (i: nat)
    requires ValidConfig(cfg) && InfiniteRun(cfg, states, events)
    ensures i >= k && !Internal(events(i))
    decreases MeasureOf(cfg, states(k)).requests, MeasureOf(cfg, states(k)).ignorance,
              MeasureOf(cfg, states(k)).handlers, MeasureOf(cfg, states(k)).messages
  {
    hide Inv, ValidConfig, MeasureOf;
    if Internal(events(k)) {
      InfiniteRunInv(cfg, states, events, k);
      assert Follows(cfg, states(k), events(k), states(k + 1));
      InternalStepDecreases(cfg, states(k), events(k));
      i := FloodTerminates(cfg, states, events, k + 1);
    } else {
      i := k;
    }
  }

  lemma RunFrom(cfg: Config, s: State, e: Event, states: seq<State>, events: seq<Event>)
    requires Enabled(cfg, s, e) && IsRun(cfg, states, events) && states[0] == Next(cfg, s, e)
    ensures IsRun(cfg, [s] + states, [e] + events)
  {
    hide Enabled, Next;
    var all, es := [s] + states, [e] + events;
    forall i | 0 <= i < |es| ensures Enabled(cfg, all[i], es[i]) && all[i + 1] == Next(cfg, all[i], es[i]) {
      if i > 0 {
        assert all[i] == states[i - 1] && all[i + 1] == states[i] && es[i] == events[i - 1];
      }
    }
  }

  /** Nothing that is under way ever blocks: from every state the network can run dry by executing what
      is there and what comes of it, with nothing lost and nothing asked from outside. */
  lemma {:induction false} RunsDry(cfg: Config, s: State) returns (states: seq<State>, events: seq<Event>)
    requires ValidConfig(cfg) && Inv(cfg, s)
    ensures IsRun(cfg, states, events) && states[0] == s && states[|events|].work == []
    ensures forall e | e in events :: e.Step? && e.ok
    decreases MeasureOf(cfg, s).requests, MeasureOf(cfg, s).ignorance, MeasureOf(cfg, s).handlers, MeasureOf(cfg, s).messages
  {
    hide Inv, ValidConfig, MeasureOf, IsRun, Enabled, Next;
    if s.work == [] {
      states, events := [s], [];
      NoRun(cfg, s);
    } else {
      var e := Step(0, true);
      Ready(cfg, s);
      InternalStepDecreases(cfg, s, e);
      NextKeepsInv(cfg, s, e);
      var states', events' := RunsDry(cfg, Next(cfg, s, e));
      assert |states'| == |events'| + 1 by { RunLength(cfg, states', events'); }
      RunFrom(cfg, s, e, states', events');
      states, events := [s] + states', [e] + events';
    }
  }

  lemma NoRun(cfg: Config, s: State)
    ensures IsRun(cfg, [s], [])
  {
  }

  lemma Ready(cfg: Config, s: State)
    requires Inv(cfg, s) && s.work != []
    ensures Enabled(cfg, s, Step(0, true))
  {
  }

  lemma RunLength(cfg: Config, states: seq<State>, events: seq<Event>)
    requires IsRun(cfg, states, events)
    ensures |states| == |events| + 1
  {
  }
}
