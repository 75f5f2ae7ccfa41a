/** What the flood does not promise: two runs, from states the theorems start from, that show two of
    their hypotheses to be needed. One breaks coverage when a node that has to relay the newcomer
    first hears of it in a handshake answer, the other both cost bounds when handlers interleave. */
module FloodLimits {
  import opened Types
  import opened AddrCodec
  import opened Relay
  import opened Directory
  import opened Network
  import opened FloodCoverage
  import opened FloodAccounts
  import opened FloodCost
  import opened FloodWorst

  // ---- Building a run step by step ----------------------------------------------------------------------

  datatype Story = Story(states: seq<State>, events: seq<Event>)

  /** A run from `start`, each of whose events is of a permitted kind. */
  ghost predicate Tells(cfg: Config, ok: (State, Event) -> bool, start: State, r: Story) {
    && IsRun(cfg, r.states, r.events) && r.states[0] == start
    && forall i | 0 <= i < |r.events| :: ok(r.states[i], r.events[i])
  }

  /** So far, so many of the events have been of a kind that is counted, and this is the state. */
  ghost predicate Reaches(cfg: Config, ok: (State, Event) -> bool, kind: (State, Event) -> bool, start: State, r: Story, counted: nat, s: State) {
    && Tells(cfg, ok, start, r) && s == r.states[|r.states| - 1] && Inv(cfg, s)
    && Count(kind, r.states, r.events, |r.events|) == counted
  }

  ghost predicate Executed(cfg: Config, s: State, w: Work, others: seq<Work>, t: State) {
    s.dirs.Keys == cfg.Keys &&
    var (dirs, produced) := Effect(cfg, s.dirs, w, true);
    && t.dirs == dirs && t.work == others + produced
    && t.sent == (if w.Broadcast? && w.what.PeerDiscovered?
                  then s.sent[w.what.uuid := SentAbout(s.sent, w.what.uuid) + |produced|] else s.sent)
    && t.casts == (if Casting(cfg, w) then s.casts + multiset{(w.at, w.what.uuid)} else s.casts)
  }

  lemma ItemAt(front: seq<Work>, w: Work, rest: seq<Work>)
    ensures var work := front + [w] + rest;
            work[|front|] == w && work[..|front|] == front && work[|front| + 1..] == rest && w in work
  {
    var work := front + [w] + rest;
    assert work[|front|] == w;
  }

  lemma ExecutedBy(cfg: Config, s: State, front: seq<Work>, w: Work, rest: seq<Work>)
    requires s.dirs.Keys == cfg.Keys && s.work == front + [w] + rest
    ensures Enabled(cfg, s, Step(|front|, true)) && Executed(cfg, s, w, front + rest, Next(cfg, s, Step(|front|, true)))
  {
    hide Effect, Casting;
    ItemAt(front, w, rest);
  }

  /** The run goes on by executing one item, wherever it stands. */
  lemma Advance(cfg: Config, ok: (State, Event) -> bool, kind: (State, Event) -> bool, start: State, r: Story, counted: nat,
                s: State, front: seq<Work>, w: Work, rest: seq<Work>)
    returns (r': Story, t: State)
    requires ValidConfig(cfg) && Reaches(cfg, ok, kind, start, r, counted, s)
    requires s.work == front + [w] + rest && ok(s, Step(|front|, true))
    ensures Reaches(cfg, ok, kind, start, r', counted + (if kind(s, Step(|front|, true)) then 1 else 0), t)
    ensures Executed(cfg, s, w, front + rest, t) && WorkOk(cfg, w) && Inv(cfg, s)
  {
    hide ValidConfig, DirOk, AllOk, Effect, Executed, Enabled, Next;
    var e := Step(|front|, true);
    ExecutedBy(cfg, s, front, w, rest);
    NextKeepsInv(cfg, s, e);
    t := Next(cfg, s, e);
    r' := Story(r.states + [t], r.events + [e]);
    CountPrefix(kind, r, r', |r.events|);
    ItemOk(cfg, s, front, w, rest);
  }

  lemma ItemOk(cfg: Config, s: State, front: seq<Work>, w: Work, rest: seq<Work>)
    requires Inv(cfg, s) && s.work == front + [w] + rest
    ensures WorkOk(cfg, w)
  {
    hide WorkOk, DirOk;
    ItemAt(front, w, rest);
  }

  lemma {:induction false} CountPrefix(kind: (State, Event) -> bool, r: Story, t: Story, k: nat)
    requires k <= |r.events| < |r.states| && r.states <= t.states && r.events <= t.events && |t.events| < |t.states|
    ensures Count(kind, t.states, t.events, k) == Count(kind, r.states, r.events, k)
  {
    if k > 0 {
      CountPrefix(kind, r, t, k - 1);
    }
  }

  // ---- What single items do ------------------------------------------------------------------------------

  lemma HelloMet(cfg: Config, dirs: Dirs, n: string, from: string, info: NodeInfo)
    requires ValidConfig(cfg) && dirs.Keys == cfg.Keys && n in cfg && Genuine(cfg, info)
    ensures Effect(cfg, dirs, Hello(AddrText(cfg, n), from, info), true) == (Registered(dirs, n, info), [HelloRegistered(n, from, info)])
  {
    hide AddrText, NodeAt, Registered;
    NodeAtOwnAddress(cfg, n);
    ValidGenuine(cfg, info);
  }

  lemma NoticeMet(cfg: Config, dirs: Dirs, n: string, info: NodeInfo)
    requires ValidConfig(cfg) && dirs.Keys == cfg.Keys && n in cfg && Genuine(cfg, info) && UuidOf(info) != n
    ensures Effect(cfg, dirs, Notify(AddrText(cfg, n), info), true) ==
            (dirs, if Knows(dirs, n, UuidOf(info)) then [] else [Checked(n, info)])
  {
    hide AddrText, NodeAt;
    NodeAtOwnAddress(cfg, n);
    ValidGenuine(cfg, info);
  }

  /** Registering appends a newcomer to the order of registration and leaves the other nodes alone. */
  lemma Joins(cfg: Config, dirs: Dirs, n: string, p: NodeInfo)
    requires ValidConfig(cfg) && DirsOk(cfg, dirs) && n in cfg && Genuine(cfg, p) && UuidOf(p) != n
    ensures var dirs' := Registered(dirs, n, p);
            && dirs'[n].order == (if Knows(dirs, n, UuidOf(p)) then dirs[n].order else dirs[n].order + [UuidOf(p)])
            && Knows(dirs', n, UuidOf(p)) && (forall m | m in cfg && m != n :: dirs'[m] == dirs[m])
  {
    hide DirOk, AddNameAddr;
    ValidGenuine(cfg, p);
  }

  /** The newcomer's record and notification as the relay carries them. */
  ghost function Carried(cfg: Config, x: string): NodeInfo
    requires x in cfg
  {
    Rebuilt(x, cfg[x].name, cfg[x].addr)
  }

  ghost function Notice(cfg: Config, x: string): Notification
    requires x in cfg
  {
    PeerDiscovered(cfg[x].name, AddrText(cfg, x), x)
  }

  lemma NoticeOf(cfg: Config, x: string, n: string)
    requires ValidConfig(cfg) && x in cfg && n in cfg
    ensures Genuine(cfg, SelfInfo(cfg, x)) && Genuine(cfg, Carried(cfg, x)) && UuidOf(SelfInfo(cfg, x)) == UuidOf(Carried(cfg, x)) == x
    ensures Discovered(SelfInfo(cfg, x)) == Discovered(Carried(cfg, x)) == Notice(cfg, x)
    ensures JoinInfo(Notice(cfg, x)) == Some(Carried(cfg, x))
  {
    hide FormatNodeAddr, JoinInfo, AutoConnectInfo;
    GenuineFirstAddr(cfg, SelfInfo(cfg, x));
    GenuineFirstAddr(cfg, Carried(cfg, x));
    RebuiltGenuine(cfg, Notice(cfg, x), n);
  }

  // ---- Interleaved handlers break both bounds -------------------------------------------------------------

  /** Four nodes in all. */
  ghost predicate Four(cfg: Config, x: string, a: string, b: string, c: string) {
    ValidConfig(cfg) && cfg.Keys == {x, a, b, c} && Distinct([x, a, b, c])
  }

  /** No removal, no gossip, and no handshake of `x` with itself. */
  ghost function Permitted(cfg: Config, x: string): (State, Event) -> bool {
    (s: State, e: Event) => CostEvent(cfg, s, e, x) && e.Step? && e.i < |s.work| && !s.work[e.i].Gossip?
  }

  /** `n` has recorded `p` and `q`, and perhaps `x` after them. */
  predicate Among(dirs: Dirs, n: string, p: string, q: string, x: string) {
    n in dirs && (dirs[n].order == [p, q] || dirs[n].order == [p, q, x])
  }

  lemma Told(cfg: Config, n: string, d: Dir, p: string, q: string, x: string, info: NodeInfo)
    requires DirOk(cfg, n, d) && d.order == [p, q, x] && Distinct([n, p, q, x])
    ensures p in cfg && q in cfg
    ensures Messages(d, d.order, n, x, info) == [Notify(AddrText(cfg, p), info), Notify(AddrText(cfg, q), info)]
  {
    hide Exact, FormatNodeAddr, AddrText, FirstAddr, Genuine, Messages;
    assert [n, p, q, x][0] == n && [n, p, q, x][1] == p && [n, p, q, x][2] == q && [n, p, q, x][3] == x;
    assert p in d.order && q in d.order;
    GenuineFirstAddr(cfg, d.online[p]);
    GenuineFirstAddr(cfg, d.online[q]);
    MessagesOf(d, [], p, n, x, info);
    MessagesOf(d, [p], q, n, x, info);
    MessagesOf(d, [p, q], x, n, x, info);
    assert [] + [p] == [p] && [p] + [q] == [p, q] && [p, q] + [x] == [p, q, x];
    GenuineKeyed(cfg, d.online[p]);
    GenuineKeyed(cfg, d.online[q]);
  }

  lemma GenuineKeyed(cfg: Config, p: NodeInfo)
    requires Genuine(cfg, p)
    ensures UuidOf(p) in cfg
  {
  }

  lemma MessagesOf(d: Dir, order: seq<string>, u: string, n: string, x: string, info: NodeInfo)
    ensures Messages(d, [], n, x, info) == []
    ensures Messages(d, order + [u], n, x, info) ==
            Messages(d, order, n, x, info) +
            (if u in d.online && u != n && u != x && FirstAddr(d.online[u]).Some? then [Notify(FirstAddr(d.online[u]).value, info)] else [])
  {
    assert (order + [u])[..|order|] == order;
  }

  /** The race has come to state `s`, `asked` requests about `x` having been executed. */
  ghost predicate Race(cfg: Config, x: string, start: State, r: Story, asked: nat, s: State) {
    Reaches(cfg, Permitted(cfg, x), Asks(None, x), start, r, asked, s)
  }

  /** An item that is not a request may be executed at any time. */
  lemma RaceOn(cfg: Config, x: string, start: State, r: Story, asked: nat, s: State, front: seq<Work>, w: Work, rest: seq<Work>)
    returns (r': Story, t: State)
    requires ValidConfig(cfg) && Race(cfg, x, start, r, asked, s) && s.work == front + [w] + rest && !w.Hello? && !w.Gossip? && !w.HelloRegistered?
    ensures Race(cfg, x, start, r', asked, t) && Executed(cfg, s, w, front + rest, t) && WorkOk(cfg, w) && Inv(cfg, s)
  {
    hide ValidConfig, Inv, WorkOk, Executed, NodeAt, Reaches, Knows;
    ItemAt(front, w, rest);
    r', t := Advance(cfg, Permitted(cfg, x), Asks(None, x), start, r, asked, s, front, w, rest);
  }

  /** The two messages a broadcast of `x` by one of the others makes. */
  ghost function Two(cfg: Config, p: string, q: string, x: string): seq<Work>
    requires p in cfg && q in cfg && x in cfg
  {
    [Notify(AddrText(cfg, p), Carried(cfg, x)), Notify(AddrText(cfg, q), Carried(cfg, x))]
  }

  lemma AnnounceDone(cfg: Config, s: State, n: string, what: Notification, others: seq<Work>, t: State)
    requires Executed(cfg, s, Announce(n, what), others, t)
    ensures t == State(s.dirs, others + [Broadcast(n, what), AutoConnect(n, what)], s.sent, s.casts)
  {
  }

  lemma BroadcastDone(cfg: Config, s: State, n: string, x: string, p: string, q: string, others: seq<Work>, t: State)
    requires ValidConfig(cfg) && Inv(cfg, s) && x in cfg && n in cfg
    requires s.dirs[n].order == [p, q, x] && Distinct([n, p, q, x])
    ensures p in cfg && q in cfg
    ensures Executed(cfg, s, Broadcast(n, Notice(cfg, x)), others, t) ==>
              && t.dirs == s.dirs && t.work == others + Two(cfg, p, q, x)
              && SentAbout(t.sent, x) == SentAbout(s.sent, x) + 2 && t.casts == s.casts + multiset{(n, x)}
  {
    hide ValidConfig, DirOk, AllOk, AddrText, JoinInfo, Messages, Genuine;
    NoticeOf(cfg, x, n);
    Told(cfg, n, s.dirs[n], p, q, x, Carried(cfg, x));
  }

  /** An announcement at a node that has recorded the other three ends in two messages. */
  lemma Announced(cfg: Config, x: string, start: State, r: Story, asked: nat, s: State, front: seq<Work>, rest: seq<Work>,
                  n: string, p: string, q: string) returns (r': Story, t: State)
    requires ValidConfig(cfg) && x in cfg && n in cfg && Distinct([n, p, q, x]) && Race(cfg, x, start, r, asked, s)
    requires s.work == front + [Announce(n, Notice(cfg, x))] + rest && n in s.dirs && s.dirs[n].order == [p, q, x]
    ensures p in cfg && q in cfg && Race(cfg, x, start, r', asked, t) && t.dirs == s.dirs
    ensures t.work == front + rest + [AutoConnect(n, Notice(cfg, x))] + Two(cfg, p, q, x)
    ensures SentAbout(t.sent, x) == SentAbout(s.sent, x) + 2 && t.casts == s.casts + multiset{(n, x)}
  {
    hide ValidConfig, Inv, Race, Executed, Two, Notice, Distinct;
    var what := Notice(cfg, x);
    var r1, s1 := RaceOn(cfg, x, start, r, asked, s, front, Announce(n, what), rest);
    AnnounceDone(cfg, s, n, what, front + rest, s1);
    assert s1.work == front + rest + [Broadcast(n, what)] + [AutoConnect(n, what)];
    r', t := RaceOn(cfg, x, start, r1, asked, s1, front + rest, Broadcast(n, what), [AutoConnect(n, what)]);
    BroadcastDone(cfg, s1, n, x, p, q, front + rest + [AutoConnect(n, what)], t);
  }

  lemma CheckedDone(cfg: Config, s: State, n: string, x: string, p: string, q: string, others: seq<Work>, t: State)
    requires ValidConfig(cfg) && Inv(cfg, s) && x in cfg && n in cfg && Executed(cfg, s, Checked(n, Carried(cfg, x)), others, t)
    requires Among(s.dirs, n, p, q, x) && Distinct([n, p, q, x])
    ensures t.work == others + [Announce(n, Notice(cfg, x))] && t.sent == s.sent && t.casts == s.casts
    ensures t.dirs.Keys == cfg.Keys && t.dirs[n].order == [p, q, x] && (forall m | m in cfg && m != n :: t.dirs[m] == s.dirs[m])
  {
    hide ValidConfig, DirOk, AllOk, AddrText, Registered, Discovered, Genuine;
    assert [n, p, q, x][0] == n && [n, p, q, x][3] == x;
    NoticeOf(cfg, x, n);
    Joins(cfg, s.dirs, n, Carried(cfg, x));
    OrderKnows(cfg, n, s.dirs[n], p, q, x);
    RegisteredOk(cfg, s.dirs, n, Carried(cfg, x));
  }

  /** A handler past the check, at a node that has recorded the other two, does the same. */
  lemma Handled(cfg: Config, x: string, start: State, r: Story, asked: nat, s: State, front: seq<Work>, rest: seq<Work>,
                n: string, p: string, q: string) returns (r': Story, t: State)
    requires ValidConfig(cfg) && x in cfg && n in cfg && Distinct([n, p, q, x]) && Race(cfg, x, start, r, asked, s)
    requires s.work == front + [Checked(n, Carried(cfg, x))] + rest && Among(s.dirs, n, p, q, x)
    ensures p in cfg && q in cfg && Race(cfg, x, start, r', asked, t)
    ensures t.dirs.Keys == cfg.Keys && Among(t.dirs, n, p, q, x) && (forall m | m in cfg && m != n && m in s.dirs :: t.dirs[m] == s.dirs[m])
    ensures t.work == front + rest + [AutoConnect(n, Notice(cfg, x))] + Two(cfg, p, q, x)
    ensures SentAbout(t.sent, x) == SentAbout(s.sent, x) + 2 && t.casts == s.casts + multiset{(n, x)}
  {
    hide ValidConfig, Inv, Race, Executed, Two, Notice, Carried, Distinct;
    var r1, s1 := RaceOn(cfg, x, start, r, asked, s, front, Checked(n, Carried(cfg, x)), rest);
    CheckedDone(cfg, s, n, x, p, q, front + rest, s1);
    assert s1.work == front + rest + [Announce(n, Notice(cfg, x))] + [];
    r', t := Announced(cfg, x, start, r1, asked, s1, front + rest, [], n, p, q);
    assert front + rest + [] == front + rest;
  }

  lemma OrderKnows(cfg: Config, n: string, d: Dir, p: string, q: string, x: string)
    requires DirOk(cfg, n, d) && (d.order == [p, q] || d.order == [p, q, x]) && Distinct([n, p, q, x])
    ensures d.order == [p, q] <==> x !in d.online
  {
    hide Exact, Genuine;
    assert [n, p, q, x][1] == p && [n, p, q, x][2] == q && [n, p, q, x][3] == x;
    assert x in d.order <==> x in d.online;
  }

  /** A notice passes the check at a node that does not know yet. */
  lemma Passes(cfg: Config, x: string, start: State, r: Story, asked: nat, s: State, front: seq<Work>, rest: seq<Work>, n: string)
    returns (r': Story, t: State)
    requires ValidConfig(cfg) && x in cfg && n in cfg && n != x && !Knows(s.dirs, n, x) && Race(cfg, x, start, r, asked, s)
    requires s.work == front + [Notify(AddrText(cfg, n), Carried(cfg, x))] + rest
    ensures Race(cfg, x, start, r', asked, t)
    ensures t == State(s.dirs, front + rest + [Checked(n, Carried(cfg, x))], s.sent, s.casts)
  {
    hide ValidConfig, DirOk, AllOk, AddrText, Race, Knows, Effect, Genuine;
    NoticeOf(cfg, x, n);
    r', t := RaceOn(cfg, x, start, r, asked, s, front, Notify(AddrText(cfg, n), Carried(cfg, x)), rest);
    NoticeMet(cfg, s.dirs, n, Carried(cfg, x));
  }

  /** Three nodes that know each other, and the handshake of the fourth with the first. */
  ghost function Pair(cfg: Config, n: string, p: string, q: string): Dir
    requires n in cfg && p in cfg && q in cfg
  {
    Apply(n, Apply(n, EMPTY, Register(Some(SelfInfo(cfg, p)))), Register(Some(SelfInfo(cfg, q))))
  }

  ghost function RaceStart(cfg: Config, x: string, a: string, b: string, c: string): State
    requires cfg.Keys == {x, a, b, c}
  {
    State(map n | n in cfg ::
            if n == a then Pair(cfg, a, b, c) else if n == b then Pair(cfg, b, a, c) else if n == c then Pair(cfg, c, a, b) else EMPTY,
          [Hello(AddrText(cfg, a), x, SelfInfo(cfg, x))], map[], multiset{})
  }

  lemma PairOk(cfg: Config, n: string, p: string, q: string, x: string)
    requires ValidConfig(cfg) && n in cfg && p in cfg && q in cfg && Distinct([n, p, q, x])
    ensures DirOk(cfg, n, Pair(cfg, n, p, q)) && Pair(cfg, n, p, q).order == [p, q] && x !in Pair(cfg, n, p, q).online
  {
    hide AddNameAddr, Exact, ValidConfig, Genuine;
    assert [n, p, q, x][0] == n && [n, p, q, x][1] == p && [n, p, q, x][2] == q && [n, p, q, x][3] == x;
    EmptyOk(cfg, n);
    SelfGenuine(cfg, p);
    SelfGenuine(cfg, q);
    ValidGenuine(cfg, SelfInfo(cfg, p));
    ValidGenuine(cfg, SelfInfo(cfg, q));
    RegisterOk(cfg, n, EMPTY, SelfInfo(cfg, p));
    RegisterOk(cfg, n, Apply(n, EMPTY, Register(Some(SelfInfo(cfg, p)))), SelfInfo(cfg, q));
    assert EMPTY.order + [p] == [p] && [p] + [q] == [p, q];
  }

  lemma EmptyOk(cfg: Config, n: string)
    ensures DirOk(cfg, n, EMPTY)
  {
    InitInv(map[n := Ident("", [], NodeAddr("", 0))]);
  }

  lemma Shuffles(x: string, a: string, b: string, c: string)
    requires Distinct([x, a, b, c])
    ensures Distinct([a, b, c, x]) && Distinct([b, a, c, x]) && Distinct([c, a, b, x])
    ensures x != a && x != b && x != c && a != b && a != c && b != c
  {
    var s := [x, a, b, c];
    assert s[0] == x && s[1] == a && s[2] == b && s[3] == c;
  }

  lemma RaceStartOk(cfg: Config, x: string, a: string, b: string, c: string)
    requires Four(cfg, x, a, b, c)
    ensures var s := RaceStart(cfg, x, a, b, c);
            && Inv(cfg, s) && CostStart(cfg, s, x) && (forall n :: !Knows(s.dirs, n, x))
            && s.dirs[a].order == [b, c] && s.dirs[b].order == [a, c] && s.dirs[c].order == [a, b]
  {
    hide DirOk, ValidConfig, Pair, AddrText, Genuine;
    Shuffles(x, a, b, c);
    PairOk(cfg, a, b, c, x);
    PairOk(cfg, b, a, c, x);
    PairOk(cfg, c, a, b, x);
    EmptyOk(cfg, x);
    SelfGenuine(cfg, x);
  }

  lemma HelloDone(cfg: Config, s: State, n: string, from: string, others: seq<Work>, t: State)
    requires ValidConfig(cfg) && Inv(cfg, s) && n in cfg && from in cfg && n != from
    requires Executed(cfg, s, Hello(AddrText(cfg, n), from, SelfInfo(cfg, from)), others, t)
    ensures t.work == others + [HelloRegistered(n, from, SelfInfo(cfg, from))] && t.sent == s.sent && t.casts == s.casts
    ensures t.dirs.Keys == s.dirs.Keys == cfg.Keys && Knows(t.dirs, n, from)
    ensures t.dirs[n].order == (if Knows(s.dirs, n, from) then s.dirs[n].order else s.dirs[n].order + [from])
    ensures forall m | m in cfg && m != n :: t.dirs[m] == s.dirs[m]
  {
    hide ValidConfig, DirOk, AllOk, AddrText, Registered, Genuine, Effect;
    SelfGenuine(cfg, from);
    HelloMet(cfg, s.dirs, n, from, SelfInfo(cfg, from));
    Joins(cfg, s.dirs, n, SelfInfo(cfg, from));
    RegisteredOk(cfg, s.dirs, n, SelfInfo(cfg, from));
  }

  lemma AnswerDone(cfg: Config, s: State, n: string, from: string, info: NodeInfo, others: seq<Work>, t: State) returns (replies: seq<Work>)
    requires Inv(cfg, s) && n in cfg && Knows(s.dirs, n, UuidOf(info)) && Executed(cfg, s, HelloRegistered(n, from, info), others, t)
    ensures t == State(s.dirs, others + replies + [Announce(n, Discovered(info))], s.sent, s.casts)
    ensures forall w | w in replies :: w.Reply? && w.at == from
    ensures forall u | Knows(s.dirs, n, u) :: Reply(from, s.dirs[n].online[u]) in replies
  {
    hide DirOk, AllOk, Records, SelfInfo, Discovered, Genuine;
    var d := s.dirs[n];
    var known := Records(d, d.order);
    replies := [Reply(from, SelfInfo(cfg, n))] + Replies(from, known);
    forall u | u in d.online ensures Reply(from, d.online[u]) in replies {
      OnList(cfg, n, d, u);
      var i :| 0 <= i < |known| && known[i] == d.online[u];
      assert Replies(from, known)[i] in Replies(from, known);
    }
    OnList(cfg, n, d, UuidOf(info));
  }

  lemma OnList(cfg: Config, n: string, d: Dir, u: string)
    requires DirOk(cfg, n, d) && u in d.online
    ensures d.online[u] in Records(d, d.order)
  {
    hide Exact, Genuine;
    RecordsGenuine(cfg, n, d, d.order);
    assert u in d.order;
  }

  lemma OnlyTheRequest(cfg: Config, x: string, a: string, s: State)
    requires ValidConfig(cfg) && a in cfg && x in cfg && a != x && s.work == [Hello(AddrText(cfg, a), x, SelfInfo(cfg, x))]
    ensures Permitted(cfg, x)(s, Step(0, true)) && !Asks(None, x)(s, Step(0, true))
  {
    hide ValidConfig, AddrText, NodeAt;
    NodeAtOwnAddress(cfg, a);
  }

  /** The handshake is served. */
  lemma RaceMeets(cfg: Config, x: string, a: string, b: string, c: string) returns (r: Story, s: State)
    requires Four(cfg, x, a, b, c)
    ensures Race(cfg, x, RaceStart(cfg, x, a, b, c), r, 0, s) && s.work == [HelloRegistered(a, x, SelfInfo(cfg, x))]
    ensures s.sent == map[] && s.casts == multiset{} && s.dirs.Keys == cfg.Keys && Knows(s.dirs, a, x)
    ensures !Knows(s.dirs, b, x) && !Knows(s.dirs, c, x)
    ensures s.dirs[a].order == [b, c, x] && s.dirs[b].order == [a, c] && s.dirs[c].order == [a, b]
  {
    hide ValidConfig, Inv, Executed, RaceStart, Tells, Permitted, Asks, CostStart, Knows, SelfInfo, AddrText;
    var start, hello := RaceStart(cfg, x, a, b, c), Hello(AddrText(cfg, a), x, SelfInfo(cfg, x));
    RaceStartOk(cfg, x, a, b, c);
    Shuffles(x, a, b, c);
    StartOf(cfg, x, a, b, c);
    OnlyTheRequest(cfg, x, a, start);
    Begins(cfg, Permitted(cfg, x), start);
    assert start.work == [] + [hello] + [];
    r, s := Advance(cfg, Permitted(cfg, x), Asks(None, x), start, Story([start], []), 0, start, [], hello, []);
    HelloDone(cfg, start, a, x, [] + [], s);
    assert [b, c] + [x] == [b, c, x];
    KnowsFrame(start.dirs, s.dirs, b, x);
    KnowsFrame(start.dirs, s.dirs, c, x);
  }

  /** The one request: the handshake is answered. */
  lemma TheAsk(cfg: Config, x: string, a: string, s: State)
    requires ValidConfig(cfg) && a in cfg && x in cfg && Knows(s.dirs, a, x) && s.work == [HelloRegistered(a, x, SelfInfo(cfg, x))]
    ensures Permitted(cfg, x)(s, Step(0, true)) && Asks(None, x)(s, Step(0, true))
  {
    hide ValidConfig, NodeAt;
    assert s.dirs[a].online != map[];
  }

  /** The handshake up to the first two messages. */
  lemma RaceOpens(cfg: Config, x: string, a: string, b: string, c: string) returns (r: Story, s: State, front: seq<Work>)
    requires Four(cfg, x, a, b, c)
    ensures Race(cfg, x, RaceStart(cfg, x, a, b, c), r, 1, s)
    ensures s.work == front + Two(cfg, b, c, x) && SentAbout(s.sent, x) == 2 && s.casts == multiset{(a, x)}
    ensures s.dirs.Keys == cfg.Keys && !Knows(s.dirs, b, x) && !Knows(s.dirs, c, x)
    ensures s.dirs[b].order == [a, c] && s.dirs[c].order == [a, b]
  {
    hide ValidConfig, Inv, Executed, Two, RaceStart, Reaches, Permitted, Asks, Knows, SelfInfo, AddrText, Genuine, JoinInfo, Discovered,
         Carried, Notice;
    var start, info := RaceStart(cfg, x, a, b, c), SelfInfo(cfg, x);
    Shuffles(x, a, b, c);
    var r1, s1 := RaceMeets(cfg, x, a, b, c);
    TheAsk(cfg, x, a, s1);
    assert s1.work == [] + [HelloRegistered(a, x, info)] + [];
    var r2, s2 := Advance(cfg, Permitted(cfg, x), Asks(None, x), start, r1, 0, s1, [], HelloRegistered(a, x, info), []);
    NoticeOf(cfg, x, a);
    var replies := AnswerDone(cfg, s1, a, x, info, [] + [], s2);
    assert s2.work == replies + [Announce(a, Notice(cfg, x))] + [];
    r, s := Announced(cfg, x, start, r2, 1, s2, replies, [], a, b, c);
    front := replies + [] + [AutoConnect(a, Notice(cfg, x))];
  }

  lemma KnowsFrame(dirs: Dirs, dirs': Dirs, n: string, x: string)
    requires n in dirs && n in dirs' && dirs[n] == dirs'[n]
    ensures Knows(dirs, n, x) == Knows(dirs', n, x)
  {
  }

  lemma StartOf(cfg: Config, x: string, a: string, b: string, c: string)
    requires Four(cfg, x, a, b, c)
    ensures var s := RaceStart(cfg, x, a, b, c);
            s.work == [Hello(AddrText(cfg, a), x, SelfInfo(cfg, x))] && s.dirs.Keys == cfg.Keys && s.sent == map[] && s.casts == multiset{}
  {
  }

  lemma Begins(cfg: Config, ok: (State, Event) -> bool, start: State)
    ensures Tells(cfg, ok, start, Story([start], []))
  {
  }

  /** Both notices pass the check at `c` before either handler there registers, and each handler
      then announces. */
  lemma RaceRuns(cfg: Config, x: string, a: string, b: string, c: string) returns (r: Story, s: State)
    requires Four(cfg, x, a, b, c)
    ensures Race(cfg, x, RaceStart(cfg, x, a, b, c), r, 1, s) && SentAbout(s.sent, x) == 8 && s.casts[(c, x)] == 2
  {
    hide ValidConfig, Inv, Race, Knows, AddrText, RaceStart, Carried, Notice, Distinct, Asks, Permitted;
    Shuffles(x, a, b, c);
    var start := RaceStart(cfg, x, a, b, c);
    var ja, jb, jc := Notify(AddrText(cfg, a), Carried(cfg, x)), Notify(AddrText(cfg, b), Carried(cfg, x)), Notify(AddrText(cfg, c), Carried(cfg, x));
    var hb, hc := Checked(b, Carried(cfg, x)), Checked(c, Carried(cfg, x));
    var cb, cc := AutoConnect(b, Notice(cfg, x)), AutoConnect(c, Notice(cfg, x));
    var r0, s0, f := RaceOpens(cfg, x, a, b, c);
    assert s0.work == f + [jb] + [jc];
    var r1, s1 := Passes(cfg, x, start, r0, 1, s0, f, [jc], b);
    assert s1.work == f + [jc] + [hb] + [];
    var r2, s2 := Handled(cfg, x, start, r1, 1, s1, f + [jc], [], b, a, c);
    assert s2.work == f + [jc] + [cb, ja, jc];
    KnowsFrame(s0.dirs, s2.dirs, c, x);
    var r3, s3 := Passes(cfg, x, start, r2, 1, s2, f, [cb, ja, jc], c);
    assert s3.work == f + [cb, ja] + [jc] + [hc];
    var r4, s4 := Passes(cfg, x, start, r3, 1, s3, f + [cb, ja], [hc], c);
    assert s4.work == f + [cb, ja] + [hc] + [hc];
    var r5, s5 := Handled(cfg, x, start, r4, 1, s4, f + [cb, ja], [hc], c, a, b);
    assert s5.work == f + [cb, ja] + [hc] + ([cc] + Two(cfg, a, b, x));
    r, s := Handled(cfg, x, start, r5, 1, s5, f + [cb, ja], [cc] + Two(cfg, a, b, x), c, a, b);
  }

  /** Freedom from races is needed for both bounds on one handshake, and the worst case happens: four
      nodes and one handshake make one of the nodes broadcast the newcomer twice, and eight messages
      go out where six at most would without races. */
  lemma RaceBreaksBounds(cfg: Config, x: string, a: string, b: string, c: string) returns (states: seq<State>, events: seq<Event>)
    requires Four(cfg, x, a, b, c)
    ensures CostRun(cfg, states, events, x)
    ensures Count(Asks(None, x), states, events, |events|) == 1 && OnlyHandshakes(states, events, x)
    ensures states[|events|].casts[(c, x)] == states[0].casts[(c, x)] + 2
    ensures SentAbout(states[|events|].sent, x) == 8 == Pow2(Fanout(cfg)) * Fanout(cfg) > (|cfg| - 1) * (|cfg| - 2)
  {
    hide ValidConfig, Inv, CostStart, CostEvent, Asks, Enabled, Next;
    RaceStartOk(cfg, x, a, b, c);
    var r, s := RaceRuns(cfg, x, a, b, c);
    states, events := r.states, r.events;
    StartOf(cfg, x, a, b, c);
    FourNodes(cfg, x, a, b, c);
    assert Pow2(2) == 2 * Pow2(1) == 4 * Pow2(0);
    forall i | 0 <= i < |events|
      ensures CostEvent(cfg, states[i], events[i], x)
              && (Asks(None, x)(states[i], events[i]) ==> states[i].work[events[i].i].HelloRegistered?) {
      assert Permitted(cfg, x)(states[i], events[i]);
      PermittedAsks(cfg, x, states[i], events[i]);
    }
  }

  lemma PermittedAsks(cfg: Config, x: string, s: State, e: Event)
    requires Permitted(cfg, x)(s, e)
    ensures e.Step? && e.i < |s.work| && CostEvent(cfg, s, e, x)
    ensures Asks(None, x)(s, e) ==> s.work[e.i].HelloRegistered?
  {
    hide CostEvent, Knows;
  }

  lemma FourNodes(cfg: Config, x: string, a: string, b: string, c: string)
    requires Four(cfg, x, a, b, c)
    ensures |cfg| == 4
  {
    Shuffles(x, a, b, c);
    assert |cfg| == |cfg.Keys| == |{x, a, b, c}|;
  }

  // ---- An answer to a handshake breaks coverage ------------------------------------------------------------

  ghost function Flooding(x: string, n: string): (State, Event) -> bool {
    (s: State, e: Event) => FloodEvent(s, e, x, {n})
  }

  ghost function Nothing(): (State, Event) -> bool {
    (s: State, e: Event) => false
  }

  /** The flood of `x` has come to state `s`, with none but `n` deaf. */
  ghost predicate Flood(cfg: Config, x: string, n: string, start: State, r: Story, s: State) {
    Reaches(cfg, Flooding(x, n), Nothing(), start, r, 0, s)
  }

  lemma FloodOn(cfg: Config, x: string, n: string, start: State, r: Story, s: State, front: seq<Work>, w: Work, rest: seq<Work>)
    returns (r': Story, t: State)
    requires ValidConfig(cfg) && Flood(cfg, x, n, start, r, s) && s.work == front + [w] + rest && (w.Reply? ==> w.at == n)
    ensures Flood(cfg, x, n, start, r', t) && Executed(cfg, s, w, front + rest, t) && WorkOk(cfg, w) && Inv(cfg, s)
  {
    hide ValidConfig, Inv, WorkOk, Executed, Reaches;
    ItemAt(front, w, rest);
    r', t := Advance(cfg, Flooding(x, n), Nothing(), start, r, 0, s, front, w, rest);
  }

  ghost function Single(cfg: Config, n: string, p: string): Dir
    requires n in cfg && p in cfg
  {
    Apply(n, EMPTY, Register(Some(SelfInfo(cfg, p))))
  }

  /** The seed knows `n`, which knows `m`; `x` and `n` are about to handshake with the seed. */
  ghost function DeafStart(cfg: Config, x: string, seed: string, n: string, m: string): State
    requires {x, seed, n, m} <= cfg.Keys
  {
    State(map u | u in cfg :: if u == seed then Single(cfg, seed, n) else if u == n then Single(cfg, n, m) else EMPTY,
          [Hello(AddrText(cfg, seed), x, SelfInfo(cfg, x)), Hello(AddrText(cfg, seed), n, SelfInfo(cfg, n))], map[], multiset{})
  }

  ghost predicate FourOf(cfg: Config, x: string, seed: string, n: string, m: string) {
    ValidConfig(cfg) && {x, seed, n, m} <= cfg.Keys && Distinct([x, seed, n, m])
  }

  lemma SingleOk(cfg: Config, n: string, p: string)
    requires ValidConfig(cfg) && n in cfg && p in cfg && n != p
    ensures DirOk(cfg, n, Single(cfg, n, p)) && Single(cfg, n, p).order == [p] && Single(cfg, n, p).online == map[p := SelfInfo(cfg, p)]
  {
    hide AddNameAddr, Exact, ValidConfig, Genuine, SelfInfo;
    EmptyOk(cfg, n);
    SelfGenuine(cfg, p);
    ValidGenuine(cfg, SelfInfo(cfg, p));
    RegisterOk(cfg, n, EMPTY, SelfInfo(cfg, p));
    assert EMPTY.order + [p] == [p] && EMPTY.online[p := SelfInfo(cfg, p)] == map[p := SelfInfo(cfg, p)];
  }

  lemma DeafStartOk(cfg: Config, x: string, seed: string, n: string, m: string)
    requires FourOf(cfg, x, seed, n, m)
    ensures var s := DeafStart(cfg, x, seed, n, m);
            && Inv(cfg, s) && FloodStart(cfg, s, seed, x) && s.dirs[seed].order == [n] && Path(s.dirs, x, [seed, n, m])
            && s.dirs.Keys == cfg.Keys && (forall u :: !Knows(s.dirs, u, x)) && Knows(s.dirs, seed, n)
  {
    hide DirOk, ValidConfig, Single, AddrText, Genuine;
    Shuffles(x, seed, n, m);
    SingleOk(cfg, seed, n);
    SingleOk(cfg, n, m);
    forall u | u in cfg ensures DirOk(cfg, u, EMPTY) { EmptyOk(cfg, u); }
    SelfGenuine(cfg, x);
    SelfGenuine(cfg, n);
    var s := DeafStart(cfg, x, seed, n, m);
    assert s.work[0] in s.work;
    assert Edge(s.dirs, x, seed, n) && Edge(s.dirs, x, n, m);
    var path := [seed, n, m];
    assert path[0] == seed && path[1] == n && path[2] == m;
  }

  lemma ToldOne(cfg: Config, n: string, d: Dir, p: string, x: string, info: NodeInfo)
    requires DirOk(cfg, n, d) && d.order == [p, x] && p != n && p != x
    ensures p in cfg && Messages(d, d.order, n, x, info) == [Notify(AddrText(cfg, p), info)]
  {
    hide Exact, FormatNodeAddr, AddrText, FirstAddr, Genuine, Messages;
    assert p in d.order;
    GenuineFirstAddr(cfg, d.online[p]);
    GenuineKeyed(cfg, d.online[p]);
    MessagesOf(d, [], p, n, x, info);
    MessagesOf(d, [p], x, n, x, info);
    assert [] + [p] == [p] && [p] + [x] == [p, x];
  }

  /** `n`'s handshake is answered with a list that holds `x`. */
  lemma DeafAnswered(cfg: Config, x: string, seed: string, n: string, m: string)
    returns (r: Story, s: State, early: seq<Work>, pre: seq<Work>, p: NodeInfo, post: seq<Work>)
    requires FourOf(cfg, x, seed, n, m)
    ensures Flood(cfg, x, n, DeafStart(cfg, x, seed, n, m), r, s) && Inv(cfg, s) && s.dirs.Keys == cfg.Keys
    ensures s.work == (early + [Announce(seed, Notice(cfg, x))] + pre) + [Reply(n, p)] + (post + [Announce(seed, Notice(cfg, n))])
    ensures (forall w | w in early + pre + post :: w.Reply?) && Genuine(cfg, p) && UuidOf(p) == x
    ensures s.dirs[seed].order == [n, x] && !Knows(s.dirs, m, x)
  {
    hide ValidConfig, Inv, Executed, DeafStart, Flood, Knows, SelfInfo, AddrText, Genuine, JoinInfo, Discovered, Notice, Carried,
         Path, FloodStart;
    Shuffles(x, seed, n, m);
    var r2, s2, replies := DeafGreets(cfg, x, seed, n, m);
    var start, ann, info := DeafStart(cfg, x, seed, n, m), Announce(seed, Notice(cfg, x)), SelfInfo(cfg, n);
    assert s2.work == (replies + [ann]) + [HelloRegistered(seed, n, info)] + [];
    r, s := FloodOn(cfg, x, n, start, r2, s2, replies + [ann], HelloRegistered(seed, n, info), []);
    NoticeOf(cfg, n, seed);
    var answer := AnswerDone(cfg, s2, seed, n, info, replies + [ann] + [], s);
    p := Recorded(cfg, s2, seed, x);
    var i :| 0 <= i < |answer| && answer[i] == Reply(n, p);
    early, pre, post := replies, answer[..i], answer[i + 1..];
    assert answer == pre + [Reply(n, p)] + post;
    FloodKeeps(cfg, x, n, start, r, s);
  }

  /** `n` takes that in. */
  lemma DeafHears(cfg: Config, x: string, seed: string, n: string, m: string)
    returns (r: Story, s: State, early: seq<Work>, late: seq<Work>)
    requires FourOf(cfg, x, seed, n, m)
    ensures Flood(cfg, x, n, DeafStart(cfg, x, seed, n, m), r, s)
    ensures s.work == early + [Announce(seed, Notice(cfg, x))] + (late + [Announce(seed, Notice(cfg, n))])
    ensures (forall w | w in early + late :: w.Reply?) && s.dirs.Keys == cfg.Keys
    ensures s.dirs[seed].order == [n, x] && Knows(s.dirs, n, x) && !Knows(s.dirs, m, x)
  {
    hide ValidConfig, Inv, Executed, DeafStart, Flood, Knows, Genuine, Notice;
    Shuffles(x, seed, n, m);
    var start, ann, annN := DeafStart(cfg, x, seed, n, m), Announce(seed, Notice(cfg, x)), Announce(seed, Notice(cfg, n));
    var r3, s3, e, pre, p, post := DeafAnswered(cfg, x, seed, n, m);
    r, s := FloodOn(cfg, x, n, start, r3, s3, e + [ann] + pre, Reply(n, p), post + [annN]);
    ReplyDone(cfg, s3, n, p, e + [ann] + pre + (post + [annN]), s);
    early, late := e, pre + post;
    assert s.work == early + [ann] + (late + [annN]);
    KnowsFrame(s3.dirs, s.dirs, m, x);
  }

  lemma Recorded(cfg: Config, s: State, n: string, u: string) returns (p: NodeInfo)
    requires Inv(cfg, s) && n in cfg && Knows(s.dirs, n, u)
    ensures n in s.dirs && u in s.dirs[n].online && p == s.dirs[n].online[u] && Genuine(cfg, p) && UuidOf(p) == u
  {
    hide Exact, Genuine;
    p := s.dirs[n].online[u];
  }

  lemma ReplyDone(cfg: Config, s: State, n: string, p: NodeInfo, others: seq<Work>, t: State)
    requires ValidConfig(cfg) && Inv(cfg, s) && n in cfg && Genuine(cfg, p) && UuidOf(p) != n && Executed(cfg, s, Reply(n, p), others, t)
    ensures t.work == others && t.dirs.Keys == s.dirs.Keys == cfg.Keys && Knows(t.dirs, n, UuidOf(p))
    ensures forall m | m in cfg && m != n :: t.dirs[m] == s.dirs[m]
  {
    hide ValidConfig, DirOk, AllOk, Registered, Genuine;
    Joins(cfg, s.dirs, n, p);
    RegisteredOk(cfg, s.dirs, n, p);
  }

  /** `x` is served and about to be announced. */
  lemma DeafServes(cfg: Config, x: string, seed: string, n: string, m: string) returns (r: Story, s: State, replies: seq<Work>)
    requires FourOf(cfg, x, seed, n, m)
    ensures Flood(cfg, x, n, DeafStart(cfg, x, seed, n, m), r, s) && Inv(cfg, s) && s.dirs.Keys == cfg.Keys
    ensures s.work == [Hello(AddrText(cfg, seed), n, SelfInfo(cfg, n))] + (replies + [Announce(seed, Notice(cfg, x))])
    ensures (forall w | w in replies :: w.Reply?) && s.dirs[seed].order == [n, x] && !Knows(s.dirs, n, x) && !Knows(s.dirs, m, x)
  {
    hide ValidConfig, Inv, Executed, DeafStart, Flood, Knows, SelfInfo, AddrText, Genuine, JoinInfo, Discovered, Notice, Carried,
         Path, FloodStart;
    Shuffles(x, seed, n, m);
    DeafStartOk(cfg, x, seed, n, m);
    DeafBegins(cfg, x, seed, n, m);
    var start := DeafStart(cfg, x, seed, n, m);
    var info, hello := SelfInfo(cfg, x), Hello(AddrText(cfg, seed), n, SelfInfo(cfg, n));
    var r1, s1 := FloodOn(cfg, x, n, start, Story([start], []), start, [], Hello(AddrText(cfg, seed), x, info), [hello]);
    HelloDone(cfg, start, seed, x, [] + [hello], s1);
    assert [n] + [x] == [n, x];
    assert s1.work == [hello] + [HelloRegistered(seed, x, info)] + [];
    r, s := FloodOn(cfg, x, n, start, r1, s1, [hello], HelloRegistered(seed, x, info), []);
    NoticeOf(cfg, x, seed);
    replies := AnswerDone(cfg, s1, seed, x, info, [hello] + [], s);
    FloodKeeps(cfg, x, n, start, r, s);
    KnowsFrame(start.dirs, s.dirs, n, x);
    KnowsFrame(start.dirs, s.dirs, m, x);
  }

  /** Then `n` is registered again. */
  lemma DeafGreets(cfg: Config, x: string, seed: string, n: string, m: string) returns (r: Story, s: State, replies: seq<Work>)
    requires FourOf(cfg, x, seed, n, m)
    ensures Flood(cfg, x, n, DeafStart(cfg, x, seed, n, m), r, s)
    ensures s.work == replies + [Announce(seed, Notice(cfg, x)), HelloRegistered(seed, n, SelfInfo(cfg, n))]
    ensures (forall w | w in replies :: w.Reply?) && s.dirs.Keys == cfg.Keys && Inv(cfg, s)
    ensures s.dirs[seed].order == [n, x] && Knows(s.dirs, seed, x) && Knows(s.dirs, seed, n) && !Knows(s.dirs, n, x) && !Knows(s.dirs, m, x)
  {
    hide ValidConfig, Inv, Executed, DeafStart, Flood, Knows, SelfInfo, AddrText, Notice;
    Shuffles(x, seed, n, m);
    var start, hello, ann := DeafStart(cfg, x, seed, n, m), Hello(AddrText(cfg, seed), n, SelfInfo(cfg, n)), Announce(seed, Notice(cfg, x));
    var r2, s2, rs := DeafServes(cfg, x, seed, n, m);
    replies := rs;
    OrderTells(cfg, s2, seed, n, x);
    assert s2.work == [] + [hello] + (replies + [ann]);
    r, s := FloodOn(cfg, x, n, start, r2, s2, [], hello, replies + [ann]);
    HelloDone(cfg, s2, seed, n, [] + (replies + [ann]), s);
    FloodKeeps(cfg, x, n, start, r, s);
    OrderTells(cfg, s, seed, n, x);
    KnowsFrame(s2.dirs, s.dirs, n, x);
    KnowsFrame(s2.dirs, s.dirs, m, x);
  }

  lemma FloodKeeps(cfg: Config, x: string, n: string, start: State, r: Story, s: State)
    requires Flood(cfg, x, n, start, r, s)
    ensures Inv(cfg, s)
  {
    hide Inv, Tells;
  }

  lemma OrderTells(cfg: Config, s: State, seed: string, n: string, x: string)
    requires Inv(cfg, s) && seed in cfg && s.dirs.Keys == cfg.Keys && s.dirs[seed].order == [n, x]
    ensures Knows(s.dirs, seed, n) && Knows(s.dirs, seed, x)
  {
    hide Exact, Genuine;
    assert n in s.dirs[seed].order && x in s.dirs[seed].order;
  }

  lemma DeafBegins(cfg: Config, x: string, seed: string, n: string, m: string)
    requires FourOf(cfg, x, seed, n, m)
    ensures var s := DeafStart(cfg, x, seed, n, m);
            && Flood(cfg, x, n, s, Story([s], []), s)
            && s.work == [] + [Hello(AddrText(cfg, seed), x, SelfInfo(cfg, x))] + [Hello(AddrText(cfg, seed), n, SelfInfo(cfg, n))]
  {
    hide Inv, FloodEvent;
    DeafStartOk(cfg, x, seed, n, m);
    Begins(cfg, Flooding(x, n), DeafStart(cfg, x, seed, n, m));
  }

  lemma BroadcastOneDone(cfg: Config, s: State, n: string, x: string, p: string, others: seq<Work>, t: State)
    requires ValidConfig(cfg) && Inv(cfg, s) && x in cfg && n in cfg
    requires s.dirs[n].order == [p, x] && n != p && p != x
    ensures p in cfg
    ensures Executed(cfg, s, Broadcast(n, Notice(cfg, x)), others, t) ==>
              t.dirs == s.dirs && t.work == others + [Notify(AddrText(cfg, p), Carried(cfg, x))]
  {
    hide ValidConfig, DirOk, AllOk, AddrText, JoinInfo, Messages, Genuine;
    NoticeOf(cfg, x, n);
    ToldOne(cfg, n, s.dirs[n], p, x, Carried(cfg, x));
  }

  /** The notice to `n` then finds `x` known. */
  lemma DeafEnds(cfg: Config, x: string, seed: string, n: string, m: string) returns (r: Story, s: State)
    requires FourOf(cfg, x, seed, n, m)
    ensures Flood(cfg, x, n, DeafStart(cfg, x, seed, n, m), r, s)
    ensures Quiescent(s, x) && Knows(s.dirs, n, x) && !Knows(s.dirs, m, x)
  {
    hide ValidConfig, Inv, Executed, DeafStart, Flood, Knows, AddrText, Genuine, JoinInfo, Notice, Carried, Effect;
    Shuffles(x, seed, n, m);
    var start, what := DeafStart(cfg, x, seed, n, m), Notice(cfg, x);
    var r0, s0, early, late := DeafHears(cfg, x, seed, n, m);
    var annN := Announce(seed, Notice(cfg, n));
    var r1, s1 := FloodOn(cfg, x, n, start, r0, s0, early, Announce(seed, what), late + [annN]);
    AnnounceDone(cfg, s0, seed, what, early + (late + [annN]), s1);
    var front := early + (late + [annN]);
    assert s1.work == front + [Broadcast(seed, what)] + [AutoConnect(seed, what)];
    var r2, s2 := FloodOn(cfg, x, n, start, r1, s1, front, Broadcast(seed, what), [AutoConnect(seed, what)]);
    BroadcastOneDone(cfg, s1, seed, x, n, front + [AutoConnect(seed, what)], s2);
    var msg := Notify(AddrText(cfg, n), Carried(cfg, x));
    assert s2.work == (front + [AutoConnect(seed, what)]) + [msg] + [];
    r, s := FloodOn(cfg, x, n, start, r2, s2, front + [AutoConnect(seed, what)], msg, []);
    IgnoredDone(cfg, s2, n, x, front + [AutoConnect(seed, what)] + [], s);
    NothingCarries(cfg, x, n, seed, early, late, s);
  }

  lemma IgnoredDone(cfg: Config, s: State, n: string, x: string, others: seq<Work>, t: State)
    requires ValidConfig(cfg) && Inv(cfg, s) && n in cfg && x in cfg && n != x && Knows(s.dirs, n, x)
    requires Executed(cfg, s, Notify(AddrText(cfg, n), Carried(cfg, x)), others, t)
    ensures t.work == others && t.dirs == s.dirs
  {
    hide ValidConfig, DirOk, AllOk, AddrText, Genuine, Effect;
    NoticeOf(cfg, x, n);
    NoticeMet(cfg, s.dirs, n, Carried(cfg, x));
  }

  lemma NothingCarries(cfg: Config, x: string, n: string, seed: string, early: seq<Work>, late: seq<Work>, s: State)
    requires x in cfg && n in cfg && n != x && (forall w | w in early + late :: w.Reply?)
    requires s.work == early + (late + [Announce(seed, Notice(cfg, n))]) + [AutoConnect(seed, Notice(cfg, x))] + []
    ensures Quiescent(s, x)
  {
    hide AddrText;
    forall w | w in s.work ensures !Carries(w, x) {
      assert w in early + late || w == Announce(seed, Notice(cfg, n)) || w == AutoConnect(seed, Notice(cfg, x));
    }
  }

  /** A relaying node that first hears of the newcomer in a handshake answer breaks coverage: from a
      start of the flood, with `n` alone deaf, the run ends quiescent, and the path from the seed
      over `n` to `m` ends at a node that knows nothing of `x`. */
  lemma AnswerBreaksCoverage(cfg: Config, x: string, seed: string, n: string, m: string) returns (states: seq<State>, events: seq<Event>)
    requires FourOf(cfg, x, seed, n, m)
    ensures IsRun(cfg, states, events) && Inv(cfg, states[0]) && FloodStart(cfg, states[0], seed, x)
    ensures forall i | 0 <= i < |events| :: FloodEvent(states[i], events[i], x, {n})
    ensures Quiescent(states[|events|], x) && Path(states[0].dirs, x, [seed, n, m])
    ensures Knows(states[|events|].dirs, n, x) && !Knows(states[|events|].dirs, m, x)
  {
    hide ValidConfig, Inv, FloodEvent, Enabled, Next, DeafStart, Quiescent, FloodStart, Path, Knows;
    DeafStartOk(cfg, x, seed, n, m);
    var r, s := DeafEnds(cfg, x, seed, n, m);
    states, events := r.states, r.events;
    forall i | 0 <= i < |events| ensures FloodEvent(states[i], events[i], x, {n}) {
      assert Flooding(x, n)(states[i], events[i]);
    }
  }
}
