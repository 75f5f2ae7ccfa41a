/** A websocket session joining late: it replays the notifier's history into its channel, then
    subscribes. Emissions go on meanwhile, and callbacks run outside the notifier's lock. */
module Session {
  import opened Types
  import opened Notifier

  const HISTORY_SIZE: nat := 100
  const CHANNEL_SIZE: nat := 256

  // ---- The handler itself ---------------------------------------------------------------------

  class WsClient {
    var send: seq<Notification>

    constructor ()
      ensures send == []
    {
      send := [];
    }
  }

  /** Replay then subscribe, undisturbed. The pump that empties the channel starts only afterwards,
      so a history longer than the channel blocks the handler for good: no token is returned then. */
  method HandleWebSocket(notifier: Notifier<WsClient>) returns (client: WsClient, token: Option<nat>)
    requires notifier.Valid()
    modifies notifier`callbacks, notifier`nextToken
    ensures notifier.Valid() && fresh(client)
    ensures token.None? <==> |notifier.Recent()| > 256
    ensures client.send == if token.Some? then notifier.Recent() else notifier.Recent()[..256]
    ensures if token.Some? then token.value !in old(notifier.callbacks) && notifier.callbacks == old(notifier.callbacks)[token.value := client]
            else notifier.callbacks == old(notifier.callbacks)
    ensures notifier.bufferSize <= 256 ==> token.Some?
  {
    hide Holds, LastN;
    client := new WsClient();
    var history := notifier.History();
    for i := 0 to |history|
      invariant client.send == history[..i] && i <= CHANNEL_SIZE
      invariant notifier.Valid() && notifier.callbacks == old(notifier.callbacks) && notifier.Recent() == history
    {
      if |client.send| == CHANNEL_SIZE {
        return client, None;
      }
      client.send := client.send + [history[i]];
    }
    var t := notifier.Subscribe(client);
    token := Some(t);
  }

  // ---- The session among concurrent emissions ---------------------------------------------------

  datatype Phase =
    | Waiting
    | Replaying(lo: nat, hi: nat, next: nat)  // history [lo, hi) taken, entries below `next` sent
    | Live(lo: nat, hi: nat, since: nat)      // subscribed when `since` emissions had been made

  /** Emissions are named by their position in `log`. `pending` holds those whose snapshot has
      this session's callback, which has not run yet. */
  datatype State = State(log: seq<Notification>, phase: Phase, channel: seq<nat>, read: seq<nat>,
                         pending: set<nat>, dropped: set<nat>)

  datatype Event = Emit(n: Notification) | TakeHistory | Replay | Subscribe | Callback(pos: nat) | Read

  const START: State := State([], Waiting, [], [], {}, {})

  /** The blocking send of the replay needs room in the channel; the pump that reads the channel
      starts only after the subscription. */
  predicate Enabled(s: State, e: Event) {
    match e
    case Emit(_) => true
    case TakeHistory => s.phase.Waiting?
    case Replay => s.phase.Replaying? && s.phase.next < s.phase.hi && |s.channel| < CHANNEL_SIZE
    case Subscribe => s.phase.Replaying? && s.phase.next == s.phase.hi
    case Callback(pos) => pos in s.pending
    case Read => s.phase.Live? && s.channel != []
  }

  function Next(s: State, e: Event): State
    requires Enabled(s, e)
  {
    match e
    case Emit(n) =>
      s.(log := s.log + [n], pending := if s.phase.Live? then s.pending + {|s.log|} else s.pending)
    case TakeHistory =>
      var lo := |s.log| - |LastN(s.log, HISTORY_SIZE)|;
      s.(phase := Replaying(lo, |s.log|, lo))
    case Replay => s.(channel := s.channel + [s.phase.next], phase := s.phase.(next := s.phase.next + 1))
    case Subscribe => s.(phase := Live(s.phase.lo, s.phase.hi, |s.log|))
    case Callback(pos) =>
      if |s.channel| < CHANNEL_SIZE then s.(channel := s.channel + [pos], pending := s.pending - {pos})
      else s.(dropped := s.dropped + {pos}, pending := s.pending - {pos})
    case Read => s.(channel := s.channel[1..], read := s.read + [s.channel[0]])
  }

  function Run(events: seq<Event>): Option<State> {
    if events == [] then Some(START)
    else match Run(events[..|events| - 1])
      case None => None
      case Some(s) => if Enabled(s, events[|events| - 1]) then Some(Next(s, events[|events| - 1])) else None
  }

  function Delivered(s: State): seq<nat> {
    s.read + s.channel
  }

  function Window(lo: nat, hi: nat): (r: seq<nat>)
    requires lo <= hi
    ensures |r| == hi - lo && forall i | 0 <= i < |r| :: r[i] == lo + i
  {
    seq(hi - lo, i requires 0 <= i < hi - lo => lo + i)
  }

  /** The history holds the last HISTORY_SIZE emissions made before position `hi`. */
  predicate IsHistory(log: seq<Notification>, lo: nat, hi: nat) {
    lo <= hi <= |log| && log[lo..hi] == LastN(log[..hi], HISTORY_SIZE)
    && lo == if hi < HISTORY_SIZE then 0 else hi - HISTORY_SIZE
  }

  ghost predicate LiveInv(log: seq<Notification>, lo: nat, hi: nat, since: nat, got: seq<nat>, pending: set<nat>, dropped: set<nat>)
    requires lo <= hi
  {
    && hi - lo <= |got| && got[..hi - lo] == Window(lo, hi)
    && (forall i | hi - lo <= i < |got| :: since <= got[i] < |log| && got[i] !in pending && got[i] !in dropped)
    && Distinct(got)
    && (forall p | p in pending :: since <= p < |log| && p !in dropped)
    && (forall p | p in dropped :: since <= p < |log|)
    && (forall p | since <= p < |log| :: p in got || p in pending || p in dropped)
  }

  ghost predicate Inv(s: State) {
    match s.phase
    case Waiting => s.read == [] && s.channel == [] && s.pending == {} && s.dropped == {}
    case Replaying(lo, hi, next) =>
      && IsHistory(s.log, lo, hi) && lo <= next <= hi
      && s.read == [] && s.channel == Window(lo, next) && s.pending == {} && s.dropped == {}
    case Live(lo, hi, since) =>
      && IsHistory(s.log, lo, hi) && hi <= since <= |s.log|
      && LiveInv(s.log, lo, hi, since, Delivered(s), s.pending, s.dropped)
  }

  lemma HistoryStays(log: seq<Notification>, lo: nat, hi: nat, n: Notification)
    requires IsHistory(log, lo, hi)
    ensures IsHistory(log + [n], lo, hi)
  {
    assert (log + [n])[..hi] == log[..hi];
    assert (log + [n])[lo..hi] == log[lo..hi];
  }

  lemma CallbackKeeps(s: State, pos: nat)
    requires Inv(s) && pos in s.pending
    ensures Inv(Next(s, Callback(pos)))
  {
    hide IsHistory;
    var t := Next(s, Callback(pos));
    match s.phase
    case Live(lo, hi, since) =>
      assert IsHistory(s.log, lo, hi) && lo <= hi by { HistoryBounds(s); }
      assert Delivered(t) == if |s.channel| < CHANNEL_SIZE then Delivered(s) + [pos] else Delivered(s);
      assert pos !in Delivered(s) by { PendingNotDelivered(s, pos); }
      assert Delivered(t)[..hi - lo] == Delivered(s)[..hi - lo];
    case _ =>
  }

  lemma HistoryBounds(s: State)
    requires Inv(s) && !s.phase.Waiting?
    ensures s.phase.lo <= s.phase.hi <= |s.log| && IsHistory(s.log, s.phase.lo, s.phase.hi)
  {
  }

  lemma PendingNotDelivered(s: State, pos: nat)
    requires Inv(s) && s.phase.Live? && pos in s.pending
    ensures pos !in Delivered(s)
  {
    HistoryBounds(s);
    var n := s.phase.hi - s.phase.lo;
    assert LiveInv(s.log, s.phase.lo, s.phase.hi, s.phase.since, Delivered(s), s.pending, s.dropped);
    forall i | 0 <= i < |Delivered(s)| ensures Delivered(s)[i] != pos {
      if i < n {
        assert Delivered(s)[..n][i] == s.phase.lo + i;
      }
    }
  }

  lemma EmitKeeps(s: State, n: Notification)
    requires Inv(s)
    ensures Inv(Next(s, Emit(n)))
  {
    if !s.phase.Waiting? {
      HistoryStays(s.log, s.phase.lo, s.phase.hi, n);
    }
    hide IsHistory;
  }

  lemma NextKeepsInv(s: State, e: Event)
    requires Inv(s) && Enabled(s, e)
    ensures Inv(Next(s, e))
  {
    match e
    case Emit(n) => EmitKeeps(s, n);
    case TakeHistory => assert s.log[..|s.log|] == s.log;
    case Replay =>
    case Subscribe => SubscribeKeeps(s);
    case Callback(pos) => CallbackKeeps(s, pos);
    case Read =>
      assert Delivered(Next(s, Read)) == Delivered(s);
  }

  lemma SubscribeKeeps(s: State)
    requires Inv(s) && Enabled(s, Subscribe)
    ensures Inv(Next(s, Subscribe))
  {
    hide IsHistory;
    HistoryBounds(s);
    assert Delivered(Next(s, Subscribe)) == Window(s.phase.lo, s.phase.hi);
  }

  lemma {:induction false} RunInv(events: seq<Event>)
    ensures Run(events).Some? ==> Inv(Run(events).value)
  {
    hide Inv, Enabled, Next;
    if events == [] {
      StartInv();
    } else {
      RunInv(events[..|events| - 1]);
      var s := Run(events[..|events| - 1]);
      if s.Some? && Enabled(s.value, events[|events| - 1]) {
        NextKeepsInv(s.value, events[|events| - 1]);
      }
    }
  }

  lemma StartInv()
    ensures Inv(START)
  {
  }

  // ---- The channel --------------------------------------------------------------------------------------

  /** A callback that finds room delivers its emission, after all that was delivered before; only one
      that finds the channel full drops it. */
  lemma CallbackOutcome(s: State, pos: nat)
    requires Enabled(s, Callback(pos))
    ensures var t := Next(s, Callback(pos));
            && t.pending == s.pending - {pos} && t.log == s.log && t.phase == s.phase
            && (|s.channel| < 256 ==> Delivered(t) == Delivered(s) + [pos] && t.dropped == s.dropped)
            && (|s.channel| >= 256 ==> Delivered(t) == Delivered(s) && t.dropped == s.dropped + {pos})
  {
    var t := Next(s, Callback(pos));
    if |s.channel| < CHANNEL_SIZE {
      assert t.read + (s.channel + [pos]) == (s.read + s.channel) + [pos];
    }
  }

  lemma {:induction false} ChannelBounded(events: seq<Event>)
    ensures Run(events).Some? ==> |Run(events).value.channel| <= 256
  {
    hide IsHistory, LastN;
    if events != [] {
      ChannelBounded(events[..|events| - 1]);
    }
  }

  /** The `k`-th event was the callback for `p`, and met a full channel. */
  ghost predicate MetFull(events: seq<Event>, k: nat, p: nat) {
    && k < |events| && events[k] == Callback(p)
    && Run(events[..k]).Some? && |Run(events[..k]).value.channel| == 256
  }

  lemma DroppedStep(s: State, e: Event, p: nat)
    requires Enabled(s, e) && p in Next(s, e).dropped && p !in s.dropped
    ensures e == Callback(p) && |s.channel| >= 256
  {
    hide LastN;
  }

  lemma {:induction false} DroppedMetFull(events: seq<Event>, p: nat) returns (k: nat)
    requires Run(events).Some? && p in Run(events).value.dropped
    ensures MetFull(events, k, p)
  {
    hide Enabled, Next;
    var n := |events| - 1;
    if p in Run(events[..n]).value.dropped {
      k := DroppedMetFull(events[..n], p);
      assert events[..n][..k] == events[..k];
    } else {
      k := n;
      DroppedStep(Run(events[..n]).value, events[n], p);
      ChannelBounded(events[..n]);
    }
  }

  // ---- What has happened so far -----------------------------------------------------------------

  /** What was emitted, from the events alone. */
  function Emitted(events: seq<Event>): seq<Notification> {
    if events == [] then []
    else
      var e := events[|events| - 1];
      Emitted(events[..|events| - 1]) + (if e.Emit? then [e.n] else [])
  }

  lemma {:induction false} LogDecided(events: seq<Event>)
    requires Run(events).Some?
    ensures Run(events).value.log == Emitted(events) && |Run(events).value.read| == multiset(events)[Read]
  {
    hide Emitted, Enabled;
    if events == [] {
      NothingEmitted();
    } else {
      var n := |events| - 1;
      LogDecided(events[..n]);
      EmittedStep(events);
      assert events == events[..n] + [events[n]];
    }
  }

  lemma {:induction false} PhaseDecided(events: seq<Event>)
    requires Run(events).Some?
    ensures var s := Run(events).value;
            && (s.phase.Waiting? <==> TakeHistory !in events)
            && (s.phase.Live? <==> Subscribe in events)
            && (forall k | 0 <= k < |events| && events[k] == TakeHistory ::
                  !s.phase.Waiting? && s.phase.hi == |Emitted(events[..k])|)
            && (forall k | 0 <= k < |events| && events[k] == Subscribe ::
                  s.phase.Live? && s.phase.since == |Emitted(events[..k])|)
  {
    hide Emitted, LastN;
    if events != [] {
      var n := |events| - 1;
      PhaseDecided(events[..n]);
      LogDecided(events[..n]);
      assert events == events[..n] + [events[n]];
      assert forall k | 0 <= k < n :: events[..n][..k] == events[..k];
    }
  }

  lemma {:induction false} CallbacksDecided(events: seq<Event>)
    requires Run(events).Some?
    ensures var s := Run(events).value;
            && (s.phase.Live? ==> forall p | s.phase.since <= p < |s.log| :: p in s.pending <==> Callback(p) !in events)
            && (forall p: nat | Callback(p) in events :: s.phase.Live? && s.phase.since <= p < |s.log|)
  {
    hide Next, Enabled, Inv;
    if events != [] {
      var n := |events| - 1;
      CallbacksDecided(events[..n]);
      RunInv(events[..n]);
      assert events == events[..n] + [events[n]];
      DecideStep(Run(events[..n]).value, events[n], events[..n]);
    }
  }

  /** A session is where its events put it: it has taken its history when that event has occurred, at
      the emissions made by then, and is live when it has subscribed, likewise; what it read it read
      one by one; and a live emission waits for its callback until that occurs. */
  lemma EventsDecide(events: seq<Event>)
    requires Run(events).Some?
    ensures var s := Run(events).value;
            && s.log == Emitted(events) && |s.read| == multiset(events)[Read]
            && (s.phase.Waiting? <==> TakeHistory !in events)
            && (s.phase.Live? <==> Subscribe in events)
            && (forall k | 0 <= k < |events| && events[k] == TakeHistory ::
                  !s.phase.Waiting? && s.phase.hi == |Emitted(events[..k])|)
            && (forall k | 0 <= k < |events| && events[k] == Subscribe ::
                  s.phase.Live? && s.phase.since == |Emitted(events[..k])|)
            && (s.phase.Live? ==> forall p | s.phase.since <= p < |s.log| :: p in s.pending <==> Callback(p) !in events)
  {
    hide Run, Emitted;
    LogDecided(events);
    PhaseDecided(events);
    CallbacksDecided(events);
  }

  lemma NothingEmitted()
    ensures Emitted([]) == []
  {
  }

  lemma EmittedStep(events: seq<Event>)
    requires events != []
    ensures var e := events[|events| - 1];
            Emitted(events) == Emitted(events[..|events| - 1]) + (if e.Emit? then [e.n] else [])
  {
  }

  /** The callbacks still to come, after one more event. */
  lemma DecideStep(s: State, e: Event, before: seq<Event>)
    requires Inv(s) && Enabled(s, e)
    requires s.phase.Live? ==> forall p | s.phase.since <= p < |s.log| :: p in s.pending <==> Callback(p) !in before
    requires forall p: nat | Callback(p) in before :: s.phase.Live? && s.phase.since <= p < |s.log|
    ensures var t := Next(s, e);
            && (t.phase.Live? ==> forall p | t.phase.since <= p < |t.log| :: p in t.pending <==> Callback(p) !in before + [e])
            && (forall p: nat | Callback(p) in before + [e] :: t.phase.Live? && t.phase.since <= p < |t.log|)
  {
    hide IsHistory, LastN;
  }

  // ---- What a session receives -----------------------------------------------------------------

  /** The fate of one emission with respect to a live session. */
  function Fates(s: State, p: nat): nat
    requires s.phase.Live?
  {
    (if p in Delivered(s) then 1 else 0) + (if p in s.pending then 1 else 0) + (if p in s.dropped then 1 else 0)
    + (if p < s.phase.lo then 1 else 0) + (if s.phase.hi <= p < s.phase.since then 1 else 0)
  }

  /** In any interleaving: no emission reaches the session twice; the replayed ones are the last
      100 before the history point, in order, and come before every live one; each
      emission is delivered, about to be, dropped on a full channel, evicted before the history
      point, or fell between the two points, and exactly one of these. */
  lemma SessionDelivery(events: seq<Event>)
    requires Run(events).Some? && Run(events).value.phase.Live?
    ensures var s := Run(events).value;
            && s.phase.lo <= s.phase.hi <= s.phase.since <= |s.log|
            && s.phase.lo == (if s.phase.hi < 100 then 0 else s.phase.hi - 100)
            && Distinct(Delivered(s))
            && (s.phase.hi - s.phase.lo <= |Delivered(s)|)
            && (forall i | 0 <= i < s.phase.hi - s.phase.lo :: Delivered(s)[i] == s.phase.lo + i)
            && (forall i | s.phase.hi - s.phase.lo <= i < |Delivered(s)| :: s.phase.since <= Delivered(s)[i] < |s.log|)
            && (forall p | 0 <= p < |s.log| :: Fates(s, p) == 1)
            && (forall p | p in s.dropped :: exists k: nat :: MetFull(events, k, p))
            && |s.channel| <= 256
  {
    hide Run, MetFull;
    RunInv(events);
    ChannelBounded(events);
    forall p | p in Run(events).value.dropped ensures exists k: nat :: MetFull(events, k, p) {
      var k := DroppedMetFull(events, p);
    }
    var s := Run(events).value;
    var n := s.phase.hi - s.phase.lo;
    forall i | 0 <= i < n ensures Delivered(s)[i] == s.phase.lo + i {
      assert Delivered(s)[..n][i] == s.phase.lo + i;
    }
    forall p | 0 <= p < |s.log| ensures Fates(s, p) == 1 {
      OneFate(s, p);
    }
  }

  lemma OneFate(s: State, p: nat)
    requires Inv(s) && s.phase.Live? && p < |s.log|
    ensures Fates(s, p) == 1
  {
    hide IsHistory;
    assert s.phase.lo <= s.phase.hi by { HistoryBounds(s); }
    var n := s.phase.hi - s.phase.lo;
    var got := Delivered(s);
    if s.phase.lo <= p < s.phase.hi {
      assert got[..n][p - s.phase.lo] == p;
      assert got[p - s.phase.lo] == p;
    } else {
      forall i | 0 <= i < n ensures got[i] != p {
        assert got[..n][i] == s.phase.lo + i;
      }
    }
  }

  /** The history replayed is what the notifier's ring buffer held at that point. */
  lemma ReplayIsRingBuffer(events: seq<Event>)
    requires Run(events).Some? && !Run(events).value.phase.Waiting?
    ensures var s := Run(events).value;
            s.phase.lo <= s.phase.hi <= |s.log| && s.log[s.phase.lo..s.phase.hi] == LastN(s.log[..s.phase.hi], 100)
  {
    hide Run;
    RunInv(events);
  }

  lemma RunOn(events: seq<Event>, e: Event)
    requires Run(events).Some? && Enabled(Run(events).value, e)
    ensures Run(events + [e]) == Some(Next(Run(events).value, e))
  {
    assert (events + [e])[..|events|] == events;
  }

  /** A session that has begun to replay becomes live without anything being emitted meanwhile. */
  lemma {:induction false} ReplaysToTheEnd(events: seq<Event>) returns (more: seq<Event>)
    requires Run(events).Some? && Run(events).value.phase.Replaying?
    ensures Run(events + more).Some?
    ensures var s, t := Run(events).value, Run(events + more).value;
            t.phase.Live? && t.log == s.log && t.dropped == s.dropped
    decreases Run(events).value.phase.hi - Run(events).value.phase.next
  {
    hide Run, IsHistory;
    RunInv(events);
    var s := Run(events).value;
    ReplayNeverBlocks(events);
    var e := if s.phase.next < s.phase.hi then Replay else Subscribe;
    RunOn(events, e);
    more := [];
    if e == Replay {
      more := ReplaysToTheEnd(events + [e]);
    }
    assert events + [e] + more == events + ([e] + more);
    assert events + [e] + [] == events + [e];
    more := [e] + more;
  }

  /** A live session can take in all that is on its way to it, and drops none of it if the pump keeps
      up with the callbacks. */
  lemma {:induction false} TakesInAll(events: seq<Event>) returns (more: seq<Event>)
    requires Run(events).Some? && Run(events).value.phase.Live?
    ensures Run(events + more).Some?
    ensures var s, t := Run(events).value, Run(events + more).value;
            && t.phase == s.phase && t.log == s.log && t.dropped == s.dropped
            && t.channel == [] && t.pending == {}
    decreases |Run(events).value.pending|, |Run(events).value.channel|
  {
    hide Run;
    var s := Run(events).value;
    more := [];
    assert events + [] == events;
    if s.channel != [] || s.pending != {} {
      var e := Read;
      if s.channel == [] {
        var p :| p in s.pending;
        e := Callback(p);
      }
      RunOn(events, e);
      more := TakesInAll(events + [e]);
      assert events + [e] + more == events + ([e] + more);
      more := [e] + more;
    }
  }

  /** Whatever has happened, a session can become live and get all that is on its way, with nothing
      dropped and nothing emitted from here on: no step of it waits for ever. */
  lemma SessionSettles(events: seq<Event>) returns (more: seq<Event>)
    requires Run(events).Some?
    ensures Run(events + more).Some?
    ensures var s, t := Run(events).value, Run(events + more).value;
            && t.phase.Live? && t.log == s.log && t.dropped == s.dropped && t.channel == [] && t.pending == {}
            && forall n :: Enabled(t, Emit(n))
  {
    hide Run, IsHistory, LastN;
    RunInv(events);
    var first := [];
    assert events + [] == events;
    if Run(events).value.phase.Waiting? {
      RunOn(events, TakeHistory);
      first := [TakeHistory];
    }
    if !Run(events).value.phase.Live? {
      var replay := ReplaysToTheEnd(events + first);
      assert events + first + replay == events + (first + replay);
      first := first + replay;
    }
    var rest := TakesInAll(events + first);
    assert events + first + rest == events + (first + rest);
    more := first + rest;
  }

  /** The replay never blocks: whenever an entry is left to send, the channel has room. */
  lemma ReplayNeverBlocks(events: seq<Event>)
    requires Run(events).Some? && Run(events).value.phase.Replaying?
    ensures var s := Run(events).value;
            Enabled(s, Replay) || Enabled(s, Subscribe)
  {
    hide Run;
    RunInv(events);
  }
}
