/** Pending pings: the table of a node, and every interleaving of senders, pongs, cancellations
    and timeouts over it. */
module PingTracker {
  import opened Types
  import opened Messaging

  // ---- The table ------------------------------------------------------------------------------

  /** A channel with room for one value. */
  class Channel {
    var buf: seq<int>

    constructor ()
      ensures buf == []
    {
      buf := [];
    }
  }

  const NANOS_PER_MILLI: int := 1_000_000
  const MAX_DURATION: int := 0x7FFF_FFFF_FFFF_FFFF

  /** Go's `int64(u)`: stamps of 2^63 and more turn negative. */
  function ToInt64(u: UInt64): (r: int)
    ensures -0x8000_0000_0000_0000 <= r <= 0x7FFF_FFFF_FFFF_FFFF && (r == u || r + 0x1_0000_0000_0000_0000 == u)
  {
    if u < 0x8000_0000_0000_0000 then u else u - 0x1_0000_0000_0000_0000
  }

  /** A difference of two times, capped at what a duration can hold. */
  function Saturated(d: int): (r: int)
    ensures -0x8000_0000_0000_0000 <= r <= 0x7FFF_FFFF_FFFF_FFFF
    ensures -0x8000_0000_0000_0000 <= d <= 0x7FFF_FFFF_FFFF_FFFF ==> r == d
    ensures d > 0x7FFF_FFFF_FFFF_FFFF ==> r == 0x7FFF_FFFF_FFFF_FFFF
    ensures d < -0x8000_0000_0000_0000 ==> r == -0x8000_0000_0000_0000
  {
    if d > MAX_DURATION then MAX_DURATION else if d < -MAX_DURATION - 1 then -MAX_DURATION - 1 else d
  }

  /** The time since a stamp in milliseconds, on a clock in nanoseconds. */
  function RoundTrip(now: int, stamp: UInt64): int {
    Saturated(now - ToInt64(stamp) * NANOS_PER_MILLI)
  }

  class Tracker {
    var pendingPings: map<Nonce, Channel>

    constructor ()
      ensures pendingPings == map[]
    {
      pendingPings := map[];
    }

    method RecordPingSent(nonce: Nonce) returns (ch: Channel)
      modifies this
      ensures fresh(ch) && ch.buf == [] && pendingPings == old(pendingPings)[nonce := ch]
    {
      ch := new Channel();
      pendingPings := pendingPings[nonce := ch];
    }

    method CancelPendingPing(nonce: Nonce)
      modifies this
      ensures pendingPings == old(pendingPings) - {nonce}
    {
      pendingPings := pendingPings - {nonce};
    }

    /** `now` is in nanoseconds, the echoed timestamp in milliseconds. A value for a channel that
        is full is dropped rather than waited for. */
    method HandlePongReceived(nonce: Nonce, pingTimestamp: UInt64, now: int)
      modifies this, if nonce in pendingPings then {pendingPings[nonce]} else {}
      ensures pendingPings == old(pendingPings) - {nonce}
      ensures nonce in old(pendingPings) ==>
                var ch := old(pendingPings)[nonce];
                ch.buf == if old(ch.buf) == [] then [RoundTrip(now, pingTimestamp)] else old(ch.buf)
    {
      if nonce in pendingPings {
        var ch := pendingPings[nonce];
        pendingPings := pendingPings - {nonce};
        var rtt := RoundTrip(now, pingTimestamp);
        if |ch.buf| < 1 {
          ch.buf := ch.buf + [rtt];
        }
      }
    }
  }

  // ---- Concurrent pings -----------------------------------------------------------------------

  /** A round trip as reported, and the clock reading it was computed with. */
  datatype Rtt = Rtt(value: int, readAt: int)

  datatype Stage = Sending | Waiting | Returned(rtt: Rtt) | SendFailed | TimedOut

  /** One `SendPing` call: when it stamped its envelope, where it stands, and its own channel. */
  datatype Ping = Ping(env: Envelope, sentAt: nat, stage: Stage, channel: seq<Rtt>)

  /** A pong handler between taking the entry out of the table and sending on the channel. */
  datatype Taken = Taken(ping: nat, timestamp: UInt64)

  /** `delivered` counts the values ever put in each ping's channel, `drops` those refused. */
  datatype State = State(pings: seq<Ping>, pending: map<Nonce, nat>, taken: seq<Taken>,
                         delivered: multiset<nat>, drops: nat)

  datatype Event =
    | Send(nonce: Nonce, msgId: string, from: NodeID, now: nat)
    | SendOk(i: nat)
    | SendErr(i: nat)
    | PongBack(i: nat, peer: NodeID, peerClock: UInt64)  // the answer to ping i arrives, perhaps again
    | StrayPong(nonce: Nonce, timestamp: UInt64)         // a pong for a nonce never used
    | Deliver(j: nat, now: nat)
    | Receive(i: nat)
    | Timeout(i: nat)

  const START: State := State([], map[], [], multiset{}, 0)

  function Millis(nanos: nat): nat {
    nanos / 1_000_000
  }

  function NonceOf(p: Ping): Nonce {
    if p.env.payload.Ping? then p.env.payload.nonce else []
  }

  /** Nonces are never reused, the stamp is a signed 64-bit number of milliseconds, and strangers do
      not guess nonces. */
  predicate Enabled(s: State, e: Event) {
    match e
    case Send(nonce, _, _, now) =>
      Millis(now) < 0x8000_0000_0000_0000 && forall i | 0 <= i < |s.pings| :: NonceOf(s.pings[i]) != nonce
    case SendOk(i) => i < |s.pings| && s.pings[i].stage.Sending?
    case SendErr(i) => i < |s.pings| && s.pings[i].stage.Sending?
    case PongBack(i, _, _) => i < |s.pings| && s.pings[i].env.payload.Ping?
    case StrayPong(nonce, _) => forall i | 0 <= i < |s.pings| :: NonceOf(s.pings[i]) != nonce
    case Deliver(j, _) => j < |s.taken|
    case Receive(i) => i < |s.pings| && s.pings[i].stage.Waiting? && s.pings[i].channel != []
    case Timeout(i) => i < |s.pings| && s.pings[i].stage.Waiting?
  }

  /** The locked part of `HandlePongReceived`. */
  function Take(s: State, nonce: Nonce, timestamp: UInt64): State {
    if nonce in s.pending
    then s.(pending := s.pending - {nonce}, taken := s.taken + [Taken(s.pending[nonce], timestamp)])
    else s
  }

  /** The part after the lock: compute the round trip and offer it to the channel. */
  function Offer(s: State, j: nat, now: nat): State
    requires j < |s.taken|
  {
    var t := s.taken[j];
    var rest := s.taken[..j] + s.taken[j + 1..];
    if t.ping >= |s.pings| then s.(taken := rest)
    else
      var p := s.pings[t.ping];
      if |p.channel| < 1
      then s.(taken := rest, delivered := s.delivered + multiset{t.ping},
              pings := s.pings[t.ping := p.(channel := p.channel + [Rtt(RoundTrip(now, t.timestamp), now)])])
      else s.(taken := rest, drops := s.drops + 1)
  }

  function Next(s: State, e: Event): State
    requires Enabled(s, e)
  {
    match e
    case Send(nonce, msgId, from, now) =>
      var env := Envelope(msgId, Some(from), Millis(now), Payload.Ping(nonce));
      s.(pings := s.pings + [Ping.Ping(env, now, Sending, [])], pending := s.pending[nonce := |s.pings|])
    case SendOk(i) => s.(pings := s.pings[i := s.pings[i].(stage := Waiting)])
    case SendErr(i) =>
      s.(pings := s.pings[i := s.pings[i].(stage := SendFailed)], pending := s.pending - {NonceOf(s.pings[i])})
    case PongBack(i, peer, peerClock) =>
      var pong := Answer(peer, s.pings[i].env, peerClock);
      Take(s, pong.payload.nonce, pong.payload.pingTimestamp)
    case StrayPong(nonce, timestamp) => Take(s, nonce, timestamp)
    case Deliver(j, now) => Offer(s, j, now)
    case Receive(i) =>
      s.(pings := s.pings[i := s.pings[i].(stage := Returned(s.pings[i].channel[0]), channel := s.pings[i].channel[1..])])
    case Timeout(i) =>
      s.(pings := s.pings[i := s.pings[i].(stage := TimedOut)], pending := s.pending - {NonceOf(s.pings[i])})
  }

  function Run(events: seq<Event>): Option<State> {
    if events == [] then Some(START)
    else match Run(events[..|events| - 1])
      case None => None
      case Some(s) => if Enabled(s, events[|events| - 1]) then Some(Next(s, events[|events| - 1])) else None
  }

  // ---- The invariant ---------------------------------------------------------------------------

  /** The call has returned to its caller. */
  predicate Exited(p: Ping) {
    p.stage.Returned? || p.stage.SendFailed? || p.stage.TimedOut?
  }

  /** A reported round trip is the clock at the answer minus the stamp of this very ping. */
  predicate FromOwnStamp(p: Ping, r: Rtt) {
    r.value == Saturated(r.readAt - Millis(p.sentAt) * NANOS_PER_MILLI)
  }

  predicate PingOk(p: Ping) {
    && p.env.payload.Ping? && p.env.timestamp == Millis(p.sentAt) < 0x8000_0000_0000_0000
    && |p.channel| <= 1
    && (forall r | r in p.channel :: FromOwnStamp(p, r))
    && (p.stage.Returned? ==> FromOwnStamp(p, p.stage.rtt) && p.channel == [])
  }

  ghost predicate PendingOk(s: State) {
    forall n | n in s.pending ::
      && s.pending[n] < |s.pings| && NonceOf(s.pings[s.pending[n]]) == n
      && s.pings[s.pending[n]].channel == [] && !Exited(s.pings[s.pending[n]])
      && s.delivered[s.pending[n]] == 0
  }

  ghost predicate TakenOk(s: State) {
    && (forall j | 0 <= j < |s.taken| ::
          var t := s.taken[j];
          && t.ping < |s.pings| && NonceOf(s.pings[t.ping]) !in s.pending
          && s.pings[t.ping].channel == [] && !s.pings[t.ping].stage.Returned?
          && s.delivered[t.ping] == 0 && t.timestamp == s.pings[t.ping].env.timestamp)
    && (forall j, k | 0 <= j < k < |s.taken| :: s.taken[j].ping != s.taken[k].ping)
  }

  ghost predicate PingsOk(s: State) {
    && (forall i | 0 <= i < |s.pings| :: PingOk(s.pings[i]))
    && (forall i, k | 0 <= i < k < |s.pings| :: NonceOf(s.pings[i]) != NonceOf(s.pings[k]))
  }

  ghost predicate OnceEach(s: State) {
    && (forall i | 0 <= i < |s.pings| :: s.delivered[i] <= 1)
    && (forall i | i in s.delivered :: i < |s.pings|)
  }

  /** Who has been answered or has given up is no longer in the table. */
  ghost predicate LeftTable(s: State) {
    forall i | 0 <= i < |s.pings| && (s.pings[i].channel != [] || Exited(s.pings[i])) :: NonceOf(s.pings[i]) !in s.pending
  }

  ghost predicate Inv(s: State) {
    PingsOk(s) && OnceEach(s) && LeftTable(s) && PendingOk(s) && TakenOk(s) && s.drops == 0
  }

  lemma TakeKeeps(s: State, nonce: Nonce, timestamp: UInt64)
    requires Inv(s)
    requires nonce in s.pending ==> timestamp == s.pings[s.pending[nonce]].env.timestamp
    ensures Inv(Take(s, nonce, timestamp))
  {
    hide PingOk;
  }

  // An answer offered to the channel of its ping.

  lemma OfferedPings(s: State, j: nat, now: nat)
    requires Inv(s) && j < |s.taken|
    ensures PingsOk(Offer(s, j, now)) && OnceEach(Offer(s, j, now)) && Offer(s, j, now).drops == 0
  {
    hide PendingOk, LeftTable;
    var t := s.taken[j];
    assert PingOk(s.pings[t.ping]);
    assert PingOk(Offer(s, j, now).pings[t.ping]);
  }

  lemma OfferedTable(s: State, j: nat, now: nat)
    requires Inv(s) && j < |s.taken|
    ensures LeftTable(Offer(s, j, now)) && PendingOk(Offer(s, j, now))
  {
    hide PingOk;
    var u := Offer(s, j, now);
    assert forall k | 0 <= k < |u.pings| :: NonceOf(u.pings[k]) == NonceOf(s.pings[k]) && u.pings[k].stage == s.pings[k].stage;
  }

  lemma OfferedTaken(s: State, j: nat, now: nat)
    requires Inv(s) && j < |s.taken|
    ensures TakenOk(Offer(s, j, now))
  {
    hide PingsOk, LeftTable, PendingOk;
    var u := Offer(s, j, now);
    assert forall k | 0 <= k < |u.taken| :: u.taken[k] == s.taken[if k < j then k else k + 1];
  }

  // A call that goes on waiting, gives up, or was never sent: the two last clear the table.

  function Staged(s: State, i: nat, stage: Stage, cancel: bool): State
    requires i < |s.pings|
  {
    s.(pings := s.pings[i := s.pings[i].(stage := stage)],
       pending := if cancel then s.pending - {NonceOf(s.pings[i])} else s.pending)
  }

  lemma StagedAlike(s: State, i: nat, stage: Stage, cancel: bool)
    requires i < |s.pings|
    ensures var pings := Staged(s, i, stage, cancel).pings;
            forall k | 0 <= k < |pings| ::
              NonceOf(pings[k]) == NonceOf(s.pings[k]) && pings[k].channel == s.pings[k].channel && pings[k].env == s.pings[k].env
              && pings[k].sentAt == s.pings[k].sentAt && (k != i ==> pings[k] == s.pings[k])
  {
  }

  lemma StagedPings(s: State, i: nat, stage: Stage, cancel: bool)
    requires Inv(s) && i < |s.pings| && !stage.Returned?
    ensures PingsOk(Staged(s, i, stage, cancel)) && OnceEach(Staged(s, i, stage, cancel))
  {
    hide PendingOk, LeftTable, TakenOk;
    StagedAlike(s, i, stage, cancel);
    assert PingOk(Staged(s, i, stage, cancel).pings[i]);
  }

  lemma StagedTable(s: State, i: nat, stage: Stage, cancel: bool)
    requires Inv(s) && i < |s.pings| && !Exited(s.pings[i]) && !stage.Returned? && (stage.Waiting? || cancel)
    ensures LeftTable(Staged(s, i, stage, cancel)) && PendingOk(Staged(s, i, stage, cancel))
  {
    hide PingOk, TakenOk, OnceEach;
    StagedAlike(s, i, stage, cancel);
  }

  lemma StagedTaken(s: State, i: nat, stage: Stage, cancel: bool)
    requires Inv(s) && i < |s.pings| && !stage.Returned?
    ensures TakenOk(Staged(s, i, stage, cancel))
  {
    hide PingsOk, LeftTable, PendingOk, OnceEach;
    StagedAlike(s, i, stage, cancel);
  }

  lemma StageKeeps(s: State, i: nat, stage: Stage, cancel: bool)
    requires Inv(s) && i < |s.pings| && !Exited(s.pings[i]) && !stage.Returned? && (stage.Waiting? || cancel)
    ensures Inv(Staged(s, i, stage, cancel))
  {
    hide PingsOk, OnceEach, LeftTable, PendingOk, TakenOk;
    StagedPings(s, i, stage, cancel);
    StagedTable(s, i, stage, cancel);
    StagedTaken(s, i, stage, cancel);
  }

  lemma OfferKeeps(s: State, j: nat, now: nat)
    requires Inv(s) && j < |s.taken|
    ensures Inv(Offer(s, j, now))
  {
    hide PingsOk, OnceEach, LeftTable, PendingOk, TakenOk, Offer;
    OfferedPings(s, j, now);
    OfferedTable(s, j, now);
    OfferedTaken(s, j, now);
  }

  lemma SendKeeps(s: State, nonce: Nonce, msgId: string, from: NodeID, now: nat)
    requires Inv(s) && Enabled(s, Send(nonce, msgId, from, now))
    ensures Inv(Next(s, Send(nonce, msgId, from, now)))
  {
    var u := Next(s, Send(nonce, msgId, from, now));
    assert nonce !in s.pending;
    assert forall i | 0 <= i < |s.pings| :: u.pings[i] == s.pings[i];
  }

  lemma ReceiveKeeps(s: State, i: nat)
    requires Inv(s) && Enabled(s, Receive(i))
    ensures Inv(Next(s, Receive(i)))
  {
    var pings := Next(s, Receive(i)).pings;
    assert s.pings[i].channel[0] in s.pings[i].channel;
    assert forall k | 0 <= k < |pings| :: NonceOf(pings[k]) == NonceOf(s.pings[k]) && pings[k].env == s.pings[k].env;
    assert PingOk(pings[i]);
    assert forall j | 0 <= j < |s.taken| :: s.taken[j].ping != i;
  }

  lemma NextKeepsInv(s: State, e: Event)
    requires Inv(s) && Enabled(s, e)
    ensures Inv(Next(s, e))
  {
    match e
    case Send(nonce, msgId, from, now) => SendKeeps(s, nonce, msgId, from, now);
    case PongBack(i, _, _) => TakeKeeps(s, NonceOf(s.pings[i]), s.pings[i].env.timestamp);
    case StrayPong(nonce, timestamp) => TakeKeeps(s, nonce, timestamp);
    case Deliver(j, now) => OfferKeeps(s, j, now);
    case SendOk(i) => StageKeeps(s, i, Waiting, false);
    case SendErr(i) => StageKeeps(s, i, SendFailed, true);
    case Timeout(i) => StageKeeps(s, i, TimedOut, true);
    case Receive(i) => ReceiveKeeps(s, i);
  }

  lemma {:induction false} RunInv(events: seq<Event>)
    ensures Run(events).Some? ==> Inv(Run(events).value)
  {
    hide Inv, Enabled, Next;
    if events == [] {
      assert Inv(START) by { StartInv(); }
    } else {
      RunInv(events[..|events| - 1]);
      var s := Run(events[..|events| - 1]);
      if s.Some? && Enabled(s.value, events[|events| - 1]) {
        NextKeepsInv(s.value, events[|events| - 1]);
      }
    }
  }

  lemma StartInv()
    ensures Inv(START)
  {
  }

  // ---- Where the answer to a ping is ------------------------------------------------------------------

  ghost predicate TakenFor(s: State, i: nat) {
    exists j :: 0 <= j < |s.taken| && s.taken[j].ping == i
  }

  function One(b: bool): nat {
    if b then 1 else 0
  }

  /** A call under way is in the table, or its answer is with a handler or in its channel, and in one
      of these places only; what a channel was ever given is in it still or was returned. */
  ghost predicate TrackedAt(s: State, i: nat)
    requires i < |s.pings|
  {
    var p := s.pings[i];
    && s.delivered[i] == |p.channel| + One(p.stage.Returned?)
    && (!Exited(p) ==> One(NonceOf(p) in s.pending) + One(TakenFor(s, i)) + |p.channel| == 1)
  }

  ghost predicate Tracked(s: State) {
    forall i | 0 <= i < |s.pings| :: TrackedAt(s, i)
  }

  lemma TakeTracked(s: State, nonce: Nonce, timestamp: UInt64)
    requires Inv(s) && Tracked(s)
    ensures Tracked(Take(s, nonce, timestamp))
  {
    hide PingOk, OnceEach, LeftTable;
    var t := Take(s, nonce, timestamp);
    if nonce in s.pending {
      forall i | 0 <= i < |s.pings| ensures TrackedAt(t, i) {
        assert TrackedAt(s, i);
        assert TakenFor(t, i) <==> TakenFor(s, i) || i == s.pending[nonce] by {
          assert t.taken[|s.taken|].ping == s.pending[nonce];
          assert forall j | 0 <= j < |s.taken| :: t.taken[j] == s.taken[j];
        }
        if i != s.pending[nonce] {
          assert NonceOf(s.pings[i]) != nonce;
        }
      }
    }
  }

  lemma OfferTracked(s: State, j: nat, now: nat)
    requires Inv(s) && Tracked(s) && j < |s.taken|
    ensures Tracked(Offer(s, j, now))
  {
    hide PingOk, OnceEach, LeftTable, PendingOk;
    var t, k := Offer(s, j, now), s.taken[j].ping;
    assert forall m | 0 <= m < |t.taken| :: t.taken[m] == s.taken[if m < j then m else m + 1];
    forall i | 0 <= i < |s.pings| ensures TrackedAt(t, i) {
      assert TrackedAt(s, i);
      if i == k {
        assert TakenFor(s, i) && !TakenFor(t, i);
      } else {
        assert TakenFor(s, i) <==> TakenFor(t, i) by {
          if m :| 0 <= m < |s.taken| && s.taken[m].ping == i {
            assert t.taken[if m < j then m else m - 1].ping == i;
          }
        }
      }
    }
  }

  lemma OtherTracked(s: State, e: Event)
    requires Inv(s) && Tracked(s) && Enabled(s, e) && (e.SendOk? || e.SendErr? || e.Receive? || e.Timeout?)
    ensures Tracked(Next(s, e))
  {
    hide PingOk, OnceEach, LeftTable, PendingOk;
    var t := Next(s, e);
    forall i | 0 <= i < |s.pings| ensures TrackedAt(t, i) {
      assert TrackedAt(s, i);
      assert TakenFor(s, i) == TakenFor(t, i);
      if i != e.i {
        assert NonceOf(s.pings[i]) != NonceOf(s.pings[e.i]) && t.pings[i] == s.pings[i];
      }
    }
  }

  lemma SendTracked(s: State, nonce: Nonce, msgId: string, from: NodeID, now: nat)
    requires Inv(s) && Tracked(s) && Enabled(s, Send(nonce, msgId, from, now))
    ensures Tracked(Next(s, Send(nonce, msgId, from, now)))
  {
    hide PingOk, LeftTable;
    var t := Next(s, Send(nonce, msgId, from, now));
    forall i | 0 <= i < |t.pings| ensures TrackedAt(t, i) {
      assert TakenFor(s, i) == TakenFor(t, i);
      if i < |s.pings| {
        assert TrackedAt(s, i) && t.pings[i] == s.pings[i];
      } else {
        assert !TakenFor(t, i) && s.delivered[i] == 0;
      }
    }
  }

  lemma NextTracked(s: State, e: Event)
    requires Inv(s) && Tracked(s) && Enabled(s, e)
    ensures Tracked(Next(s, e))
  {
    hide Inv, Tracked, Take, Offer;
    match e
    case Send(nonce, msgId, from, now) => SendTracked(s, nonce, msgId, from, now);
    case PongBack(i, _, _) => TakeTracked(s, NonceOf(s.pings[i]), s.pings[i].env.timestamp);
    case StrayPong(nonce, timestamp) => TakeTracked(s, nonce, timestamp);
    case Deliver(j, now) => OfferTracked(s, j, now);
    case _ => OtherTracked(s, e);
  }

  lemma {:induction false} RunTracked(events: seq<Event>)
    ensures Run(events).Some? ==> Tracked(Run(events).value)
  {
    hide Inv, Enabled, Next, TrackedAt;
    if events != [] {
      hide Tracked;
      RunTracked(events[..|events| - 1]);
      RunInv(events[..|events| - 1]);
      var s := Run(events[..|events| - 1]);
      if s.Some? && Enabled(s.value, events[|events| - 1]) {
        NextTracked(s.value, events[|events| - 1]);
      }
    }
  }

  // ---- What has happened so far ----------------------------------------------------------------------

  /** The sends among some events, in order. */
  function Sends(events: seq<Event>): seq<Event> {
    if events == [] then []
    else
      var e := events[|events| - 1];
      Sends(events[..|events| - 1]) + (if e.Send? then [e] else [])
  }

  /** What one event leaves of the calls: their nonces and times stay, and a call moves only by its own. */
  lemma CallsAfter(s: State, e: Event)
    requires Enabled(s, e)
    ensures var t := Next(s, e);
            if e.Send? then
              && |t.pings| == |s.pings| + 1 && t.pings[..|s.pings|] == s.pings
              && NonceOf(t.pings[|s.pings|]) == e.nonce && t.pings[|s.pings|].sentAt == e.now && t.pings[|s.pings|].stage.Sending?
            else
              && |t.pings| == |s.pings|
              && (forall k | 0 <= k < |s.pings| :: NonceOf(t.pings[k]) == NonceOf(s.pings[k]) && t.pings[k].sentAt == s.pings[k].sentAt)
              && (forall k | 0 <= k < |s.pings| && !(e.Receive? && e.i == k) && !(e.Timeout? && e.i == k)
                             && !(e.SendOk? && e.i == k) && !(e.SendErr? && e.i == k) :: t.pings[k].stage == s.pings[k].stage)
  {
  }

  /** Each send starts one call, of that nonce and at that time. */
  lemma {:induction false} SentDecided(events: seq<Event>)
    requires Run(events).Some?
    ensures var pings, sends := Run(events).value.pings, Sends(events);
            && |pings| == |sends|
            && forall i | 0 <= i < |pings| :: sends[i].Send? && NonceOf(pings[i]) == sends[i].nonce && pings[i].sentAt == sends[i].now
  {
    hide Enabled, Next, NonceOf;
    if events != [] {
      var n := |events| - 1;
      SentDecided(events[..n]);
      CallsAfter(Run(events[..n]).value, events[n]);
      var before, after := Run(events[..n]).value.pings, Run(events).value.pings;
      assert forall k | 0 <= k < |before| :: NonceOf(after[k]) == NonceOf(before[k]) && after[k].sentAt == before[k].sentAt by {
        assert events[n].Send? ==> forall k | 0 <= k < |before| :: after[..|before|][k] == after[k];
      }
    }
  }

  /** How the `i`-th call stands, from the events alone. */
  predicate StandsAs(pings: seq<Ping>, events: seq<Event>, i: nat) {
    if i < |pings| then
      var stage := pings[i].stage;
      && (SendErr(i) in events <==> stage.SendFailed?)
      && (SendOk(i) in events <==> stage.Waiting? || stage.TimedOut? || stage.Returned?)
      && (Timeout(i) in events <==> stage.TimedOut?)
      && (Receive(i) in events <==> stage.Returned?)
    else
      SendErr(i) !in events && SendOk(i) !in events && Timeout(i) !in events && Receive(i) !in events
  }

  lemma StageStep(s: State, e: Event, before: seq<Event>, i: nat)
    requires Enabled(s, e) && StandsAs(s.pings, before, i)
    ensures StandsAs(Next(s, e).pings, before + [e], i)
  {
    CallsAfter(s, e);
    hide Take, Offer, NonceOf;
    var t := Next(s, e);
    if e.Send? && i < |s.pings| {
      assert t.pings[..|s.pings|][i] == t.pings[i];
    }
  }

  /** A call stands where its own events put it, whatever happens to the others. */
  lemma {:induction false} StageDecided(events: seq<Event>, i: nat)
    requires Run(events).Some?
    ensures StandsAs(Run(events).value.pings, events, i)
  {
    hide Next;
    if events != [] {
      var n := |events| - 1;
      StageDecided(events[..n], i);
      assert events == events[..n] + [events[n]];
      StageStep(Run(events[..n]).value, events[n], events[..n], i);
    }
  }

  lemma RunOn(events: seq<Event>, e: Event)
    requires Run(events).Some? && Enabled(Run(events).value, e)
    ensures Run(events + [e]) == Some(Next(Run(events).value, e))
  {
    assert (events + [e])[..|events|] == events;
  }

  /** A call under way can return by itself: with the answer if its channel has one, else by timing out. */
  lemma ReturnsAlone(events: seq<Event>, i: nat) returns (more: seq<Event>)
    requires Run(events).Some? && i < |Run(events).value.pings| && !Exited(Run(events).value.pings[i])
    ensures Run(events + more).Some?
    ensures var s, t := Run(events).value, Run(events + more).value;
            && |t.pings| == |s.pings| && t.taken == s.taken && Exited(t.pings[i])
            && (forall k | 0 <= k < |s.pings| && k != i :: t.pings[k] == s.pings[k])
            && t.pings[i].stage == if s.pings[i].channel != [] then Returned(s.pings[i].channel[0]) else TimedOut
  {
    hide Run;
    var s := Run(events).value;
    var first: seq<Event> := [];
    assert events + [] == events;
    if s.pings[i].stage.Sending? {
      RunOn(events, SendOk(i));
      first := [SendOk(i)];
    }
    var last := if s.pings[i].channel != [] then Receive(i) else Timeout(i);
    RunOn(events + first, last);
    assert events + first + [last] == events + (first + [last]);
    more := first + [last];
  }

  lemma {:induction false} FirstReturn(events: seq<Event>, k: nat) returns (more: seq<Event>)
    requires Run(events).Some? && k <= |Run(events).value.pings|
    ensures Run(events + more).Some?
    ensures var s, t := Run(events).value, Run(events + more).value;
            && |t.pings| == |s.pings| && t.taken == s.taken
            && (forall i | 0 <= i < |s.pings| && (i >= k || Exited(s.pings[i])) :: t.pings[i] == s.pings[i])
            && (forall i | 0 <= i < k && !Exited(s.pings[i]) ::
                  t.pings[i].stage == if s.pings[i].channel != [] then Returned(s.pings[i].channel[0]) else TimedOut)
    decreases k
  {
    hide Run;
    more := [];
    assert events + [] == events;
    if k > 0 {
      more := FirstReturn(events, k - 1);
      if !Exited(Run(events).value.pings[k - 1]) {
        var last := ReturnsAlone(events + more, k - 1);
        assert events + more + last == events + (more + last);
        more := more + last;
      }
    }
  }

  /** No call waits for ever: from any point of any run all calls under way can return, those with an
      answer in their channel with that answer, and the table is then empty. */
  lemma EveryCallReturns(events: seq<Event>) returns (more: seq<Event>)
    requires Run(events).Some?
    ensures Run(events + more).Some?
    ensures var s, t := Run(events).value, Run(events + more).value;
            && |t.pings| == |s.pings| && t.pending == map[]
            && (forall i | 0 <= i < |s.pings| :: if Exited(s.pings[i]) then t.pings[i] == s.pings[i]
                  else t.pings[i].stage == if s.pings[i].channel != [] then Returned(s.pings[i].channel[0]) else TimedOut)
  {
    hide Run, PingsOk, OnceEach, LeftTable, TakenOk;
    more := FirstReturn(events, |Run(events).value.pings|);
    RunInv(events + more);
    var t := Run(events + more).value;
    assert forall n :: n !in t.pending;
  }

  // ---- Results ---------------------------------------------------------------------------------

  /** In any interleaving with duplicate and stray pongs: a nonce in the table belongs to a call
      still under way whose channel is empty; every channel ever gets at most one value; no
      value is ever dropped; a call that has returned, in whatever way, has left the table. */
  lemma PingSafety(events: seq<Event>)
    requires Run(events).Some?
    ensures var s := Run(events).value;
            && (forall n | n in s.pending :: s.pending[n] < |s.pings| && NonceOf(s.pings[s.pending[n]]) == n
                  && s.pings[s.pending[n]].channel == [] && !Exited(s.pings[s.pending[n]]))
            && (forall i | 0 <= i < |s.pings| :: s.delivered[i] <= 1)
            && s.drops == 0
            && (forall i | 0 <= i < |s.pings| && Exited(s.pings[i]) :: NonceOf(s.pings[i]) !in s.pending)
  {
    hide Run;
    RunInv(events);
  }

  /** No answer is lost: in any run a call under way is in the table, or its answer is with a handler or
      in its channel; a pong for a ping in the table goes to a handler, and a handler puts the round
      trip of this very ping in the ping's empty channel. */
  lemma PongsArrive(events: seq<Event>)
    requires Run(events).Some?
    ensures var s := Run(events).value;
            && Tracked(s)
            && (forall i, peer, clock | 0 <= i < |s.pings| && NonceOf(s.pings[i]) in s.pending ::
                  Enabled(s, PongBack(i, peer, clock)) &&
                  var t := Next(s, PongBack(i, peer, clock));
                  t.taken == s.taken + [Taken(i, s.pings[i].env.timestamp)] && NonceOf(s.pings[i]) !in t.pending)
            && (forall j: nat, now: nat | j < |s.taken| ::
                  var i := s.taken[j].ping;
                  Enabled(s, Deliver(j, now)) && i < |s.pings|
                  && Next(s, Deliver(j, now)).pings[i].channel == [Rtt(RoundTrip(now, s.pings[i].env.timestamp), now)])
  {
    hide Run, Tracked, PingOk;
    RunInv(events);
    RunTracked(events);
    var s := Run(events).value;
    AllPings(s);
    forall j: nat, now: nat | j < |s.taken|
      ensures s.taken[j].ping < |s.pings|
      ensures Next(s, Deliver(j, now)).pings[s.taken[j].ping].channel ==
              [Rtt(RoundTrip(now, s.pings[s.taken[j].ping].env.timestamp), now)] {
    }
    forall i, peer, clock | 0 <= i < |s.pings| && NonceOf(s.pings[i]) in s.pending
      ensures Enabled(s, PongBack(i, peer, clock)) && Next(s, PongBack(i, peer, clock)).taken == s.taken + [Taken(i, s.pings[i].env.timestamp)] {
      TheirOwn(s, i);
    }
  }

  lemma AllPings(s: State)
    requires Inv(s)
    ensures forall i | 0 <= i < |s.pings| :: s.pings[i].env.payload.Ping?
  {
    hide OnceEach, LeftTable, PendingOk, TakenOk;
    assert forall i | 0 <= i < |s.pings| :: PingOk(s.pings[i]);
  }

  lemma TheirOwn(s: State, i: nat)
    requires Inv(s) && i < |s.pings| && NonceOf(s.pings[i]) in s.pending
    ensures s.pending[NonceOf(s.pings[i])] == i
  {
    hide PingOk, OnceEach, LeftTable, TakenOk;
  }

  /** A round trip that is reported uses only the sender's own clock: short of the cap of a
      duration, it lies within one millisecond above the time between stamping the ping and reading
      the pong. */
  lemma RttAccuracy(events: seq<Event>, i: nat)
    requires Run(events).Some? && i < |Run(events).value.pings| && Run(events).value.pings[i].stage.Returned?
    ensures var p := Run(events).value.pings[i];
            var trueRtt := p.stage.rtt.readAt - p.sentAt;
            && (exists measured: int :: trueRtt <= measured < trueRtt + NANOS_PER_MILLI && p.stage.rtt.value == Saturated(measured))
            && (-MAX_DURATION <= trueRtt <= MAX_DURATION - NANOS_PER_MILLI ==>
                  trueRtt <= p.stage.rtt.value < trueRtt + NANOS_PER_MILLI)
  {
    hide Run;
    RunInv(events);
    var p := Run(events).value.pings[i];
    assert PingOk(p);
    assert p.sentAt == Millis(p.sentAt) * 1_000_000 + p.sentAt % 1_000_000;
    var measured := p.stage.rtt.readAt - Millis(p.sentAt) * NANOS_PER_MILLI;
    assert p.stage.rtt.value == Saturated(measured);
  }
}
