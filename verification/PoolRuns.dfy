/** The pool under concurrent use: senders that look a stream up, lock it and send, and threads
    that set, delete and close connections meanwhile. Connections and streams are numbered;
    each is put in the pool once, right after it was dialled. */
module PoolRuns {
  import opened Types

  datatype Locked = Locked(lock: nat, stream: nat)

  /** A sender that found a stream, and one that holds its lock and is inside Send. */
  datatype Sender = Found(ls: Locked) | Sending(ls: Locked)

  /** History: `everSet` and `home` say which connections were ever set and where, `closed` which
      the process closed, `overwritten` which a later SetConn displaced, `ownClosed` which a
      failed connect closed by itself; `streamOf` which stream each lock guards. */
  datatype State = State(conns: map<string, nat>, streams: map<string, Locked>,
                         senders: map<nat, Sender>, holder: map<nat, nat>,
                         connecting: set<nat>, failed: set<nat>,
                         everSet: set<nat>, home: map<nat, string>, closed: set<nat>, overwritten: set<nat>, ownClosed: set<nat>,
                         streamOf: map<nat, nat>)

  datatype Event =
    | SetConn(addr: string, conn: nat)
    | DeleteConn(addr: string)
    | CloseByAddr(addr: string)
    | CloseAll
    | Connect(addr: string, conn: nat)      // a connect dials and sets its connection
    | ConnectFails(conn: nat)               // its stream fails: it deletes what its address holds ...
    | CloseOwn(conn: nat)                   // ... and then closes the connection it dialled
    | SetStream(addr: string, lock: nat, stream: nat)
    | DeleteStream(addr: string)
    | Lookup(thread: nat, addr: string)
    | Acquire(thread: nat)
    | Release(thread: nat)

  const START: State := State(map[], map[], map[], map[], {}, {}, {}, map[], {}, {}, {}, map[])

  predicate Enabled(s: State, e: Event) {
    match e
    case SetConn(_, c) => c !in s.everSet
    case Connect(_, c) => c !in s.everSet
    case ConnectFails(c) => c in s.connecting && c in s.home
    case CloseOwn(c) => c in s.failed
    case SetStream(_, lock, stream) => lock !in s.streamOf && stream !in s.streamOf.Values
    case Lookup(t, addr) => t !in s.senders && addr in s.streams
    case Acquire(t) => t in s.senders && s.senders[t].Found? && s.senders[t].ls.lock !in s.holder
    case Release(t) => t in s.senders && s.senders[t].Sending?
    case _ => true
  }

  function WithConn(s: State, addr: string, c: nat): State {
    s.(conns := s.conns[addr := c], everSet := s.everSet + {c}, home := s.home[c := addr],
       overwritten := if addr in s.conns then s.overwritten + {s.conns[addr]} else s.overwritten)
  }

  function Deleted(s: State, addr: string): State {
    if addr in s.conns then s.(conns := s.conns - {addr}, closed := s.closed + {s.conns[addr]}) else s
  }

  function Next(s: State, e: Event): State
    requires Enabled(s, e)
  {
    match e
    case SetConn(addr, c) => WithConn(s, addr, c)
    case DeleteConn(addr) => Deleted(s, addr)
    case CloseByAddr(addr) => Deleted(s, addr).(streams := s.streams - {addr})
    case CloseAll => s.(conns := map[], streams := map[], closed := s.closed + s.conns.Values)
    case Connect(addr, c) => WithConn(s, addr, c).(connecting := s.connecting + {c})
    case ConnectFails(c) => Deleted(s, s.home[c]).(connecting := s.connecting - {c}, failed := s.failed + {c})
    case CloseOwn(c) => s.(failed := s.failed - {c}, closed := s.closed + {c}, ownClosed := s.ownClosed + {c})
    case SetStream(addr, lock, stream) =>
      s.(streams := s.streams[addr := Locked(lock, stream)], streamOf := s.streamOf[lock := stream])
    case DeleteStream(addr) => s.(streams := s.streams - {addr})
    case Lookup(t, addr) => s.(senders := s.senders[t := Found(s.streams[addr])])
    case Acquire(t) =>
      s.(senders := s.senders[t := Sending(s.senders[t].ls)], holder := s.holder[s.senders[t].ls.lock := t])
    case Release(t) => s.(senders := s.senders - {t}, holder := s.holder - {s.senders[t].ls.lock})
  }

  function Run(events: seq<Event>): Option<State> {
    if events == [] then Some(START)
    else match Run(events[..|events| - 1])
      case None => None
      case Some(s) => if Enabled(s, events[|events| - 1]) then Some(Next(s, events[|events| - 1])) else None
  }

  // ---- Invariants ------------------------------------------------------------------------------

  ghost predicate ConnInv(s: State) {
    && (forall a | a in s.conns :: s.conns[a] in s.everSet && s.conns[a] in s.home && s.home[s.conns[a]] == a)
    && (forall a | a in s.conns :: s.conns[a] !in s.closed && s.conns[a] !in s.overwritten && s.conns[a] !in s.failed)
    && s.home.Keys == s.everSet
    && s.connecting <= s.everSet && s.failed <= s.everSet && s.ownClosed <= s.closed
    && (forall c :: c in s.everSet <==> c in s.conns.Values || c in s.closed || c in s.overwritten)
    && (forall c | c in s.closed && c in s.overwritten :: c in s.ownClosed)
    && (forall c | c in s.connecting :: c !in s.failed)
  }

  /** No stream is guarded by two locks. */
  ghost predicate OneLockEach(streamOf: map<nat, nat>) {
    forall l, k | l in streamOf && k in streamOf && streamOf[l] == streamOf[k] :: l == k
  }

  predicate Guards(streamOf: map<nat, nat>, ls: Locked) {
    ls.lock in streamOf && streamOf[ls.lock] == ls.stream
  }

  ghost predicate PooledGuarded(s: State) {
    forall a | a in s.streams :: Guards(s.streamOf, s.streams[a])
  }

  ghost predicate SendersHold(s: State) {
    forall t | t in s.senders ::
      && Guards(s.streamOf, s.senders[t].ls)
      && (s.senders[t].Sending? ==> s.senders[t].ls.lock in s.holder && s.holder[s.senders[t].ls.lock] == t)
  }

  ghost predicate SendInv(s: State) {
    OneLockEach(s.streamOf) && PooledGuarded(s) && SendersHold(s)
  }

  lemma DeletedKeeps(s: State, addr: string)
    requires ConnInv(s)
    ensures ConnInv(Deleted(s, addr)) && addr !in Deleted(s, addr).conns
  {
    if addr in s.conns {
      var t := Deleted(s, addr);
      forall c ensures c in s.conns.Values <==> c in t.conns.Values || c == s.conns[addr] {
        if c in s.conns.Values && c != s.conns[addr] {
          var a :| a in s.conns && s.conns[a] == c;
          assert t.conns[a] == c;
        }
      }
    }
  }

  lemma WithConnKeeps(s: State, addr: string, c: nat)
    requires ConnInv(s) && c !in s.everSet
    ensures ConnInv(WithConn(s, addr, c))
  {
    var t := WithConn(s, addr, c);
    assert t.conns[addr] == c;
    forall k ensures k in t.conns.Values <==> k == c || (k in s.conns.Values && (addr in s.conns ==> k != s.conns[addr])) {
      if k in s.conns.Values && (addr in s.conns ==> k != s.conns[addr]) {
        var a :| a in s.conns && s.conns[a] == k;
        assert t.conns[a] == k;
      }
    }
  }

  /** A failed connect no longer has its connection in the pool: it lived at one address only. */
  lemma FailsKeeps(s: State, c: nat)
    requires ConnInv(s) && Enabled(s, ConnectFails(c))
    ensures ConnInv(Next(s, ConnectFails(c)))
  {
    DeletedKeeps(s, s.home[c]);
    var t := Deleted(s, s.home[c]);
    assert forall a | a in t.conns :: t.conns[a] != c;
  }

  lemma ConnectKeeps(s: State, addr: string, c: nat)
    requires ConnInv(s) && c !in s.everSet
    ensures ConnInv(Next(s, Connect(addr, c)))
  {
    WithConnKeeps(s, addr, c);
  }

  lemma ClosedKeeps(s: State)
    requires ConnInv(s)
    ensures ConnInv(Next(s, CloseAll))
  {
  }

  lemma NextKeepsConns(s: State, e: Event)
    requires ConnInv(s) && Enabled(s, e)
    ensures ConnInv(Next(s, e))
  {
    hide Deleted, WithConn;
    match e
    case SetConn(addr, c) => WithConnKeeps(s, addr, c);
    case DeleteConn(addr) => DeletedKeeps(s, addr);
    case CloseByAddr(addr) => DeletedKeeps(s, addr);
    case Connect(addr, c) => ConnectKeeps(s, addr, c);
    case ConnectFails(c) => FailsKeeps(s, c);
    case CloseAll => ClosedKeeps(s);
    case _ =>
  }

  /** A step on connections, or one that only takes streams out. */
  predicate LeavesSenders(e: Event) {
    e.SetConn? || e.DeleteConn? || e.CloseByAddr? || e.CloseAll? || e.Connect? || e.ConnectFails? || e.CloseOwn? || e.DeleteStream?
  }

  lemma KeepsGuards(s: State, e: Event)
    requires Enabled(s, e) && OneLockEach(s.streamOf)
    ensures OneLockEach(Next(s, e).streamOf) && forall ls | Guards(s.streamOf, ls) :: Guards(Next(s, e).streamOf, ls)
  {
    hide Deleted, WithConn;
    if LeavesSenders(e) {
      SameSends(s, e);
    } else if e.SetStream? {
      assert forall l | l in s.streamOf :: s.streamOf[l] in s.streamOf.Values;
    }
  }

  lemma KeepsPooled(s: State, e: Event)
    requires Enabled(s, e) && SendInv(s)
    ensures PooledGuarded(Next(s, e))
  {
    hide Deleted, WithConn, SendersHold;
    KeepsGuards(s, e);
    if LeavesSenders(e) {
      SameSends(s, e);
    }
  }

  lemma KeepsSenders(s: State, e: Event)
    requires Enabled(s, e) && SendInv(s)
    ensures SendersHold(Next(s, e))
  {
    hide Deleted, WithConn;
    if LeavesSenders(e) {
      SameSends(s, e);
    } else {
      hide OneLockEach;
      KeepsGuards(s, e);
    }
  }

  lemma NextKeepsSends(s: State, e: Event)
    requires SendInv(s) && Enabled(s, e)
    ensures SendInv(Next(s, e))
  {
    hide Enabled, Next, OneLockEach, PooledGuarded, SendersHold;
    KeepsGuards(s, e);
    KeepsPooled(s, e);
    KeepsSenders(s, e);
  }

  /** Taking an address out takes it out: nothing is pooled there any more, what was is closed, and no
      other address is touched, unless all are taken out. */
  lemma LeavesPool(s: State, e: Event, addr: string)
    requires Enabled(s, e)
    requires e == DeleteConn(addr) || e == CloseByAddr(addr) || (e.ConnectFails? && s.home[e.conn] == addr) || e == CloseAll
    ensures var t := Next(s, e);
            && t.conns == (if e.CloseAll? then map[] else s.conns - {addr}) && (addr in s.conns ==> s.conns[addr] in t.closed)
            && t.streams == (if e.CloseAll? then map[] else if e.CloseByAddr? then s.streams - {addr} else s.streams)
  {
    if addr !in s.conns {
      assert s.conns - {addr} == s.conns;
    }
  }

  /** Letting go of a lock lets the next sender in. */
  lemma ReleaseAdmits(s: State, t: nat, next: nat)
    requires SendInv(s) && Enabled(s, Release(t)) && next in s.senders && next != t && s.senders[next] == Found(s.senders[t].ls)
    ensures !Enabled(s, Acquire(next)) && Enabled(Next(s, Release(t)), Acquire(next))
  {
    hide Deleted, WithConn;
  }

  lemma SameSends(s: State, e: Event)
    requires Enabled(s, e) && LeavesSenders(e)
    ensures var t := Next(s, e);
            && t.senders == s.senders && t.holder == s.holder && t.streamOf == s.streamOf
            && forall a | a in t.streams :: a in s.streams && t.streams[a] == s.streams[a]
  {
  }

  lemma {:induction false} RunInv(events: seq<Event>)
    ensures Run(events).Some? ==> ConnInv(Run(events).value) && SendInv(Run(events).value)
  {
    hide Enabled, Next;
    if events != [] {
      hide ConnInv, SendInv;
      RunInv(events[..|events| - 1]);
      var s := Run(events[..|events| - 1]);
      if s.Some? && Enabled(s.value, events[|events| - 1]) {
        NextKeepsConns(s.value, events[|events| - 1]);
        NextKeepsSends(s.value, events[|events| - 1]);
      }
    }
  }

  // ---- What has happened so far ----------------------------------------------------------------

  predicate SetsAt(e: Event, addr: string) {
    (e.SetConn? || e.Connect?) && e.addr == addr
  }

  /** The `k`-th event takes the connection of `addr` out; a failing connect that of its own address. */
  predicate TakesOut(events: seq<Event>, k: nat, addr: string)
    requires k < |events|
  {
    var e := events[k];
    e == DeleteConn(addr) || e == CloseByAddr(addr) || e == CloseAll || (e.ConnectFails? && Connect(addr, e.conn) in events[..k])
  }

  /** The `j`-th event sets `c` at `addr`, and nothing has displaced it or taken it out since. */
  ghost predicate StillSet(events: seq<Event>, j: nat, addr: string, c: nat) {
    && j < |events| && SetsAt(events[j], addr) && events[j].conn == c
    && forall k | j < k < |events| :: !SetsAt(events[k], addr) && !TakesOut(events, k, addr)
  }

  /** What has become of connection `c`, from the events alone: set at one address, being connected,
      failed, closed by the connect that dialled it. */
  ghost predicate Fate(s: State, events: seq<Event>, c: nat) {
    && (c in s.everSet <==> exists a :: SetConn(a, c) in events || Connect(a, c) in events)
    && (forall a | SetConn(a, c) in events || Connect(a, c) in events :: c in s.home && s.home[c] == a)
    && (c in s.connecting <==> c in s.home && Connect(s.home[c], c) in events && ConnectFails(c) !in events)
    && (c in s.failed <==> ConnectFails(c) in events && CloseOwn(c) !in events)
    && (c in s.ownClosed <==> CloseOwn(c) in events)
    && (CloseOwn(c) in events ==> ConnectFails(c) in events)
    && (ConnectFails(c) in events ==> c in s.everSet)
  }

  predicate Sets(e: Event, c: nat) {
    (e.SetConn? || e.Connect?) && e.conn == c
  }

  lemma FateAfter(s: State, e: Event, c: nat)
    requires Enabled(s, e)
    ensures var t := Next(s, e);
            && (c in t.everSet <==> c in s.everSet || Sets(e, c))
            && (c in t.home <==> c in s.home || Sets(e, c))
            && (c in t.home ==> t.home[c] == if Sets(e, c) then e.addr else s.home[c])
            && (c in t.connecting <==> (c in s.connecting || (e.Connect? && e.conn == c)) && e != ConnectFails(c))
            && (c in t.failed <==> (c in s.failed || e == ConnectFails(c)) && e != CloseOwn(c))
            && (c in t.ownClosed <==> c in s.ownClosed || e == CloseOwn(c))
  {
  }

  lemma FateStep(s: State, e: Event, before: seq<Event>, c: nat)
    requires ConnInv(s) && Enabled(s, e) && Fate(s, before, c)
    ensures Fate(Next(s, e), before + [e], c)
  {
    FateAfter(s, e, c);
    assert Enabled(s, e) && (Sets(e, c) ==> c !in s.everSet) && (c in s.connecting ==> c !in s.failed) && (c in s.home <==> c in s.everSet);
    assert e == ConnectFails(c) ==> c in s.connecting;
    assert e == CloseOwn(c) ==> c in s.failed;
    hide Next, Enabled, ConnInv;
    if Sets(e, c) {
      assert SetConn(e.addr, c) == e || Connect(e.addr, c) == e;
      assert forall a :: SetConn(a, c) !in before && Connect(a, c) !in before;
    } else {
      assert forall a :: (SetConn(a, c) in before + [e] <==> SetConn(a, c) in before) && (Connect(a, c) in before + [e] <==> Connect(a, c) in before);
    }
  }

  lemma {:induction false} FateDecided(events: seq<Event>, c: nat)
    requires Run(events).Some?
    ensures Fate(Run(events).value, events, c)
  {
    hide Enabled, Next, ConnInv, SendInv;
    if events != [] {
      var n := |events| - 1;
      hide Fate;
      FateDecided(events[..n], c);
      RunInv(events[..n]);
      FateStep(Run(events[..n]).value, events[n], events[..n], c);
      assert events == events[..n] + [events[n]];
    }
  }

  /** An address is pooled with a connection exactly if that was set there and has neither been
      displaced nor taken out since. */
  lemma {:induction false} PooledIff(events: seq<Event>, addr: string, c: nat)
    requires Run(events).Some?
    ensures addr in Run(events).value.conns && Run(events).value.conns[addr] == c <==> exists j: nat :: StillSet(events, j, addr, c)
  {
    hide Enabled, Next, ConnInv, SendInv, StillSet, TakesOut;
    if events != [] {
      var n := |events| - 1;
      var before, e := events[..n], events[n];
      PooledIff(before, addr, c);
      assert events == before + [e];
      StillSetStep(before, e, addr, c);
      ConnAfter(before, e, addr, c);
    } else {
      assert forall j: nat :: !StillSet([], j, addr, c) by { NothingSet(addr, c); }
    }
  }

  lemma NothingSet(addr: string, c: nat)
    ensures forall j: nat :: !StillSet([], j, addr, c)
  {
  }

  lemma StillSetStep(before: seq<Event>, e: Event, addr: string, c: nat)
    ensures (exists j: nat :: StillSet(before + [e], j, addr, c)) <==>
            || (SetsAt(e, addr) && e.conn == c)
            || (!SetsAt(e, addr) && !TakesOut(before + [e], |before|, addr) && exists j: nat :: StillSet(before, j, addr, c))
  {
    var events, n := before + [e], |before|;
    assert forall k | 0 <= k < n :: events[k] == before[k] && TakesOut(events, k, addr) == TakesOut(before, k, addr) by {
      assert forall k | 0 <= k < n :: events[..k] == before[..k];
    }
    hide TakesOut;
    if SetsAt(e, addr) && e.conn == c {
      assert StillSet(events, n, addr, c);
    }
    if j: nat :| StillSet(events, j, addr, c) {
      assert events[n] == e && j <= n;
      if j < n {
        assert StillSet(before, j, addr, c);
      }
    }
    if !SetsAt(e, addr) && !TakesOut(events, n, addr) {
      if j: nat :| StillSet(before, j, addr, c) {
        forall k | j < k < |events| ensures !SetsAt(events[k], addr) && !TakesOut(events, k, addr) {
          if k < n {
            assert !SetsAt(before[k], addr);
          }
        }
        assert StillSet(events, j, addr, c);
      }
    }
  }

  lemma ConnAfter(before: seq<Event>, e: Event, addr: string, c: nat)
    requires Run(before).Some? && Enabled(Run(before).value, e)
    ensures var s, t := Run(before).value, Next(Run(before).value, e);
            addr in t.conns && t.conns[addr] == c <==>
            || (SetsAt(e, addr) && e.conn == c)
            || (!SetsAt(e, addr) && !TakesOut(before + [e], |before|, addr) && addr in s.conns && s.conns[addr] == c)
  {
    hide Run, SendInv;
    if e.ConnectFails? {
      FateDecided(before, e.conn);
    }
    assert (before + [e])[..|before|] == before;
  }

  /** The `j`-th event sets a stream at `addr`, and nothing has replaced it or taken it out since. */
  ghost predicate StillStreams(events: seq<Event>, j: nat, addr: string, ls: Locked) {
    && j < |events| && events[j] == SetStream(addr, ls.lock, ls.stream)
    && forall k | j < k < |events| :: !(events[k].SetStream? && events[k].addr == addr)
         && events[k] != DeleteStream(addr) && events[k] != CloseByAddr(addr) && events[k] != CloseAll
  }

  /** And likewise with a stream and its lock. */
  lemma {:induction false} StreamedIff(events: seq<Event>, addr: string, ls: Locked)
    requires Run(events).Some?
    ensures addr in Run(events).value.streams && Run(events).value.streams[addr] == ls <==> exists j: nat :: StillStreams(events, j, addr, ls)
  {
    hide Enabled, Deleted, WithConn;
    if events != [] {
      var n := |events| - 1;
      var before, e := events[..n], events[n];
      StreamedIff(before, addr, ls);
      if e == SetStream(addr, ls.lock, ls.stream) {
        assert StillStreams(events, n, addr, ls);
      }
      if j: nat :| StillStreams(before, j, addr, ls) {
        assert StillStreams(events, j, addr, ls) <==>
               !(e.SetStream? && e.addr == addr) && e != DeleteStream(addr) && e != CloseByAddr(addr) && e != CloseAll;
      }
      if j: nat :| StillStreams(events, j, addr, ls) && j < n {
        assert StillStreams(before, j, addr, ls);
      }
      StreamsAfter(Run(before).value, e, addr);
    }
  }

  lemma StreamsAfter(s: State, e: Event, addr: string)
    requires Enabled(s, e)
    ensures var t := Next(s, e);
            if e.SetStream? && e.addr == addr then addr in t.streams && t.streams[addr] == Locked(e.lock, e.stream)
            else if e == DeleteStream(addr) || e == CloseByAddr(addr) || e == CloseAll then addr !in t.streams
            else (addr in t.streams <==> addr in s.streams) && (addr in t.streams ==> t.streams[addr] == s.streams[addr])
  {
  }

  /** How often a thread has looked a stream up. */
  function Lookups(events: seq<Event>, t: nat): nat {
    if events == [] then 0
    else
      var e := events[|events| - 1];
      Lookups(events[..|events| - 1], t) + (if e.Lookup? && e.thread == t then 1 else 0)
  }

  function One(b: bool): nat {
    if b then 1 else 0
  }

  /** What one event makes of a sender: it has the stream its lookup found until it lets go. */
  lemma SenderAfter(s: State, e: Event, t: nat)
    requires Enabled(s, e)
    ensures var n := Next(s, e);
            if e.Lookup? && e.thread == t then t in n.senders && n.senders[t] == Found(s.streams[e.addr])
            else if e == Acquire(t) then t in n.senders && n.senders[t] == Sending(s.senders[t].ls)
            else if e == Release(t) then t !in n.senders
            else (t in n.senders <==> t in s.senders) && (t in n.senders ==> n.senders[t] == s.senders[t])
  {
    hide Deleted, WithConn;
    if LeavesSenders(e) {
      SameSends(s, e);
    }
  }

  /** A thread is a sender from each of its lookups to its next release, and inside Send from when it
      gets the lock. */
  lemma {:induction false} SenderIff(events: seq<Event>, t: nat)
    requires Run(events).Some?
    ensures var senders := Run(events).value.senders;
            && Lookups(events, t) == multiset(events)[Release(t)] + One(t in senders)
            && multiset(events)[Acquire(t)] == multiset(events)[Release(t)] + One(t in senders && senders[t].Sending?)
  {
    if events != [] {
      hide Next;
      var n := |events| - 1;
      SenderIff(events[..n], t);
      assert events == events[..n] + [events[n]];
      SenderAfter(Run(events[..n]).value, events[n], t);
    }
  }

  /** Whoever holds a lock is inside Send with it. */
  ghost predicate HoldersSend(s: State) {
    forall l | l in s.holder :: s.holder[l] in s.senders && s.senders[s.holder[l]].Sending? && s.senders[s.holder[l]].ls.lock == l
  }

  lemma NextHolders(s: State, e: Event)
    requires HoldersSend(s) && Enabled(s, e)
    ensures HoldersSend(Next(s, e))
  {
    hide Deleted, WithConn;
    if LeavesSenders(e) {
      SameSends(s, e);
    }
  }

  lemma {:induction false} RunHolders(events: seq<Event>)
    requires Run(events).Some?
    ensures HoldersSend(Run(events).value)
  {
    hide Enabled, Next;
    if events != [] {
      hide HoldersSend;
      RunHolders(events[..|events| - 1]);
      NextHolders(Run(events[..|events| - 1]).value, events[|events| - 1]);
    }
  }

  lemma RunOn(events: seq<Event>, e: Event)
    requires Run(events).Some? && Enabled(Run(events).value, e)
    ensures Run(events + [e]) == Some(Next(Run(events).value, e))
  {
    assert (events + [e])[..|events|] == events;
  }

  /** One of the senders can be done with: the one inside Send if there is one, else any. */
  lemma OneSends(events: seq<Event>) returns (more: seq<Event>)
    requires Run(events).Some? && Run(events).value.senders != map[]
    ensures Run(events + more).Some?
    ensures var s, t := Run(events).value, Run(events + more).value;
            |t.senders| < |s.senders| && t.conns == s.conns && t.streams == s.streams
  {
    hide Run, Deleted, WithConn;
    RunHolders(events);
    var s := Run(events).value;
    if t :| t in s.senders && s.senders[t].Sending? {
      RunOn(events, Release(t));
      Fewer(s.senders, t);
      more := [Release(t)];
    } else {
      assert s.senders.Keys != {} by { NoKeys(s.senders); }
      var t :| t in s.senders;
      RunOn(events, Acquire(t));
      RunOn(events + [Acquire(t)], Release(t));
      Fewer(s.senders, t);
      var u := Next(Next(s, Acquire(t)), Release(t));
      assert u.senders == s.senders - {t};
      assert events + [Acquire(t)] + [Release(t)] == events + [Acquire(t), Release(t)];
      more := [Acquire(t), Release(t)];
    }
  }

  lemma NoKeys(m: map<nat, Sender>)
    ensures m.Keys == {} ==> m == map[]
  {
  }

  lemma Fewer(m: map<nat, Sender>, t: nat)
    requires t in m
    ensures |m - {t}| < |m|
  {
    assert (m - {t}).Keys == m.Keys - {t};
    assert |m.Keys - {t}| < |m.Keys|;
  }

  /** The locks of the streams never block for good: from any point of any run every sender can get its
      turn and be done, whatever became of the streams in the pool. */
  lemma {:induction false} SendersSettle(events: seq<Event>) returns (more: seq<Event>)
    requires Run(events).Some?
    ensures Run(events + more).Some?
    ensures var s, t := Run(events).value, Run(events + more).value;
            t.senders == map[] && t.holder == map[] && t.conns == s.conns && t.streams == s.streams
    decreases |Run(events).value.senders|
  {
    hide Run;
    more := [];
    assert events + [] == events;
    if Run(events).value.senders == map[] {
      RunHolders(events);
      assert forall l :: l !in Run(events).value.holder;
    } else {
      var first := OneSends(events);
      more := SendersSettle(events + first);
      assert events + first + more == events + (first + more);
      more := first + more;
    }
  }

  // ---- Results ---------------------------------------------------------------------------------

  /** No two threads are ever inside Send on one stream, though a stream may be replaced in the
      pool while threads still hold the old one. */
  lemma SendsExclusive(events: seq<Event>, t1: nat, t2: nat)
    requires Run(events).Some?
    requires t1 in Run(events).value.senders && t2 in Run(events).value.senders
    requires Run(events).value.senders[t1].Sending? && Run(events).value.senders[t2].Sending?
    requires Run(events).value.senders[t1].ls.stream == Run(events).value.senders[t2].ls.stream
    ensures t1 == t2
  {
    hide Run, ConnInv;
    RunInv(events);
  }

  /** Accounting: the connections ever set are the pooled, the closed and the overwritten ones;
      nothing pooled is closed or overwritten, and an overwritten one is only ever closed by the
      failed connect that dialled it: otherwise it leaks. */
  lemma ConnsAccounted(events: seq<Event>)
    requires Run(events).Some?
    ensures var s := Run(events).value;
            && s.everSet == s.conns.Values + s.closed + s.overwritten
            && s.conns.Values !! (s.closed + s.overwritten)
            && s.closed * s.overwritten <= s.ownClosed
            && |s.everSet| == |s.conns| + |s.closed| + |s.overwritten - s.closed|
  {
    hide Run, SendInv;
    RunInv(events);
    var s := Run(events).value;
    assert s.everSet == s.conns.Values + s.closed + (s.overwritten - s.closed);
    PooledCount(s.conns) by {
      assert forall a, b | a in s.conns && b in s.conns && s.conns[a] == s.conns[b] :: a == b;
    }
  }

  lemma {:induction false} PooledCount(m: map<string, nat>)
    requires forall a, b | a in m && b in m && m[a] == m[b] :: a == b
    ensures |m.Values| == |m|
    decreases |m|
  {
    if m.Keys != {} {
      var a :| a in m;
      var rest := m - {a};
      PooledCount(rest);
      forall v ensures v in m.Values <==> v in rest.Values || v == m[a] {
        if v in m.Values && v != m[a] {
          var b :| b in m && m[b] == v;
          assert rest[b] == v;
        }
      }
      assert m.Values == rest.Values + {m[a]};
      assert m[a] !in rest.Values;
      assert m.Keys == rest.Keys + {a};
    } else {
      assert m == map[];
    }
  }
}
