/** Joins and departures at one node. Four paths remove a peer, each a thread of its own whose
    status update, unregistration and emission are separate critical sections. */
module Departures {
  import opened Types
  import opened Directory

  datatype Path = DisconnectRpc | DisconnectCommand | StaleSweep | StreamEnd

  /** Where a removing thread stands. Only the request handler and the sweep mark the peer offline first. */
  datatype Stage = Marking | Unregistering | Emitting

  datatype Remover = Remover(path: Path, uuid: string, name: string, reason: string, stage: Stage)

  /** `log` is what subscribers were told. History: `joins` and `leaves` count insertions and successful
      unregistrations, `finished` holds the removers that have announced their departure, in turn. */
  datatype State = State(dir: Dir, threads: seq<Remover>, joins: multiset<string>, leaves: multiset<string>,
                         finished: seq<Remover>, log: seq<Notification>)

  datatype Event =
    | Join(peer: Option<NodeInfo>)
    | Start(path: Path, uuid: string, name: string, reason: string)
    | Advance(i: nat)

  const START: State := State(EMPTY, [], multiset{}, multiset{}, [], [])

  function ReasonOf(path: Path, reason: string): string {
    match path
    case DisconnectRpc => reason
    case DisconnectCommand => "主动断开"
    case StaleSweep => "heartbeat timeout"
    case StreamEnd => "stream disconnected"
  }

  predicate Enabled(s: State, e: Event) {
    e.Advance? ==> e.i < |s.threads|
  }

  function Without(threads: seq<Remover>, i: nat): seq<Remover>
    requires i < |threads|
  {
    threads[..i] + threads[i + 1..]
  }

  function Next(self: string, s: State, e: Event): State
    requires Enabled(s, e)
  {
    match e
    case Join(peer) =>
      var d := Apply(self, s.dir, Register(peer));
      s.(dir := d,
         joins := if peer.Some? && UuidOf(peer.value) in d.online && UuidOf(peer.value) !in s.dir.online
                  then s.joins + multiset{UuidOf(peer.value)} else s.joins)
    case Start(path, uuid, name, reason) =>
      s.(threads := s.threads +
           [Remover(path, uuid, name, ReasonOf(path, reason),
                    if path.DisconnectRpc? || path.StaleSweep? then Marking else Unregistering)])
    case Advance(i) =>
      var t := s.threads[i];
      match t.stage
      case Marking =>
        s.(dir := Apply(self, s.dir, SetStatus(t.uuid, OFFLINE)), threads := s.threads[i := t.(stage := Unregistering)])
      case Unregistering =>
        if t.uuid in s.dir.online then
          s.(dir := Apply(self, s.dir, Unregister(t.uuid)), threads := s.threads[i := t.(stage := Emitting)],
             leaves := s.leaves + multiset{t.uuid})
        else s.(threads := Without(s.threads, i))
      case Emitting =>
        s.(threads := Without(s.threads, i), finished := s.finished + [t],
           log := s.log + [PeerOffline(t.name, t.reason)])
  }

  function Run(self: string, events: seq<Event>): Option<State> {
    if events == [] then Some(START)
    else match Run(self, events[..|events| - 1])
      case None => None
      case Some(s) =>
        if Enabled(s, events[|events| - 1]) then Some(Next(self, s, events[|events| - 1])) else None
  }

  /** Threads that have removed `u` and not announced it yet. */
  function Owing(threads: seq<Remover>, u: string): nat {
    if threads == [] then 0
    else
      var t := threads[|threads| - 1];
      Owing(threads[..|threads| - 1], u) + (if t.uuid == u && t.stage.Emitting? then 1 else 0)
  }

  /** The departures of `u` that have been announced. */
  function Made(finished: seq<Remover>, u: string): nat {
    if finished == [] then 0
    else Made(finished[..|finished| - 1], u) + (if finished[|finished| - 1].uuid == u then 1 else 0)
  }

  /** What subscribers are told by a number of removers, in turn: their peers' names, and the reason
      that goes with the path by which each was removed. */
  function Told(finished: seq<Remover>): seq<Notification> {
    if finished == [] then []
    else Told(finished[..|finished| - 1]) + [PeerOffline(finished[|finished| - 1].name, finished[|finished| - 1].reason)]
  }

  lemma Snoc(finished: seq<Remover>, t: Remover, u: string)
    ensures Made(finished + [t], u) == Made(finished, u) + (if t.uuid == u then 1 else 0)
    ensures Told(finished + [t]) == Told(finished) + [PeerOffline(t.name, t.reason)]
  {
    assert (finished + [t])[..|finished|] == finished;
  }

  function Online(d: Dir, u: string): nat {
    if u in d.online then 1 else 0
  }

  ghost predicate Balanced(s: State, u: string) {
    && s.joins[u] == s.leaves[u] + Online(s.dir, u)
    && s.leaves[u] == Made(s.finished, u) + Owing(s.threads, u)
  }

  lemma OwingConcat(a: seq<Remover>, b: seq<Remover>, u: string)
    ensures Owing(a + b, u) == Owing(a, u) + Owing(b, u)
  {
    if b == [] {
      assert a + b == a;
    } else {
      assert (a + b)[..|a + b| - 1] == a + b[..|b| - 1];
      OwingConcat(a, b[..|b| - 1], u);
    }
  }

  lemma OwingAt(threads: seq<Remover>, i: nat, u: string)
    requires i < |threads|
    ensures Owing(threads, u) == Owing(Without(threads, i), u) + Owing([threads[i]], u)
    ensures forall t :: Owing(threads[i := t], u) == Owing(Without(threads, i), u) + Owing([t], u)
  {
    var a, b := threads[..i], threads[i + 1..];
    OwingConcat(a, b, u);
    forall t ensures Owing(a + [t] + b, u) == Owing(a, u) + Owing([t], u) + Owing(b, u) {
      OwingConcat(a + [t], b, u);
      OwingConcat(a, [t], u);
    }
    assert threads == a + [threads[i]] + b;
    forall t ensures threads[i := t] == a + [t] + b {
    }
  }

  lemma OwingOne(t: Remover, u: string)
    ensures Owing([t], u) == if t.uuid == u && t.stage.Emitting? then 1 else 0
  {
    assert [t][..0] == [];
  }

  lemma OnlineAfter(self: string, d: Dir, u: string)
    ensures forall v, status :: Online(Apply(self, d, SetStatus(v, status)), u) == Online(d, u)
    ensures forall v | v in d.online :: Online(Apply(self, d, Unregister(v)), u) == if v == u then 0 else Online(d, u)
  {
    hide CleanNameAddr;
  }

  lemma JoinBalanced(self: string, s: State, peer: Option<NodeInfo>, u: string)
    requires Balanced(s, u)
    ensures Balanced(Next(self, s, Join(peer)), u)
  {
    hide AddNameAddr, Owing, Made;
  }

  lemma AdvanceBalanced(self: string, s: State, i: nat, u: string)
    requires i < |s.threads| && Balanced(s, u)
    ensures Balanced(Next(self, s, Advance(i)), u)
  {
    hide Apply, Owing, Without, Made, Told;
    var t := s.threads[i];
    Snoc(s.finished, t, u);
    OwingAt(s.threads, i, u);
    OwingOne(t, u);
    OwingOne(t.(stage := Unregistering), u);
    OwingOne(t.(stage := Emitting), u);
    OnlineAfter(self, s.dir, u);
  }

  /** Every critical section of every path keeps the books balanced. */
  lemma NextBalanced(self: string, s: State, e: Event, u: string)
    requires Enabled(s, e) && Balanced(s, u)
    ensures Balanced(Next(self, s, e), u)
  {
    hide Apply, Owing, Made;
    match e
    case Join(peer) => JoinBalanced(self, s, peer, u);
    case Start(_, _, _, _) =>
      var t := Next(self, s, e).threads[|s.threads|];
      OwingConcat(s.threads, [t], u);
      OwingOne(t, u);
    case Advance(i) => AdvanceBalanced(self, s, i, u);
  }

  /** Conservation, for every uuid and every interleaving of joins and of the four removal
      paths: insertions minus successful unregistrations is 1 if the peer is online and 0
      otherwise; every successful unregistration is announced once or about to be; and the
      announcements are, one by one and in order, those of the removers that have finished. */
  lemma Conservation(self: string, events: seq<Event>, u: string)
    requires Run(self, events).Some?
    ensures var s := Run(self, events).value;
            && s.joins[u] == s.leaves[u] + Online(s.dir, u)
            && Made(s.finished, u) + Owing(s.threads, u) == s.leaves[u]
            && |s.log| == |s.finished| && forall i | 0 <= i < |s.log| :: s.log[i] == PeerOffline(s.finished[i].name, s.finished[i].reason)
  {
    Balances(self, events, u);
    ToldInTurn(Run(self, events).value.finished);
  }

  lemma {:induction false} ToldInTurn(finished: seq<Remover>)
    ensures |Told(finished)| == |finished|
    ensures forall i | 0 <= i < |finished| :: Told(finished)[i] == PeerOffline(finished[i].name, finished[i].reason)
  {
    if finished != [] {
      ToldInTurn(finished[..|finished| - 1]);
    }
  }

  lemma {:induction false} Balances(self: string, events: seq<Event>, u: string)
    requires Run(self, events).Some?
    ensures var s := Run(self, events).value;
            Balanced(s, u) && s.log == Told(s.finished)
  {
    hide Next;
    if events != [] {
      var before := events[..|events| - 1];
      Balances(self, before, u);
      NextBalanced(self, Run(self, before).value, events[|events| - 1], u);
      LogGrows(self, Run(self, before).value, events[|events| - 1]);
    }
  }

  lemma LogGrows(self: string, s: State, e: Event)
    requires Enabled(s, e) && s.log == Told(s.finished)
    ensures Next(self, s, e).log == Told(Next(self, s, e).finished)
  {
    hide Apply, Told;
    if e.Advance? {
      Snoc(s.finished, s.threads[e.i], "");
    }
  }

  /** A remover that finds its peer on record takes it off, whichever path it is on, and goes on to
      announce; one that does not ends there without a word. */
  lemma RemoverRemoves(self: string, s: State, i: nat)
    requires i < |s.threads| && s.threads[i].stage.Unregistering?
    ensures var t, u := Next(self, s, Advance(i)), s.threads[i].uuid;
            && t.log == s.log && t.dir.online == s.dir.online - {u}
            && (if u in s.dir.online then t.threads == s.threads[i := s.threads[i].(stage := Emitting)]
                else t.threads == Without(s.threads, i))
  {
    hide CleanNameAddr, Keep;
    if s.threads[i].uuid !in s.dir.online {
      assert s.dir.online - {s.threads[i].uuid} == s.dir.online;
    }
  }

  /** A request handler and a sweep mark their peer offline before they remove it, the two other paths
      do not; marking takes nobody off the record. */
  lemma RemoverMarks(self: string, s: State, path: Path, uuid: string, name: string, reason: string, i: nat)
    requires i < |s.threads| && s.threads[i].stage.Marking?
    ensures var started := Next(self, s, Start(path, uuid, name, reason));
            && |started.threads| == |s.threads| + 1 && s.threads <= started.threads && started.(threads := s.threads) == s
            && (started.threads[|s.threads|].stage.Marking? <==> path.DisconnectRpc? || path.StaleSweep?)
            && !started.threads[|s.threads|].stage.Emitting?
    ensures var t, u := Next(self, s, Advance(i)), s.threads[i].uuid;
            && t.threads == s.threads[i := s.threads[i].(stage := Unregistering)] && t.log == s.log
            && t.dir.online.Keys == s.dir.online.Keys && (u in s.dir.online ==> t.dir.online[u].status == OFFLINE)
  {
  }

  /** A join puts the record it brings on record, counts once if the peer was not there, and stirs no
      remover. */
  lemma JoinRecords(self: string, s: State, peer: Option<NodeInfo>)
    ensures var t := Next(self, s, Join(peer));
            && t.threads == s.threads && t.log == s.log && t.leaves == s.leaves
            && (ValidPeer(peer) && UuidOf(peer.value) != self ==>
                  var u := UuidOf(peer.value);
                  t.dir.online == s.dir.online[u := peer.value]
                  && t.joins == if u in s.dir.online then s.joins else s.joins + multiset{u})
            && (!(ValidPeer(peer) && UuidOf(peer.value) != self) ==> t.dir == s.dir && t.joins == s.joins)
  {
    hide AddNameAddr;
  }

  function Rank(stage: Stage): nat {
    match stage
    case Marking => 2
    case Unregistering => 1
    case Emitting => 0
  }

  lemma RunOn(self: string, events: seq<Event>, e: Event)
    requires Run(self, events).Some? && Enabled(Run(self, events).value, e)
    ensures Run(self, events + [e]) == Some(Next(self, Run(self, events).value, e))
  {
    assert (events + [e])[..|events|] == events;
  }

  /** No remover waits for another: from any point of any run the removers under way can all be done
      with, by steps of their own and no join, and then every removal has been announced. */
  lemma {:induction false} RemoversSettle(self: string, events: seq<Event>, u: string) returns (more: seq<Event>)
    requires Run(self, events).Some?
    ensures Run(self, events + more).Some?
    ensures var s, t := Run(self, events).value, Run(self, events + more).value;
            && t.threads == [] && t.joins == s.joins
            && Made(t.finished, u) == t.leaves[u] == t.joins[u] - Online(t.dir, u)
            && forall e: Event | e.Join? || e.Start? :: Enabled(t, e)
    decreases |Run(self, events).value.threads|,
              var s := Run(self, events).value; if s.threads == [] then 0 else Rank(s.threads[|s.threads| - 1].stage)
  {
    hide Run, Apply, Made;
    var s := Run(self, events).value;
    more := [];
    assert events + [] == events;
    if s.threads == [] {
      AnnouncedExactly(self, events, u);
    } else {
      var e := Advance(|s.threads| - 1);
      RunOn(self, events, e);
      more := RemoversSettle(self, events + [e], u);
      assert events + [e] + more == events + ([e] + more);
      more := [e] + more;
    }
  }

  /** Where a remover comes from: an event that started it, with the reason its path gives. */
  ghost predicate CameOf(events: seq<Event>, t: Remover) {
    exists i, reason :: 0 <= i < |events| && events[i] == Start(t.path, t.uuid, t.name, reason)
                        && (t.path.DisconnectRpc? ==> t.reason == reason)
                        && (t.path.DisconnectCommand? ==> t.reason == "主动断开")
                        && (t.path.StaleSweep? ==> t.reason == "heartbeat timeout")
                        && (t.path.StreamEnd? ==> t.reason == "stream disconnected")
  }

  lemma CameOfLonger(events: seq<Event>, n: nat, t: Remover)
    requires n <= |events| && CameOf(events[..n], t)
    ensures CameOf(events, t)
  {
    var i, reason :| 0 <= i < n && events[..n][i] == Start(t.path, t.uuid, t.name, reason)
                     && (t.path.DisconnectRpc? ==> t.reason == reason)
                     && (t.path.DisconnectCommand? ==> t.reason == "主动断开")
                     && (t.path.StaleSweep? ==> t.reason == "heartbeat timeout")
                     && (t.path.StreamEnd? ==> t.reason == "stream disconnected");
    assert events[i] == Start(t.path, t.uuid, t.name, reason);
  }

  lemma StageApart(events: seq<Event>, t: Remover, stage: Stage)
    requires CameOf(events, t)
    ensures CameOf(events, t.(stage := stage))
  {
    var i, reason :| 0 <= i < |events| && events[i] == Start(t.path, t.uuid, t.name, reason)
                     && (t.path.DisconnectRpc? ==> t.reason == reason)
                     && (t.path.DisconnectCommand? ==> t.reason == "主动断开")
                     && (t.path.StaleSweep? ==> t.reason == "heartbeat timeout")
                     && (t.path.StreamEnd? ==> t.reason == "stream disconnected");
    assert events[i] == Start(t.path, t.uuid, t.name, reason);
  }

  /** Whatever is announced is announced under the name and for the reason of the path that removed. */
  lemma {:induction false} ReasonsTold(self: string, events: seq<Event>)
    requires Run(self, events).Some?
    ensures var s := Run(self, events).value;
            forall t | t in s.threads || t in s.finished :: CameOf(events, t)
  {
    hide Apply, CameOf;
    if events != [] {
      var n := |events| - 1;
      ReasonsTold(self, events[..n]);
      var s, e := Run(self, events[..n]).value, events[n];
      forall t | t in s.threads || t in s.finished ensures CameOf(events, t) {
        CameOfLonger(events, n, t);
      }
      if e.Start? {
        StartedOf(events, n, Next(self, s, e).threads[|s.threads|]) by { assert events[n] == e; }
      } else if e.Advance? {
        var t := s.threads[e.i];
        assert t in s.threads;
        StageApart(events, t, Unregistering);
        StageApart(events, t, Emitting);
      }
    }
  }

  lemma StartedOf(events: seq<Event>, n: nat, t: Remover)
    requires n < |events| && events[n].Start? && events[n].path == t.path && events[n].uuid == t.uuid && events[n].name == t.name
    requires t.reason == ReasonOf(t.path, events[n].reason)
    ensures CameOf(events, t)
  {
    assert events[n] == Start(t.path, t.uuid, t.name, events[n].reason);
  }

  /** Once every remover has finished, departures announced are exactly departures made; and at
      no time has a peer been announced gone more often than it has joined. */
  lemma AnnouncedExactly(self: string, events: seq<Event>, u: string)
    requires Run(self, events).Some?
    ensures var s := Run(self, events).value;
            && Made(s.finished, u) <= s.joins[u]
            && (s.threads == [] ==> Made(s.finished, u) == s.leaves[u] == s.joins[u] - Online(s.dir, u))
  {
    Conservation(self, events, u);
  }
}
