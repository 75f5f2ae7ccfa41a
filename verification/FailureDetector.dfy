/** The liveness sweep as a timed failure detector. Activity is whatever refreshes a peer's
    last-active time: a registration, a heartbeat or a join notice for a known peer, whether or
    not its signature holds. Times are in nanoseconds. */
module FailureDetector {

  const SECOND: int := 1_000_000_000
  const HEARTBEAT_TIMEOUT: int := 30 * SECOND

  datatype Event =
    | Register(uuid: string)
    | Touch(uuid: string)
    | Unregister(uuid: string)
    | Sweep                       // a whole sweep undisturbed
    | Snapshot                    // the locked part of GetStale
    | Collect(uuid: string)       // the sweep then unregisters one of the peers it found stale

  datatype Timed = Timed(at: int, what: Event)

  /** `stale` holds what the last snapshot, taken at `takenAt`, found stale and is still to be
      collected, with the last-active time it saw. */
  datatype State = State(lastActive: map<string, int>, stale: map<string, int>, takenAt: int)

  const START: State := State(map[], map[], 0)

  predicate Stale(lastActive: map<string, int>, u: string, now: int) {
    u in lastActive && now - lastActive[u] > HEARTBEAT_TIMEOUT
  }

  /** What an undisturbed sweep leaves on record. */
  function Swept(lastActive: map<string, int>, now: int): map<string, int> {
    map u | u in lastActive && !Stale(lastActive, u, now) :: lastActive[u]
  }

  function Next(s: State, e: Timed): State {
    match e.what
    case Register(u) => s.(lastActive := s.lastActive[u := e.at])
    case Touch(u) => if u in s.lastActive then s.(lastActive := s.lastActive[u := e.at]) else s
    case Unregister(u) => s.(lastActive := s.lastActive - {u})
    case Sweep => s.(lastActive := Swept(s.lastActive, e.at))
    case Snapshot =>
      s.(stale := map u | u in s.lastActive && Stale(s.lastActive, u, e.at) :: s.lastActive[u], takenAt := e.at)
    case Collect(u) =>
      if u in s.stale then s.(lastActive := s.lastActive - {u}, stale := s.stale - {u}) else s
  }

  function Run(trace: seq<Timed>): State {
    if trace == [] then START else Next(Run(trace[..|trace| - 1]), trace[|trace| - 1])
  }

  predicate Chronological(trace: seq<Timed>) {
    forall i, j | 0 <= i < j < |trace| :: trace[i].at <= trace[j].at
  }

  /** The event refreshes `u`, provided `u` is on record. */
  predicate Activity(e: Timed, u: string) {
    e.what == Register(u) || e.what == Touch(u)
  }

  lemma NothingYet(trace: seq<Timed>)
    ensures Run(trace[..0]) == START
  {
  }

  lemma RunStep(trace: seq<Timed>, k: nat)
    requires k < |trace|
    ensures Run(trace[..k + 1]) == Next(Run(trace[..k]), trace[k])
  {
    assert trace[..k + 1][..k] == trace[..k];
  }

  /** Step `m` takes `u` off the record. */
  ghost predicate Removes(trace: seq<Timed>, m: nat, u: string)
    requires m < |trace|
  {
    var s := Run(trace[..m]);
    u in s.lastActive &&
    match trace[m].what
    case Unregister(v) => v == u
    case Sweep => trace[m].at - s.lastActive[u] > 30 * SECOND
    case Collect(v) => v == u && u in s.stale
    case _ => false
  }

  /** A peer is on record exactly when it was registered and nothing has removed it since; a
      heartbeat or a notice brings nobody back. */
  lemma {:induction false} OnRecordIff(trace: seq<Timed>, k: nat, u: string)
    requires k <= |trace|
    ensures u in Run(trace[..k]).lastActive <==>
            exists j: nat :: j < k && trace[j].what == Register(u) && forall m: nat | j < m < k :: !Removes(trace, m, u)
  {
    hide Run;
    if k == 0 {
      assert trace[..0] == [];
      NothingYet(trace);
    } else {
      OnRecordIff(trace, k - 1, u);
      RunStep(trace, k - 1);
      if u in Run(trace[..k]).lastActive {
        if trace[k - 1].what != Register(u) {
          var j: nat :| j < k - 1 && trace[j].what == Register(u) && forall m: nat | j < m < k - 1 :: !Removes(trace, m, u);
          assert !Removes(trace, k - 1, u);
        }
      } else {
        forall j: nat | j < k && trace[j].what == Register(u) ensures exists m: nat :: j < m < k && Removes(trace, m, u) {
          assert j < k - 1;
          assert u in Run(trace[..k - 1]).lastActive ==> Removes(trace, k - 1, u);
        }
      }
    }
  }

  /** What a snapshot finds stale stays to be collected until it is, or until the next snapshot. */
  lemma {:induction false} ToCollectIff(trace: seq<Timed>, i: nat, k: nat, u: string)
    requires i < k <= |trace| && trace[i].what.Snapshot? && forall m | i < m < k :: !trace[m].what.Snapshot?
    ensures u in Run(trace[..k]).stale <==>
            && u in Run(trace[..i]).lastActive && trace[i].at - Run(trace[..i]).lastActive[u] > 30 * SECOND
            && forall m | i < m < k :: trace[m].what != Collect(u)
  {
    hide Run;
    RunStep(trace, k - 1);
    if k - 1 > i {
      ToCollectIff(trace, i, k - 1, u);
    }
  }

  // ---- Atomic sweeps -----------------------------------------------------------------------

  /** The record never trails behind the peer's activity while the peer stays on record. */
  lemma {:induction false} NotBehind(trace: seq<Timed>, j: nat, k: nat, u: string)
    requires Chronological(trace) && j < k <= |trace| && Activity(trace[j], u)
    ensures u in Run(trace[..k]).lastActive ==> Run(trace[..k]).lastActive[u] >= trace[j].at
  {
    RunStep(trace, k - 1);
    if j < k - 1 {
      NotBehind(trace, j, k - 1, u);
    }
  }

  /** Accuracy: a sweep removes no peer at or before 30 s after any activity of its own. */
  lemma NeverEarly(trace: seq<Timed>, i: nat, j: nat, u: string)
    requires Chronological(trace) && j < i < |trace| && trace[i].what.Sweep? && Activity(trace[j], u)
    requires u in Run(trace[..i]).lastActive && trace[i].at - trace[j].at <= 30 * SECOND
    ensures u in Run(trace[..i + 1]).lastActive
  {
    NotBehind(trace, j, i, u);
    RunStep(trace, i);
  }

  /** Sweeps at most one interval apart: every such window up to `until` holds one. */
  ghost predicate SweptEvery(trace: seq<Timed>, until: int) {
    forall t: int | t + 5 * SECOND <= until :: SweptWithin(trace, t)
  }

  ghost predicate SweptWithin(trace: seq<Timed>, t: int) {
    t >= 0 ==> exists i :: 0 <= i < |trace| && trace[i].what.Sweep? && t < trace[i].at <= t + 5 * SECOND
  }

  /** Without further activity the record of `u` stays at its last one, until it is gone for good. */
  lemma {:induction false} Silent(trace: seq<Timed>, k: nat, n: nat, u: string)
    requires k < n <= |trace| && Activity(trace[k], u)
    requires forall i | k < i < |trace| :: !Activity(trace[i], u)
    ensures u in Run(trace[..n]).lastActive ==> Run(trace[..n]).lastActive[u] == trace[k].at
    ensures forall m | k < m <= n && u in Run(trace[..n]).lastActive :: u in Run(trace[..m]).lastActive
  {
    RunStep(trace, n - 1);
    if k < n - 1 {
      Silent(trace, k, n - 1, u);
    }
  }

  /** Completeness: with sweeps at most 5 s apart, a peer whose last activity was at time t is off
      the record by t + 35 s. */
  lemma GoneWithin35Seconds(trace: seq<Timed>, k: nat, u: string, until: int)
    requires Chronological(trace) && k < |trace| && Activity(trace[k], u) && trace[k].at >= 0
    requires forall i | k < i < |trace| :: !Activity(trace[i], u)
    requires until >= trace[k].at + 35 * SECOND && SweptEvery(trace, until)
    ensures u !in Run(trace).lastActive
  {
    var t := trace[k].at + HEARTBEAT_TIMEOUT;
    assert SweptWithin(trace, t);
    var i :| 0 <= i < |trace| && trace[i].what.Sweep? && t < trace[i].at <= t + 5 * SECOND;
    assert k < i;
    Silent(trace, k, i, u);
    RunStep(trace, i);
    assert u !in Run(trace[..i + 1]).lastActive;
    Silent(trace, k, |trace|, u);
    assert trace[..|trace|] == trace;
  }

  // ---- Sweeps at lock boundaries ---------------------------------------------------------------

  /** Whoever is still to be collected was stale when the snapshot was taken, and any newer
      record of it stems from activity after the snapshot. */
  ghost predicate Inv(s: State, now: int) {
    && s.takenAt <= now
    && (forall u | u in s.lastActive :: s.lastActive[u] <= now)
    && (forall u | u in s.stale :: s.takenAt - s.stale[u] > HEARTBEAT_TIMEOUT)
    && (forall u | u in s.stale && u in s.lastActive :: s.lastActive[u] == s.stale[u] || s.lastActive[u] >= s.takenAt)
  }

  lemma NextInv(s: State, e: Timed, now: int)
    requires Inv(s, e.at) && e.at <= now
    ensures Inv(Next(s, e), now)
  {
  }

  lemma {:induction false} RunInv(trace: seq<Timed>, k: nat)
    requires Chronological(trace) && k < |trace| && trace[0].at >= 0
    ensures Inv(Run(trace[..k]), trace[k].at)
  {
    hide Run, Next;
    if k > 0 {
      RunInv(trace, k - 1);
      RunStep(trace, k - 1);
      NextInv(Run(trace[..k - 1]), trace[k - 1], trace[k].at);
    } else {
      assert Run(trace[..0]) == START by { NothingYet(trace); }
    }
  }

  /** A whole sweep at lock level: a snapshot, and by `c` everything it found stale is collected. */
  ghost predicate SweepAt(trace: seq<Timed>, i: nat, c: nat) {
    && i < c <= |trace| && trace[i].what.Snapshot?
    && (forall j | i < j < c :: !trace[j].what.Snapshot?)
    && Run(trace[..c]).stale == map[]
  }

  /** A silent peer found stale stays to be collected for as long as it is on record. */
  lemma {:induction false} StaleOrGone(trace: seq<Timed>, k: nat, i: nat, j: nat, u: string)
    requires k < i < j <= |trace| && Activity(trace[k], u) && trace[i].what.Snapshot?
    requires trace[i].at - trace[k].at > HEARTBEAT_TIMEOUT
    requires forall m | k < m < |trace| :: !Activity(trace[m], u)
    requires forall m | i < m < j :: !trace[m].what.Snapshot?
    ensures u in Run(trace[..j]).stale || u !in Run(trace[..j]).lastActive
  {
    RunStep(trace, j - 1);
    if j == i + 1 {
      Silent(trace, k, i, u);
    } else {
      StaleOrGone(trace, k, i, j - 1, u);
    }
  }

  /** Completeness at lock level: a silent peer is off the record, for good, by the end of any sweep
      whose snapshot falls more than 30 s after its last activity. */
  lemma CollectedBySweep(trace: seq<Timed>, k: nat, i: nat, c: nat, u: string)
    requires k < i && SweepAt(trace, i, c) && Activity(trace[k], u)
    requires trace[i].at - trace[k].at > 30 * SECOND
    requires forall m | k < m < |trace| :: !Activity(trace[m], u)
    ensures forall n | c <= n <= |trace| :: u !in Run(trace[..n]).lastActive
  {
    StaleOrGone(trace, k, i, c, u);
    forall n | c <= n <= |trace| ensures u !in Run(trace[..n]).lastActive {
      Silent(trace, k, n, u);
    }
  }

  /** Up to `until`, a sweep starts in every interval and is done with in time `d`. */
  ghost predicate LockSweptEvery(trace: seq<Timed>, until: int, d: int) {
    forall t: int | t + 5 * SECOND + d <= until :: LockSweptWithin(trace, t, d)
  }

  ghost predicate LockSweptWithin(trace: seq<Timed>, t: int, d: int) {
    t >= 0 ==> exists i: nat, c: nat :: SweepAt(trace, i, c) && t < trace[i].at <= t + 5 * SECOND && trace[c - 1].at <= trace[i].at + d
  }

  /** So with sweeps that start at most 5 s apart and take at most `d`, a peer whose last activity
      was at time t is off the record by t + 35 s + d, whatever happens between their steps. */
  lemma GoneAtLockLevel(trace: seq<Timed>, k: nat, u: string, until: int, d: int) returns (c: nat)
    requires Chronological(trace) && k < |trace| && Activity(trace[k], u) && trace[k].at >= 0
    requires forall i | k < i < |trace| :: !Activity(trace[i], u)
    requires until >= trace[k].at + 35 * SECOND + d && LockSweptEvery(trace, until, d)
    ensures 0 < c <= |trace| && trace[c - 1].at <= trace[k].at + 35 * SECOND + d
    ensures forall n | c <= n <= |trace| :: u !in Run(trace[..n]).lastActive
  {
    var t := trace[k].at + HEARTBEAT_TIMEOUT;
    assert LockSweptWithin(trace, t, d);
    var i: nat, e: nat :| SweepAt(trace, i, e) && t < trace[i].at <= t + 5 * SECOND && trace[e - 1].at <= trace[i].at + d;
    c := e;
    assert trace[k].at < trace[i].at;
    CollectedBySweep(trace, k, i, c, u);
  }

  /** When the sweep collects a peer, it was stale at the snapshot; and, as long as collecting
      takes no longer than the timeout itself, it is fresh at that moment exactly when it was
      active again after the snapshot. */
  lemma CollectedWasStale(trace: seq<Timed>, k: nat, u: string)
    requires Chronological(trace) && k < |trace| && trace[0].at >= 0 && trace[k].what == Collect(u)
    requires u in Run(trace[..k]).stale && u in Run(trace[..k]).lastActive
    ensures var s := Run(trace[..k]);
            && s.takenAt - s.stale[u] > 30 * SECOND
            && (s.lastActive[u] < s.takenAt ==> trace[k].at - s.lastActive[u] > 30 * SECOND)
            && (trace[k].at - s.takenAt <= 30 * SECOND ==>
                  (trace[k].at - s.lastActive[u] <= 30 * SECOND <==> s.lastActive[u] >= s.takenAt))
            && u !in Run(trace[..k + 1]).lastActive
  {
    RunInv(trace, k);
    RunStep(trace, k);
  }

  /** So the 30 s guarantee of atomic sweeps fails at lock level: a peer that comes back between
      the snapshot and its collection is removed though it has just been active. */
  lemma FreshPeerCollected(u: string)
    ensures var trace := [Timed(0, Register(u)), Timed(31 * SECOND, Snapshot),
                          Timed(31 * SECOND, Touch(u)), Timed(31 * SECOND, Collect(u))];
            && Chronological(trace)
            && u in Run(trace[..3]).lastActive && Run(trace[..3]).lastActive[u] == trace[3].at
            && u !in Run(trace).lastActive
  {
    var trace := [Timed(0, Register(u)), Timed(31 * SECOND, Snapshot),
                  Timed(31 * SECOND, Touch(u)), Timed(31 * SECOND, Collect(u))];
    assert trace[..0] == [] && trace[..4] == trace;
    RunStep(trace, 0);
    RunStep(trace, 1);
    RunStep(trace, 2);
    RunStep(trace, 3);
    assert Run(trace[..1]).lastActive == map[u := 0];
    assert Stale(map[u := 0], u, 31 * SECOND);
    assert u in Run(trace[..2]).stale;
  }
}
