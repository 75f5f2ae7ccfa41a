/** The notifier: a ring buffer of recent notifications and a table of subscribers, changed in
    one critical section. Running the snapshotted callbacks happens after the lock is released. */
module Notifier {
  import opened Types

  /** Place of the `i`-th oldest entry in a buffer that wraps. */
  function Place(head: nat, i: nat, size: nat): nat {
    if head + i < size then head + i else head + i - size
  }

  /** The modulus of the code is that wrap, since both summands lie within the buffer. */
  lemma ModIsPlace(head: nat, i: nat, size: nat)
    requires head < size && i <= size
    ensures (head + i) % size == Place(head, i, size)
  {
    var a := head + i;
    var q := a / size;
    assert a == size * q + a % size;
    if q >= 2 {
      MultipleGrows(size, 2, q);
    } else if q == 1 {
      assert size * q == size;
    } else {
      assert size * q == 0;
    }
  }

  lemma {:induction false} MultipleGrows(size: nat, low: nat, k: nat)
    requires low <= k
    ensures size * low <= size * k
    decreases k
  {
    if low < k {
      MultipleGrows(size, low, k - 1);
      assert size * k == size * (k - 1) + size;
    }
  }

  /** A non-empty buffer that holds the last emissions of a log, oldest at `head`. */
  ghost predicate Holds(buf: seq<Notification>, head: nat, count: nat, log: seq<Notification>) {
    var recent := LastN(log, |buf|);
    && head < |buf| && count == |recent|
    && forall i | 0 <= i < count :: buf[Place(head, i, |buf|)] == recent[i]
  }

  lemma InRange(buf: seq<Notification>, head: nat, count: nat, log: seq<Notification>)
    requires Holds(buf, head, count, log)
    ensures head < |buf| && count <= |buf|
  {
  }

  lemma WriteFilling(buf: seq<Notification>, head: nat, count: nat, log: seq<Notification>, x: Notification)
    requires Holds(buf, head, count, log) && count < |buf|
    ensures Holds(buf[Place(head, count, |buf|) := x], head, count + 1, log + [x])
  {
  }

  /** A full buffer overwrites its oldest entry and moves on by one. */
  lemma WriteFull(buf: seq<Notification>, head: nat, log: seq<Notification>, x: Notification)
    requires Holds(buf, head, |buf|, log)
    ensures Place(head, |buf|, |buf|) == head
    ensures Holds(buf[head := x], Place(head, 1, |buf|), |buf|, log + [x])
  {
    var size, head' := |buf|, Place(head, 1, |buf|);
    forall i | 0 <= i < size ensures buf[head := x][Place(head', i, size)] == LastN(log + [x], size)[i] {
      if i < size - 1 {
        assert Place(head', i, size) == Place(head, i + 1, size) != head;
      }
    }
  }

  /** `C` is the type of a callback. */
  class Notifier<C> {
    var callbacks: map<nat, C>
    var nextToken: nat
    const bufferSize: int
    const buffer: array<Notification>
    var head: nat
    var count: nat

    /** History: every notification ever emitted, in the order of the critical sections. */
    ghost var log: seq<Notification>

    ghost predicate Valid()
      reads this, buffer
    {
      && buffer.Length == (if bufferSize > 0 then bufferSize else 0)
      && (forall t | t in callbacks :: t < nextToken)
      && (bufferSize <= 0 ==> count == 0 && head == 0)
      && (bufferSize > 0 ==> Holds(buffer[..], head, count, log))
    }

    /** What the buffer stands for: the last `bufferSize` emissions, oldest first. */
    ghost function Recent(): seq<Notification>
      reads this
    {
      LastN(log, if bufferSize > 0 then bufferSize else 0)
    }

    constructor (bufferSize: int)
      ensures Valid() && fresh(buffer) && this.bufferSize == bufferSize && log == [] && callbacks == map[] && nextToken == 0
    {
      this.bufferSize := bufferSize;
      buffer := new Notification[if bufferSize > 0 then bufferSize else 0](_ => PeerOffline("", ""));
      callbacks, nextToken, head, count := map[], 0, 0, 0;
      log := [];
    }

    method Subscribe(callback: C) returns (token: nat)
      requires Valid()
      modifies this`callbacks, this`nextToken
      ensures Valid() && token !in old(callbacks) && callbacks == old(callbacks)[token := callback]
      ensures token == old(nextToken) && nextToken == token + 1
    {
      token := nextToken;
      nextToken := nextToken + 1;
      callbacks := callbacks[token := callback];
    }

    method Unsubscribe(token: nat)
      requires Valid()
      modifies this`callbacks
      ensures Valid() && callbacks == old(callbacks) - {token}
    {
      callbacks := callbacks - {token};
    }

    /** The critical section of `Emit`: record, and snapshot who is to be called. */
    method Emit(notification: Notification) returns (toCall: map<nat, C>)
      requires Valid()
      modifies this`head, this`count, this`log, buffer
      ensures Valid() && log == old(log) + [notification] && toCall == callbacks
    {
      hide Holds, Place, LastN;
      toCall := callbacks;
      log := log + [notification];
      if bufferSize > 0 {
        ghost var buf := buffer[..];
        InRange(buf, head, count, old(log));
        ModIsPlace(head, count, bufferSize);
        var index := (head + count) % bufferSize;
        buffer[index] := notification;
        assert buffer[..] == buf[index := notification];
        if count < bufferSize {
          WriteFilling(buf, head, count, old(log), notification);
          count := count + 1;
        } else {
          WriteFull(buf, head, old(log), notification);
          ModIsPlace(head, 1, bufferSize);
          head := (head + 1) % bufferSize;
        }
      }
    }

    /** History is the last min(count, size) emissions, oldest first, whatever the wraparound. */
    method History() returns (history: seq<Notification>)
      requires Valid()
      ensures history == Recent()
    {
      if bufferSize == 0 || count == 0 {
        return [];
      }
      history := [];
      for i := 0 to count
        invariant |history| == i && forall k | 0 <= k < i :: history[k] == Recent()[k]
      {
        ModIsPlace(head, i, bufferSize);
        var index := (head + i) % bufferSize;
        assert buffer[..][Place(head, i, bufferSize)] == Recent()[i];
        history := history + [buffer[index]];
      }
    }
  }
}
