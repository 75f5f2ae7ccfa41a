/** Values shared by every part of the node: identities, peer records and notifications. */
module Types {

  datatype Option<+T> = None | Some(value: T)

  type Byte = n: nat | n < 256
  type UInt32 = n: nat | n < 0x1_0000_0000
  type UInt64 = n: nat | n < 0x1_0000_0000_0000_0000

  datatype NodeStatus = UNKNOWN | ONLINE | BUSY | OFFLINE

  datatype NodeID = NodeID(uuid: string, name: string, publicKey: seq<Byte>)

  datatype NodeAddr = NodeAddr(ip: string, port: UInt32)

  /** A peer record. A missing `id` is a message field the sender left unset. */
  datatype NodeInfo = NodeInfo(id: Option<NodeID>, addrs: seq<NodeAddr>, status: NodeStatus)

  function UuidOf(p: NodeInfo): string {
    if p.id.Some? then p.id.value.uuid else ""
  }

  function NameOf(p: NodeInfo): string {
    if p.id.Some? then p.id.value.name else ""
  }

  /** The payload of each kind of notification, as the string map it is encoded from. */
  datatype Notification =
    | MessageReceived(from: string, content: string)
    | PeerOnline(name: string, addr: string)
    | PeerOffline(name: string, reason: string)
    | PeerDiscovered(name: string, addr: string, uuid: string)

  predicate Distinct<T(==)>(s: seq<T>) {
    forall i, j | 0 <= i < j < |s| :: s[i] != s[j]
  }

  /** The last `n` elements of a log, or all of it when it is shorter. */
  function LastN<T>(log: seq<T>, n: nat): (r: seq<T>)
    ensures |r| == if |log| < n then |log| else n
  {
    if |log| <= n then log else log[|log| - n..]
  }

  /** What is left out comes before all the rest. */
  lemma LastNIsSuffix<T>(log: seq<T>, n: nat)
    ensures log == log[..|log| - |LastN(log, n)|] + LastN(log, n)
  {
  }
}
