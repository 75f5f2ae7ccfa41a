/** The receiving side of a message stream: what a node does with one envelope. */
module Messaging {
  import opened Types
  import opened Notifier

  type Nonce = seq<Byte>

  datatype Payload =
    | Text(content: string)
    | Ping(nonce: Nonce)
    | Pong(nonce: Nonce, pingTimestamp: UInt64)
    | Unset

  datatype Envelope = Envelope(msgId: string, from: Option<NodeID>, timestamp: UInt64, payload: Payload)

  /** The pong that answers a ping: its nonce and its envelope's timestamp come back unchanged. */
  function Answer(self: NodeID, env: Envelope, now: UInt64): Envelope
    requires env.payload.Ping?
  {
    Envelope(env.msgId + "-pong", Some(self), now, Pong(env.payload.nonce, env.timestamp))
  }

  class MessagingService<C> {
    const self: NodeID
    const notifier: Notifier<C>

    constructor (self: NodeID, notifier: Notifier<C>)
      ensures this.self == self && this.notifier == notifier
    {
      this.self := self;
      this.notifier := notifier;
    }

    /** `verified` is the verdict on the envelope's signature; the name of a sender left unset
        cannot be read. `reply` is what is sent back on the stream. */
    method HandleEnvelope(env: Envelope, verified: bool, now: UInt64) returns (reply: Option<Envelope>)
      requires notifier.Valid() && env.from.Some?
      modifies notifier`head, notifier`count, notifier`log, notifier.buffer
      ensures notifier.Valid()
      ensures reply.Some? <==> verified && env.payload.Ping?
      ensures reply.Some? ==> reply.value.payload == Pong(env.payload.nonce, env.timestamp)
                              && reply.value.from == Some(self) && reply.value.msgId == env.msgId + "-pong" && reply.value.timestamp == now
      ensures notifier.log == old(notifier.log) +
                (if verified && env.payload.Text? then [MessageReceived(env.from.value.name, env.payload.content)] else [])
    {
      if !verified {
        return None;
      }
      match env.payload
      case Text(content) =>
        var _ := notifier.Emit(MessageReceived(env.from.value.name, content));
        return None;
      case Ping(_) => return Some(Answer(self, env, now));
      case _ => return None;
    }
  }
}
