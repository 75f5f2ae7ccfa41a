/** The pool of connections and streams of a node. */
module ConnPool {
  import opened Types

  class Conn {
    var closed: bool

    constructor ()
      ensures !closed
    {
      closed := false;
    }

    method Close()
      modifies this
      ensures closed
    {
      closed := true;
    }
  }

  class Stream {
    var sendClosed: bool

    constructor ()
      ensures !sendClosed
    {
      sendClosed := false;
    }

    method CloseSend()
      modifies this
      ensures sendClosed
    {
      sendClosed := true;
    }
  }

  /** A stream with the mutex that guards its sends. */
  class LockedStream {
    const stream: Stream

    constructor (stream: Stream)
      ensures this.stream == stream
    {
      this.stream := stream;
    }
  }

  class Pool {
    var conns: map<string, Conn>
    var streams: map<string, LockedStream>

    constructor ()
      ensures conns == map[] && streams == map[]
    {
      conns, streams := map[], map[];
    }

    /** A connection already there is displaced, not closed. */
    method SetConn(addr: string, conn: Conn)
      modifies this`conns
      ensures conns == old(conns)[addr := conn]
    {
      conns := conns[addr := conn];
    }

    method GetConn(addr: string) returns (conn: Option<Conn>)
      ensures conn == if addr in conns then Some(conns[addr]) else None
    {
      if addr in conns {
        return Some(conns[addr]);
      }
      return None;
    }

    method DeleteConn(addr: string)
      modifies this`conns, if addr in conns then {conns[addr]} else {}
      ensures conns == old(conns) - {addr}
      ensures addr in old(conns) ==> old(conns)[addr].closed
    {
      if addr in conns {
        conns[addr].Close();
      }
      conns := conns - {addr};
    }

    /** Every stream set gets a lock of its own. */
    method SetStream(addr: string, stream: Stream)
      modifies this`streams
      ensures addr in streams && fresh(streams[addr]) && streams[addr].stream == stream
      ensures streams == old(streams)[addr := streams[addr]]
    {
      var locked := new LockedStream(stream);
      streams := streams[addr := locked];
    }

    method DeleteStream(addr: string)
      modifies this`streams
      ensures streams == old(streams) - {addr}
    {
      streams := streams - {addr};
    }

    method HasStream(addr: string) returns (ok: bool)
      ensures ok <==> addr in streams
    {
      ok := addr in streams;
    }

    method CloseByAddr(addr: string)
      modifies this, if addr in conns then {conns[addr]} else {}, if addr in streams then {streams[addr].stream} else {}
      ensures conns == old(conns) - {addr} && streams == old(streams) - {addr}
      ensures addr in old(conns) ==> old(conns)[addr].closed
      ensures addr in old(streams) ==> old(streams)[addr].stream.sendClosed
    {
      if addr in streams {
        streams[addr].stream.CloseSend();
      }
      streams := streams - {addr};
      if addr in conns {
        conns[addr].Close();
      }
      conns := conns - {addr};
    }

    method CloseAll()
      modifies this, set a | a in conns :: conns[a], set a | a in streams :: streams[a].stream
      ensures conns == map[] && streams == map[]
      ensures forall a | a in old(conns) :: old(conns)[a].closed
      ensures forall a | a in old(streams) :: old(streams)[a].stream.sendClosed
    {
      var rest := streams.Keys;
      while rest != {}
        invariant rest <= streams.Keys && streams == old(streams) && conns == old(conns)
        invariant forall a | a in streams && a !in rest :: streams[a].stream.sendClosed
        decreases rest
      {
        var a :| a in rest;
        streams[a].stream.CloseSend();
        rest := rest - {a};
      }
      rest := conns.Keys;
      while rest != {}
        invariant rest <= conns.Keys && streams == old(streams) && conns == old(conns)
        invariant forall a | a in streams :: streams[a].stream.sendClosed
        invariant forall a | a in conns && a !in rest :: conns[a].closed
        decreases rest
      {
        var a :| a in rest;
        conns[a].Close();
        rest := rest - {a};
      }
      streams, conns := map[], map[];
    }
  }
}
