/** The bytes a node signs for a handshake and for a heartbeat. */
module SignData {
  import opened Types

  /** The eight bytes of a 64-bit number, most significant first. */
  function BigEndian(v: UInt64): (b: seq<Byte>)
    ensures |b| == 8
  {
    [v / 0x100_0000_0000_0000, v / 0x1_0000_0000_0000 % 256, v / 0x100_0000_0000 % 256, v / 0x1_0000_0000 % 256,
     v / 0x100_0000 % 256, v / 0x1_0000 % 256, v / 0x100 % 256, v % 256]
  }

  function HandshakeSignData(uuid: seq<Byte>): seq<Byte> {
    uuid
  }

  function HeartbeatSignData(uuid: seq<Byte>, timestamp: UInt64): seq<Byte> {
    uuid + BigEndian(timestamp)
  }

  /** The number some bytes stand for, most significant first. */
  function Value(b: seq<Byte>): nat {
    if b == [] then 0 else 256 * Value(b[..|b| - 1]) + b[|b| - 1]
  }

  /** The last `n` bytes of a number, taken off one at a time. */
  function Bytes(n: nat, v: nat): (b: seq<Byte>)
    ensures |b| == n
  {
    if n == 0 then [] else Bytes(n - 1, v / 256) + [v % 256]
  }

  function Pow256(n: nat): nat {
    if n == 0 then 1 else 256 * Pow256(n - 1)
  }

  lemma {:induction false} ValueOfBytes(n: nat, v: nat)
    requires v < Pow256(n)
    ensures Value(Bytes(n, v)) == v
  {
    if n > 0 {
      assert Bytes(n, v)[..n - 1] == Bytes(n - 1, v / 256);
      ValueOfBytes(n - 1, v / 256);
    }
  }

  lemma {:induction false} BytesOfValue(b: seq<Byte>)
    ensures Value(b) < Pow256(|b|) && Bytes(|b|, Value(b)) == b
  {
    if b != [] {
      var n := |b| - 1;
      BytesOfValue(b[..n]);
      assert Value(b) / 256 == Value(b[..n]) && Value(b) % 256 == b[n];
    }
  }

  lemma Shifts(v: nat)
    ensures v / 0x1_0000 == v / 256 / 256 && v / 0x100_0000 == v / 0x1_0000 / 256
    ensures v / 0x1_0000_0000 == v / 0x100_0000 / 256 && v / 0x100_0000_0000 == v / 0x1_0000_0000 / 256
    ensures v / 0x1_0000_0000_0000 == v / 0x100_0000_0000 / 256
    ensures v / 0x100_0000_0000_0000 == v / 0x1_0000_0000_0000 / 256
  {
  }

  /** The shifts pick out those bytes. */
  lemma BigEndianIsBytes(v: UInt64)
    ensures BigEndian(v) == Bytes(8, v)
  {
    Shifts(v);
    BytesUnfolded(v);
  }

  lemma BytesUnfolded(v: nat)
    ensures Bytes(8, v) == [v / 256 / 256 / 256 / 256 / 256 / 256 / 256 % 256, v / 256 / 256 / 256 / 256 / 256 / 256 % 256,
                            v / 256 / 256 / 256 / 256 / 256 % 256, v / 256 / 256 / 256 / 256 % 256,
                            v / 256 / 256 / 256 % 256, v / 256 / 256 % 256, v / 256 % 256, v % 256]
  {
    var v1 := v / 256; var v2 := v1 / 256; var v3 := v2 / 256; var v4 := v3 / 256; var v5 := v4 / 256; var v6 := v5 / 256;
    var v7 := v6 / 256;
    assert Bytes(2, v6) == [v7 % 256, v6 % 256];
    assert Bytes(4, v4) == [v7 % 256, v6 % 256, v5 % 256, v4 % 256];
    assert Bytes(6, v2) == [v7 % 256, v6 % 256, v5 % 256, v4 % 256, v3 % 256, v2 % 256];
  }

  /** The bytes and the number determine each other. */
  lemma ValueOfBigEndian(v: UInt64)
    ensures Value(BigEndian(v)) == v
  {
    hide BigEndian;
    PowOf8();
    BigEndianIsBytes(v);
    ValueOfBytes(8, v);
  }

  lemma BigEndianOfValue(b: seq<Byte>)
    requires |b| == 8
    ensures Value(b) < 0x1_0000_0000_0000_0000 && BigEndian(Value(b)) == b
  {
    hide BigEndian;
    PowOf8();
    BytesOfValue(b);
    BigEndianIsBytes(Value(b));
  }

  lemma PowOf8()
    ensures Pow256(8) == 0x1_0000_0000_0000_0000
  {
    assert Pow256(4) == 0x1_0000_0000;
  }

  /** Two heartbeats sign the same bytes only if they are of the same peer at the same time, whatever
      the lengths of the two identifiers. */
  lemma HeartbeatInjective(uuid1: seq<Byte>, time1: UInt64, uuid2: seq<Byte>, time2: UInt64)
    requires HeartbeatSignData(uuid1, time1) == HeartbeatSignData(uuid2, time2)
    ensures uuid1 == uuid2 && time1 == time2
  {
    var data := HeartbeatSignData(uuid1, time1);
    assert data[..|data| - 8] == uuid1 && data[..|data| - 8] == uuid2;
    assert data[|data| - 8..] == BigEndian(time1) && data[|data| - 8..] == BigEndian(time2);
    ValueOfBigEndian(time1);
    ValueOfBigEndian(time2);
  }

  /** What a peer signs for a handshake can also be read as a heartbeat exactly when its identifier is
      at least eight bytes longer than that of the heartbeat's peer: the rest is then the time. So the
      two never coincide for identifiers of the same length. */
  lemma HeartbeatReadsAsHandshakeIff(uuid: seq<Byte>, timestamp: UInt64, other: seq<Byte>)
    ensures HeartbeatSignData(uuid, timestamp) == HandshakeSignData(other) <==>
            |other| >= 8 && uuid == other[..|other| - 8] && timestamp == Value(other[|other| - 8..])
    ensures |uuid| == |other| ==> HeartbeatSignData(uuid, timestamp) != HandshakeSignData(other)
  {
    ValueOfBigEndian(timestamp);
    var data := HeartbeatSignData(uuid, timestamp);
    assert data[..|data| - 8] == uuid && data[|data| - 8..] == BigEndian(timestamp);
    if |other| >= 8 && uuid == other[..|other| - 8] && timestamp == Value(other[|other| - 8..]) {
      BigEndianOfValue(other[|other| - 8..]);
      assert other == other[..|other| - 8] + other[|other| - 8..];
    }
  }
}
