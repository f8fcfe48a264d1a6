/** The JDK objects the relay changes in place: the `ByteBuffer` it encodes into and the
    `DatagramChannel`s it sends on. A channel is seen through its two multicast options and
    the datagrams it has sent. */
module Sockets {
  import opened Wrappers
  import opened Net

  /** `java.nio.ByteBuffer` over a fixed array: bytes are written at `position`, and a send
      reads the remaining bytes `position..limit`. */
  class ByteBuffer {
    const data: array<byte>
    var position: nat
    var limit: nat

    ghost predicate Valid()
      reads this
    {
      position <= limit <= data.Length
    }

    /** The bytes a send would read. */
    function Remaining(): seq<byte>
      reads this, data
      requires Valid()
    {
      data[position..limit]
    }

    /** `ByteBuffer.allocate(capacity)`. */
    constructor Allocate(capacity: nat)
      ensures Valid() && fresh(data) && data.Length == capacity
      ensures position == 0 && limit == capacity
    {
      data := new byte[capacity](_ => 0);
      position, limit := 0, capacity;
    }

    /** `clear()`: ready to write from the start, up to the whole capacity. */
    method Clear()
      modifies this
      ensures Valid() && position == 0 && limit == data.Length
    {
      position, limit := 0, data.Length;
    }

    /** `flip()`: what was written becomes what is to be read. */
    method Flip()
      requires Valid()
      modifies this
      ensures Valid() && position == 0 && limit == old(position)
    {
      position, limit := 0, position;
    }

    /** A bulk `put`: writes `src` at `position` when it fits before `limit`; otherwise it
        is the `BufferOverflowException`, and nothing is written. */
    method Put(src: seq<byte>) returns (ok: bool)
      requires Valid()
      modifies this, data
      ensures Valid() && limit == old(limit)
      ensures ok == (|src| <= old(limit) - old(position))
      ensures ok ==> position == old(position) + |src| && data[old(position)..position] == src
      ensures ok ==> forall m :: 0 <= m < data.Length && !(old(position) <= m < position) ==> data[m] == old(data[m])
      ensures !ok ==> position == old(position) && data[..] == old(data[..])
    {
      if |src| > limit - position {
        return false;
      }
      var k := 0;
      while k < |src|
        invariant 0 <= k <= |src|
        invariant position == old(position) && limit == old(limit)
        invariant forall m :: 0 <= m < data.Length ==>
          data[m] == if position <= m < position + k then src[m - position] else old(data[m])
      {
        data[position + k] := src[k];
        k := k + 1;
      }
      assert forall m :: 0 <= m < |src| ==> data[position..position + |src|][m] == src[m];
      position := position + |src|;
      return true;
    }
  }

  datatype ProtocolFamily = INET | INET6

  /** A `NetworkInterface`, by name. */
  datatype NetworkInterface = NetworkInterface(name: string)

  /** One datagram a channel sent, with the multicast options in effect when it went out. */
  datatype Datagram = Datagram(payload: seq<byte>, destination: InetSocketAddress,
                               multicastIf: Option<NetworkInterface>, multicastTtl: int)

  /** What the relay can change about a channel. */
  datatype SocketState = SocketState(multicastIf: Option<NetworkInterface>, multicastTtl: int, sent: seq<Datagram>)

  /** A UDP `DatagramChannel`. The `rejected` arguments stand for the exceptions the
      operating system may raise (an unusable interface, an unreachable network). */
  class DatagramChannel {
    const family: ProtocolFamily
    var broadcastEnabled: bool
    var multicastIf: Option<NetworkInterface>
    var multicastTtl: int
    var sent: seq<Datagram>

    function State(): SocketState
      reads this
    {
      SocketState(multicastIf, multicastTtl, sent)
    }

    /** An open channel with the JDK's option defaults: no multicast interface chosen, TTL 1. */
    constructor Open(family: ProtocolFamily)
      ensures this.family == family && !broadcastEnabled
      ensures State() == SocketState(None, 1, [])
    {
      this.family := family;
      broadcastEnabled := false;
      multicastIf, multicastTtl, sent := None, 1, [];
    }

    /** `socket().setBroadcast(on)`. */
    method SetBroadcast(on: bool)
      modifies this
      ensures broadcastEnabled == on && State() == old(State())
    {
      broadcastEnabled := on;
    }

    /** `setOption(IP_MULTICAST_IF, iface)`. */
    method SetMulticastIf(iface: NetworkInterface, rejected: bool) returns (ok: bool)
      modifies this
      ensures ok == !rejected && broadcastEnabled == old(broadcastEnabled)
      ensures State() == if ok then old(State()).(multicastIf := Some(iface)) else old(State())
    {
      ok := !rejected;
      if ok {
        multicastIf := Some(iface);
      }
    }

    /** `setOption(IP_MULTICAST_TTL, ttl)`, which the JDK refuses outside 0..255. */
    method SetMulticastTtl(ttl: int, rejected: bool) returns (ok: bool)
      modifies this
      ensures ok == (!rejected && 0 <= ttl <= 255) && broadcastEnabled == old(broadcastEnabled)
      ensures State() == if ok then old(State()).(multicastTtl := ttl) else old(State())
    {
      ok := !rejected && 0 <= ttl <= 255;
      if ok {
        multicastTtl := ttl;
      }
    }

    /** `send(buffer, target)`: sends the remaining bytes of `buffer` and consumes them. */
    method Send(buffer: ByteBuffer, target: InetSocketAddress, rejected: bool) returns (ok: bool)
      requires buffer.Valid()
      modifies this, buffer
      ensures ok == !rejected && broadcastEnabled == old(broadcastEnabled)
      ensures buffer.Valid() && buffer.limit == old(buffer.limit)
      ensures State() == if ok then old(State()).(sent := old(sent) + [Datagram(old(buffer.Remaining()), target, multicastIf, multicastTtl)])
                         else old(State())
      ensures buffer.position == if ok then old(buffer.limit) else old(buffer.position)
    {
      ok := !rejected;
      if ok {
        sent := sent + [Datagram(buffer.Remaining(), target, multicastIf, multicastTtl)];
        buffer.position := buffer.limit;
      }
    }
  }
}
