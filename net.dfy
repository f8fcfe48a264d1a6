/** Network values shared by the name server and the search relay: IP and socket addresses,
    the integer widths of the JDK, and the reply channel handed to a search handler. */
module Net {

  /** An unsigned octet. */
  type byte = x: int | 0 <= x < 0x100

  /** Java's 32-bit `int`. */
  type Int32 = x: int | -0x8000_0000 <= x < 0x8000_0000

  /** The ports `InetSocketAddress` admits (it rejects anything outside 0..0xFFFF). */
  type Port = p: int | 0 <= p <= 0xFFFF

  type Ipv4Octets = s: seq<byte> | |s| == 4 witness [0, 0, 0, 0]
  type Ipv6Octets = s: seq<byte> | |s| == 16 witness [0, 0, 0, 0, 0, 0, 0, 0, 0, 0, 0, 0, 0, 0, 0, 0]

  /** `Inet4Address` or `Inet6Address`, by its raw octets (network byte order). */
  datatype InetAddress = Inet4(v4: Ipv4Octets) | Inet6(v6: Ipv6Octets)

  /** `InetAddress.isMulticastAddress`: 224.0.0.0/4 for IPv4, ff00::/8 for IPv6. */
  predicate IsMulticastAddress(a: InetAddress) {
    match a
    case Inet4(o) => 224 <= o[0] <= 239
    case Inet6(o) => o[0] == 0xFF
  }

  /** The host part of an `InetSocketAddress`: a host name that was not resolved
      (its `getAddress()` is null), or an IP address. */
  datatype Host = HostName(name: string) | Address(ip: InetAddress)

  /** `java.net.InetSocketAddress`. */
  datatype InetSocketAddress = InetSocketAddress(host: Host, port: Port)

  /** The `Consumer<InetSocketAddress>` a search handler is given to answer the client:
      every address it accepted, in order. */
  class ReplySender {
    var accepted: seq<InetSocketAddress>

    constructor ()
      ensures accepted == []
    {
      accepted := [];
    }

    /** `reply_sender.accept(address)`. */
    method Accept(address: InetSocketAddress)
      modifies this
      ensures accepted == old(accepted) + [address]
    {
      accepted := accepted + [address];
    }
  }
}
