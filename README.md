# ChannelFinder name server — a Dafny model

The ChannelFinder name server answers pvAccess PV searches from a directory. A client
asks by broadcast which server hosts a PV. The name server's search handler looks the PV
name up in the ChannelFinder directory. If the channel found there has both an `iocIP` and a
`pvaPort` property, the handler sends the client that address itself. A search for the name
`QUIT` releases the latch the main thread waits on. A separate relay,
`CFSearchRequestRelay`, re-sends a search to every local broadcast target. It uses one
shared encode buffer and one UDP channel per address family. For a multicast target it first
sets the multicast interface and TTL on that channel.

Modules, one per concern:

- `Wrappers`: `Option` and `Result`. A `Result` error is the exception a Java call throws.
- `Net`: IP and socket addresses, the JDK integer widths, the port range, and `ReplySender`.
  `ReplySender` is the reply callback a search handler receives. It records what it accepted.
- `Text`: the JDK's `String.equalsIgnoreCase`, `Integer.parseInt` and `Integer.toString`.
- `Nameserver`: `getAddressforPV`, the `search_handler` lambda and the `CountDownLatch`.
  `getAddressforPV` is pure functions over the channel's property list. The handler is a
  method of a class holding the latch.
- `Sockets`: the `ByteBuffer`, a class over an array, which the relay encodes into. Also the
  `DatagramChannel`, a class with the multicast options and a log of sent datagrams.
- `Relay`: `CFSearchRequestRelay` as a class. Its `Forward` loop is proved against the
  specification function `AfterForward`. The relay's properties are proved as lemmas about
  that function.

Inputs the model takes as parameters:

- The directory's answer. It is a function from request URI to a response: a property list
  or a failure.
- The pvAccess encoder.
- The broadcast list.
- The buffer capacity.
- Per target, which socket calls throw.

Behaviour of the code that the model keeps:

- The handler returns `true` whenever it returns normally, even when nothing was resolved, so
  on those paths the PVA server's default search handling is not used. What the PVA server
  does when the handler throws is not part of this model.
- A directory failure is an exception that leaves `getAddressforPV` and the handler. Failures
  are a timeout, an error status, a failed connection, or an empty body (a null channel, read
  at line 99). A port text `parseInt` rejects, or a port outside 0..65535, is one too. None of
  them gives an empty result; only a missing property does.
- Port 0 is accepted, because `InetSocketAddress` admits 0..65535.
- The query URI is `cf.url + cf.resources + name`. There is no status filter and no escaping.
- The handler never calls the relay. Nothing in `CFNameserver` uses `CFSearchRequestRelay`.
- `forward` encodes outside its `try`. A frame larger than the buffer therefore ends
  `forward` with the exception at the first target, and nothing is sent.

## Model

| member | source | states |
|---|---|---|
| `Nameserver.DefaultQueryUri` | src/main/java/org/phoebus/channelfinder/nameserver/CFNameserver.java:27-30 | with the default settings the query URI is `http://localhost:8080`, then `/ChannelFinder/resources/channels/`, then the name |
| `Nameserver.QueryUri` | src/main/java/org/phoebus/channelfinder/nameserver/CFNameserver.java:94 | the URI is the base URL, then the resource path, then the PV name verbatim (not escaped, no filter added) |
| `Nameserver.QueryUriIsInjective` | src/main/java/org/phoebus/channelfinder/nameserver/CFNameserver.java:94 | under the same settings, different PV names are looked up under different URIs |
| `Text.EqualsIgnoreCase` | src/main/java/org/phoebus/channelfinder/nameserver/CFNameserver.java:100-107 | two property names match exactly when their upper-case forms are equal |
| `Nameserver.FirstMatch` | src/main/java/org/phoebus/channelfinder/nameserver/CFNameserver.java:99-101 | `filter(...).findFirst()`: the position returned holds a property whose name equals the key ignoring case, and no earlier one does; none is returned only when no property matches |
| `Nameserver.FirstMatchIgnoresLaterProperties` | src/main/java/org/phoebus/channelfinder/nameserver/CFNameserver.java:106-108 | once a matching property exists, properties appended after it do not change which one matches first |
| `Nameserver.AddressOf` | src/main/java/org/phoebus/channelfinder/nameserver/CFNameserver.java:113 | an address exists iff the port text parses to a value in 0..65535; its host is the `iocIP` text and its port the parsed value; otherwise the error is `NumberFormat` (parse failed) or `PortOutOfRange` (parsed, out of range) |
| `Nameserver.ResolveChannel` | src/main/java/org/phoebus/channelfinder/nameserver/CFNameserver.java:99-115 | the result is empty iff the `iocIP` or the `pvaPort` property is missing (both directions); any error is a port error |
| `Nameserver.ResolveChannelUsesFirstMatches` | src/main/java/org/phoebus/channelfinder/nameserver/CFNameserver.java:99-115 | with first matches at `i` and `j`, the outcome is the address (host = value at `i`, port = parsed value at `j`), or the number-format or port-range error, decided by those two values alone |
| `Nameserver.ResolveChannelIgnoresLaterProperties` | src/main/java/org/phoebus/channelfinder/nameserver/CFNameserver.java:99-111 | once both properties are present, any properties appended (duplicates included) leave the result unchanged |
| `Nameserver.GetAddressForPV` | src/main/java/org/phoebus/channelfinder/nameserver/CFNameserver.java:92-116 | a failed directory request gives that failure as an exception, and only then; a channel answer gives exactly what `ResolveChannel` gives for its properties; a returned address implies the channel at `QueryUri` carried both properties |
| `Nameserver.ParsePortExamples` | src/main/java/org/phoebus/channelfinder/nameserver/CFNameserver.java:113 | `parseInt` reads "5075" and "70000" and rejects "50x" |
| `Nameserver.ResolveChannelExample` | src/main/java/org/phoebus/channelfinder/nameserver/CFNameserver.java:99-115 | `iocIP=10.0.0.5`, `pvaPort=5075` resolves to 10.0.0.5:5075 |
| `Nameserver.ResolveChannelMixedCaseExample` | src/main/java/org/phoebus/channelfinder/nameserver/CFNameserver.java:99-115 | names match in any letter case; a later `pvaport` duplicate is ignored |
| `Nameserver.ResolveChannelBadPortExamples` | src/main/java/org/phoebus/channelfinder/nameserver/CFNameserver.java:113 | port 70000 is a port-range exception; port text "50x", and "2147483648", which is beyond 32 bits, are number-format exceptions; none is an empty result |
| `Text.ParseInt` | src/main/java/org/phoebus/channelfinder/nameserver/CFNameserver.java:113 | `Integer.parseInt`: a value is returned only for an optional sign followed by one or more digits; it is the value of those digits, negated after a '-', and lies in the 32-bit range |
| `Text.ParseIntOfNumeral` | src/main/java/org/phoebus/channelfinder/nameserver/CFNameserver.java:113 | every numeral (an optional '+' or '-', any number of leading zeros, the decimal digits of `n`) is accepted as plus or minus `n` exactly when that is in the 32-bit range, and rejected otherwise |
| `Text.ParseIntOfIntToString` | src/main/java/org/phoebus/channelfinder/nameserver/CFNameserver.java:113 | the decimal form of every 32-bit value is parsed back to it, and the decimal form of every other value is rejected |
| `Text.ParseIntSignAndZerosExamples` | src/main/java/org/phoebus/channelfinder/nameserver/CFNameserver.java:113 | "+5075" and "05075" both read as 5075 |
| `Text.ParseIntRangeExamples` | src/main/java/org/phoebus/channelfinder/nameserver/CFNameserver.java:113 | "2147483648" is rejected and "-2147483648" reads as the 32-bit minimum |
| `Nameserver.CountDownLatch.CountDown` | src/main/java/org/phoebus/channelfinder/nameserver/CFNameserver.java:57 | the count drops by one, and stays at zero once there |
| `Nameserver.LatchStep` | src/main/java/org/phoebus/channelfinder/nameserver/CFNameserver.java:56-57 | one search never raises the count and lowers it by at most one; it lowers it exactly when the name is "QUIT" and the count is positive |
| `Nameserver.LatchAfterCountsQuits` | src/main/java/org/phoebus/channelfinder/nameserver/CFNameserver.java:56-57 | after any series of searches the count is its start minus the number of "QUIT" searches, floored at zero; other names leave it alone |
| `Nameserver.QuitReleasesOnce` | src/main/java/org/phoebus/channelfinder/nameserver/CFNameserver.java:51-57 | the count-1 latch is at 0 after a series of searches iff one of them was "QUIT", and at 1 otherwise |
| `Nameserver.NameServer.constructor` | src/main/java/org/phoebus/channelfinder/nameserver/CFNameserver.java:51 | the latch starts at count 1 |
| `Nameserver.NameServer.SearchHandler` | src/main/java/org/phoebus/channelfinder/nameserver/CFNameserver.java:52-69 | the latch takes one "QUIT" step before the lookup, so also when the lookup throws; the handler returns `true` iff the lookup did not throw, and otherwise rethrows its exception; the reply sender gets exactly the resolved address, once, and nothing when none was resolved |
| `Net.ReplySender.Accept` | src/main/java/org/phoebus/channelfinder/nameserver/CFNameserver.java:64 | the accepted address is appended to what the reply sender has accepted, and nothing else changes |
| `Sockets.ByteBuffer.Allocate` | src/main/java/org/phoebus/channelfinder/nameserver/CFSearchRequestRelay.java:31 | a fresh array of the given capacity, position 0 and the limit at the capacity |
| `Sockets.ByteBuffer.Clear` | src/main/java/org/phoebus/channelfinder/nameserver/CFSearchRequestRelay.java:62 | position 0, limit the capacity |
| `Sockets.ByteBuffer.Put` | src/main/java/org/phoebus/channelfinder/nameserver/CFSearchRequestRelay.java:64 | the frame is written at the position if it fits before the limit, and the rest of the array is untouched; otherwise it overflows and nothing changes |
| `Sockets.ByteBuffer.Flip` | src/main/java/org/phoebus/channelfinder/nameserver/CFSearchRequestRelay.java:65 | what was written becomes what is to be read |
| `Sockets.DatagramChannel.Open` | src/main/java/org/phoebus/channelfinder/nameserver/CFSearchRequestRelay.java:35-41 | a channel of the given family with broadcast off, no multicast interface, TTL 1 and nothing sent |
| `Sockets.DatagramChannel.SetBroadcast` | src/main/java/org/phoebus/channelfinder/nameserver/CFSearchRequestRelay.java:36 | broadcast is switched as asked; the multicast options and the log are unchanged |
| `Sockets.DatagramChannel.SetMulticastIf` | src/main/java/org/phoebus/channelfinder/nameserver/CFSearchRequestRelay.java:91 | the interface option becomes the given interface unless the call is rejected; nothing else changes |
| `Sockets.DatagramChannel.SetMulticastTtl` | src/main/java/org/phoebus/channelfinder/nameserver/CFSearchRequestRelay.java:92 | the TTL option becomes the given TTL unless the call is rejected or the TTL is outside 0..255; nothing else changes |
| `Sockets.DatagramChannel.Send` | src/main/java/org/phoebus/channelfinder/nameserver/CFSearchRequestRelay.java:96 | a send appends one datagram with the buffer's remaining bytes, the destination and the current options, and consumes the buffer; a rejected send changes nothing |
| `Relay.SearchRequestRelay.constructor` | src/main/java/org/phoebus/channelfinder/nameserver/CFSearchRequestRelay.java:33-48 | two fresh channels (IPv4 with broadcast enabled, and IPv6), the given broadcast list kept as a constant, and a fresh buffer of the given capacity |
| `Relay.SendOn` | src/main/java/org/phoebus/channelfinder/nameserver/CFSearchRequestRelay.java:89-108 | on the chosen channel a datagram carrying the payload, with the options then in effect, is appended exactly when the target is delivered; the interface option becomes the target's once that call succeeds, the TTL option once both calls succeed and the TTL is in 0..255; a unicast target changes neither option |
| `Relay.AfterSend` | src/main/java/org/phoebus/channelfinder/nameserver/CFSearchRequestRelay.java:85-110 | the other family's channel is untouched; multicast options change only for a multicast target; the interface is the target's once accepted, and the TTL is the target's once the interface and the TTL are both accepted; a delivered send appends exactly one datagram carrying the payload to the target's address (and, for multicast, its interface and TTL); an undelivered one sends nothing |
| `Relay.AfterForward` | src/main/java/org/phoebus/channelfinder/nameserver/CFSearchRequestRelay.java:60-76 | after the loop each channel's log has grown by one datagram for each delivered target of its family |
| `Relay.SearchRequestRelay.Send` | src/main/java/org/phoebus/channelfinder/nameserver/CFSearchRequestRelay.java:80-111 | `send` changes both channels exactly as `AfterSend` says; it reports success iff the target was delivered |
| `Relay.SearchRequestRelay.Forward` | src/main/java/org/phoebus/channelfinder/nameserver/CFSearchRequestRelay.java:50-78 | the new channel state is `AfterForward` over the whole broadcast list, with the one frame encoded from (seq, [(cid, name)], addr), unless the frame overflows the buffer (then nothing is sent and the exception escapes); the reply sender is untouched |
| `Relay.ForwardSendsInOrder` | src/main/java/org/phoebus/channelfinder/nameserver/CFSearchRequestRelay.java:58-76 | forwarding only appends to each channel's log; what it appends is one datagram per delivered target of that family, in list order, all with the identical payload; each multicast datagram went out with its own target's interface and TTL |
| `Relay.ForwardCoversEveryTarget` | src/main/java/org/phoebus/channelfinder/nameserver/CFSearchRequestRelay.java:60-76 | when no call throws, each channel delivers to exactly the targets of its family, and the two families make up the whole list: no target is skipped or repeated |
| `Relay.FailureIsIsolated` | src/main/java/org/phoebus/channelfinder/nameserver/CFSearchRequestRelay.java:66-75 | whatever happens when sending to target `j`, the targets before and after it are delivered to exactly as they would be on their own |
| `Relay.DeliveredTargetsAppend` | src/main/java/org/phoebus/channelfinder/nameserver/CFSearchRequestRelay.java:60 | delivery over a list split in two is delivery over each part, concatenated |

## Left out

- Process plumbing is not modelled: Spring Boot start-up, `main`, the `System.setProperty`
  calls, logging, the `PVAServer` lifecycle and `done.await()`. The model keeps only the latch
  `run` creates.
- The `WebClient` request, XML deserialisation into `XmlChannel` and the 15-second
  `Mono.block` are network and library behaviour. The answer is an input (`Directory`), and a
  timeout is one of its failure alternatives. `XmlChannel` is not part of this model. A channel
  is its ordered list of (name, value) properties. Null property names or values are not
  represented.
- WebClient's own handling of the URI string (template expansion, encoding) is not modelled.
- The pvAccess wire format (`SearchRequest.encode`) is not modelled. Neither are `Hexdump`,
  `Network.createUDP` and `Network.getBroadcastAddresses`. The encoder and the broadcast list
  are constructor inputs. Opening a channel always succeeds, and the bound local addresses,
  which are only logged, are left out.
- `PVASettings.MAX_UDP_PACKET` is not part of this model. The buffer capacity is a constructor
  parameter.
- The `synchronized` blocks are concurrency. Callers are modelled as sequential.
- DNS resolution inside `InetSocketAddress` is not modelled. A resolved override address
  keeps the `iocIP` text as an unresolved host name.
- What the operating system does with a datagram is not modelled. A send either records the
  datagram or throws, and the bytes-sent count `send` returns is ignored.
- Logging of the handler's sequence number, channel id and client address is left out. Those
  three inputs have no other effect.
- Text.EqualsIgnoreCase: folds only ASCII letters. Other Unicode case pairs that Java
  `equalsIgnoreCase` treats as equal are not modelled.
- Text.ParseInt: accepts only ASCII digits. Java `Character.digit` also accepts other Unicode
  decimal digits.
- Sockets.ByteBuffer.Put: an overflowing write changes nothing. The bytes an encoder may have
  written before the `BufferOverflowException` are not modelled. After it `forward` has
  already ended.
- Relay.AfterSend: a unicast send after a multicast send goes out with the options the
  multicast send left on the channel. The model records this and asserts nothing about those
  options, which matter only for multicast datagrams.
