/** The search relay (`CFSearchRequestRelay`): re-sends a PV search to every broadcast
    target found at start-up, over an IPv4 and an IPv6 UDP channel, encoding the search
    into one shared buffer. The state it changes is the buffer and the two channels;
    the functions below are the specification of that change. */
module Relay {
  import opened Wrappers
  import opened Net
  import opened Sockets

  /** A channel of a search request: its client id and PV name. */
  datatype Channel = Channel(id: Int32, name: string)

  /** `SearchRequest.encode(unicast, seq, channels, responseAddress, buffer)`, as the bytes it
      writes; the pvAccess wire format is not part of this model. */
  type SearchEncoder = (bool, Int32, seq<Channel>, InetSocketAddress) -> seq<byte>

  /** An `AddressInfo` of the broadcast list: where to send, and for a multicast address the
      interface and time-to-live to send with. */
  datatype AddressInfo = AddressInfo(address: InetSocketAddress, iface: NetworkInterface, ttl: Int32)

  /** Which of the three socket calls of one send raise an exception. */
  datatype SendFaults = SendFaults(ifRejected: bool, ttlRejected: bool, sendRejected: bool)

  /** The observable state of both channels. */
  datatype RelayState = RelayState(v4: SocketState, v6: SocketState)

  function SocketFor(st: RelayState, v4: bool): SocketState {
    if v4 then st.v4 else st.v6
  }

  // ---------------------------------------------------------------------------
  // One send

  /** The target's address is resolved (`getAddress()` is not null). */
  predicate IsResolved(info: AddressInfo) {
    info.address.host.Address?
  }

  /** The target goes to the IPv4 channel: its address is an `Inet4Address`. */
  predicate UsesV4(info: AddressInfo) {
    IsResolved(info) && info.address.host.ip.Inet4?
  }

  predicate IsMulticastTarget(info: AddressInfo) {
    IsResolved(info) && IsMulticastAddress(info.address.host.ip)
  }

  /** A send to `info` puts a datagram on the wire exactly when the address is resolved, the
      multicast options (for a multicast target) are accepted, and the send itself is. */
  predicate Delivered(info: AddressInfo, f: SendFaults) {
    && IsResolved(info)
    && (IsMulticastTarget(info) ==> !f.ifRejected && !f.ttlRejected && 0 <= info.ttl <= 255)
    && !f.sendRejected
  }

  /** `d` is the datagram a send of `payload` to `info` should produce: to its address, and
      for a multicast target out of its interface with its TTL. */
  predicate Carries(d: Datagram, info: AddressInfo, payload: seq<byte>) {
    && d.payload == payload
    && d.destination == info.address
    && (IsMulticastTarget(info) ==> d.multicastIf == Some(info.iface) && d.multicastTtl == info.ttl)
  }

  function Transmit(s: SocketState, payload: seq<byte>, destination: InetSocketAddress, rejected: bool): SocketState {
    if rejected then s else s.(sent := s.sent + [Datagram(payload, destination, s.multicastIf, s.multicastTtl)])
  }

  /** The steps of `send` on the channel it chose: for a multicast target set the interface,
      then the TTL, then send; the first step that throws ends it. */
  function SendOn(s: SocketState, payload: seq<byte>, info: AddressInfo, f: SendFaults): (r: SocketState)
    requires IsResolved(info)
    // a datagram goes out exactly when the target is delivered, with the options then in effect
    ensures r.sent == if Delivered(info, f) then s.sent + [Datagram(payload, info.address, r.multicastIf, r.multicastTtl)] else s.sent
    // each multicast option is the target's once its call succeeded; a unicast send changes none
    ensures r.multicastIf == if IsMulticastTarget(info) && !f.ifRejected then Some(info.iface) else s.multicastIf
    ensures r.multicastTtl == if IsMulticastTarget(info) && !f.ifRejected && !f.ttlRejected && 0 <= info.ttl <= 255
                              then info.ttl else s.multicastTtl
  {
    if !IsMulticastTarget(info) then Transmit(s, payload, info.address, f.sendRejected)
    else if f.ifRejected then s
    else if f.ttlRejected || !(0 <= info.ttl <= 255) then s.(multicastIf := Some(info.iface))
    else Transmit(s.(multicastIf := Some(info.iface), multicastTtl := info.ttl), payload, info.address, f.sendRejected)
  }

  /** The state after `send(buffer, info)` with `payload` remaining in the buffer. An address
      that is not resolved is not an `Inet4Address`, and reading whether it is multicast then
      throws before the IPv6 channel is touched. */
  function AfterSend(st: RelayState, payload: seq<byte>, info: AddressInfo, f: SendFaults): (r: RelayState)
    // the channel of the other family is untouched
    ensures SocketFor(r, !UsesV4(info)) == SocketFor(st, !UsesV4(info))
    // only a multicast target changes the multicast options
    ensures !IsMulticastTarget(info) ==>
      && r.v4.multicastIf == st.v4.multicastIf && r.v4.multicastTtl == st.v4.multicastTtl
      && r.v6.multicastIf == st.v6.multicastIf && r.v6.multicastTtl == st.v6.multicastTtl
    // a multicast target whose interface was accepted leaves the channel on that interface
    ensures IsMulticastTarget(info) && !f.ifRejected ==> SocketFor(r, UsesV4(info)).multicastIf == Some(info.iface)
    // and on that TTL once the TTL was accepted too
    ensures IsMulticastTarget(info) && !f.ifRejected && !f.ttlRejected && 0 <= info.ttl <= 255 ==>
      SocketFor(r, UsesV4(info)).multicastTtl == info.ttl
    // a delivered send appends one datagram carrying the payload, and nothing else is sent
    ensures Delivered(info, f) ==>
      var before := SocketFor(st, UsesV4(info)).sent;
      var after := SocketFor(r, UsesV4(info)).sent;
      |after| == |before| + 1 && after[..|before|] == before && Carries(after[|before|], info, payload)
    ensures !Delivered(info, f) ==> r.v4.sent == st.v4.sent && r.v6.sent == st.v6.sent
  {
    if !IsResolved(info) then st
    else if UsesV4(info) then st.(v4 := SendOn(st.v4, payload, info, f))
    else st.(v6 := SendOn(st.v6, payload, info, f))
  }

  // ---------------------------------------------------------------------------
  // The forwarding loop

  /** The state after sending `payload` to each of `targets` in order. */
  function AfterForward(st: RelayState, payload: seq<byte>, targets: seq<AddressInfo>, faults: seq<SendFaults>): (r: RelayState)
    requires |faults| == |targets|
    // each log grows by one datagram per delivered target of its family
    ensures |r.v4.sent| == |st.v4.sent| + |DeliveredTargets(targets, faults, true)|
    ensures |r.v6.sent| == |st.v6.sent| + |DeliveredTargets(targets, faults, false)|
    decreases |targets|
  {
    if targets == [] then st
    else
      var n := |targets| - 1;
      AfterSend(AfterForward(st, payload, targets[..n], faults[..n]), payload, targets[n], faults[n])
  }

  /** The targets, in list order, that a channel of the given family delivers to. */
  function DeliveredTargets(targets: seq<AddressInfo>, faults: seq<SendFaults>, v4: bool): seq<AddressInfo>
    requires |faults| == |targets|
    decreases |targets|
  {
    if targets == [] then []
    else
      var n := |targets| - 1;
      DeliveredTargets(targets[..n], faults[..n], v4)
        + (if Delivered(targets[n], faults[n]) && UsesV4(targets[n]) == v4 then [targets[n]] else [])
  }

  /** The targets, in list order, that belong to the channel of the given family. */
  function FamilyTargets(targets: seq<AddressInfo>, v4: bool): seq<AddressInfo>
    decreases |targets|
  {
    if targets == [] then []
    else
      var n := |targets| - 1;
      FamilyTargets(targets[..n], v4) + (if UsesV4(targets[n]) == v4 then [targets[n]] else [])
  }

  ghost predicate LogCarries(log: seq<Datagram>, infos: seq<AddressInfo>, payload: seq<byte>) {
    |log| == |infos| && forall k :: 0 <= k < |log| ==> Carries(log[k], infos[k], payload)
  }

  /** Forwarding only appends to a channel's log, and what it appends is one datagram per
      delivered target of that channel's family, in list order, each carrying the same
      payload and, for a multicast target, that target's interface and TTL. */
  lemma {:induction false} ForwardSendsInOrder(st: RelayState, payload: seq<byte>, targets: seq<AddressInfo>,
                                               faults: seq<SendFaults>, v4: bool)
    requires |faults| == |targets|
    ensures var before := SocketFor(st, v4).sent;
            var after := SocketFor(AfterForward(st, payload, targets, faults), v4).sent;
            && |before| <= |after|
            && after[..|before|] == before
            && LogCarries(after[|before|..], DeliveredTargets(targets, faults, v4), payload)
    decreases |targets|
  {
    if targets != [] {
      var n := |targets| - 1;
      ForwardSendsInOrder(st, payload, targets[..n], faults[..n], v4);
      var mid := AfterForward(st, payload, targets[..n], faults[..n]);
      var fin := AfterSend(mid, payload, targets[n], faults[n]);
      var before := SocketFor(st, v4).sent;
      var midLog := SocketFor(mid, v4).sent;
      var finLog := SocketFor(fin, v4).sent;
      var done := DeliveredTargets(targets[..n], faults[..n], v4);
      if Delivered(targets[n], faults[n]) && UsesV4(targets[n]) == v4 {
        assert finLog == midLog + [finLog[|midLog|]];
        assert finLog[|before|..] == midLog[|before|..] + [finLog[|midLog|]];
        assert DeliveredTargets(targets, faults, v4) == done + [targets[n]];
      } else {
        assert finLog == midLog;
        assert DeliveredTargets(targets, faults, v4) == done;
      }
    }
  }

  /** When no send fails, every target is delivered to exactly once: each channel delivers to
      all the targets of its family, and the two families together are the whole list. */
  lemma {:induction false} ForwardCoversEveryTarget(targets: seq<AddressInfo>, faults: seq<SendFaults>)
    requires |faults| == |targets|
    requires forall i :: 0 <= i < |targets| ==> Delivered(targets[i], faults[i])
    ensures DeliveredTargets(targets, faults, true) == FamilyTargets(targets, true)
    ensures DeliveredTargets(targets, faults, false) == FamilyTargets(targets, false)
    ensures |FamilyTargets(targets, true)| + |FamilyTargets(targets, false)| == |targets|
    decreases |targets|
  {
    if targets != [] {
      var n := |targets| - 1;
      assert forall i :: 0 <= i < n ==> targets[..n][i] == targets[i] && faults[..n][i] == faults[i];
      ForwardCoversEveryTarget(targets[..n], faults[..n]);
    }
  }

  /** Delivery splits along any cut of the target list. */
  lemma {:induction false} DeliveredTargetsAppend(a: seq<AddressInfo>, fa: seq<SendFaults>,
                                                  b: seq<AddressInfo>, fb: seq<SendFaults>, v4: bool)
    requires |fa| == |a| && |fb| == |b|
    ensures DeliveredTargets(a + b, fa + fb, v4) == DeliveredTargets(a, fa, v4) + DeliveredTargets(b, fb, v4)
    decreases |b|
  {
    if b == [] {
      assert a + b == a && fa + fb == fa;
    } else {
      var n := |b| - 1;
      assert (a + b)[..|a| + n] == a + b[..n];
      assert (fa + fb)[..|a| + n] == fa + fb[..n];
      DeliveredTargetsAppend(a, fa, b[..n], fb[..n], v4);
    }
  }

  /** A failure at one target is isolated: whatever happens at target `j`, the targets before
      and after it are delivered to exactly as they would be without it. */
  lemma FailureIsIsolated(targets: seq<AddressInfo>, faults: seq<SendFaults>, j: int, g: SendFaults, v4: bool)
    requires |faults| == |targets| && 0 <= j < |targets|
    ensures DeliveredTargets(targets, faults[j := g], v4)
         == DeliveredTargets(targets[..j], faults[..j], v4)
          + (if Delivered(targets[j], g) && UsesV4(targets[j]) == v4 then [targets[j]] else [])
          + DeliveredTargets(targets[j + 1..], faults[j + 1..], v4)
  {
    var f := faults[j := g];
    assert targets == targets[..j] + [targets[j]] + targets[j + 1..];
    assert f == faults[..j] + [g] + faults[j + 1..];
    DeliveredTargetsAppend(targets[..j] + [targets[j]], faults[..j] + [g], targets[j + 1..], faults[j + 1..], v4);
    DeliveredTargetsAppend(targets[..j], faults[..j], [targets[j]], [g], v4);
    assert DeliveredTargets([targets[j]], [g], v4)
        == (if Delivered(targets[j], g) && UsesV4(targets[j]) == v4 then [targets[j]] else []);
  }

  // ---------------------------------------------------------------------------
  // The relay object

  class SearchRequestRelay {
    const udpSearch4: DatagramChannel
    const udpSearch6: DatagramChannel
    /** The broadcast targets, fixed at construction. */
    const broadcast: seq<AddressInfo>
    const forwardBuffer: ByteBuffer
    const encode: SearchEncoder

    ghost predicate Valid()
      reads this, forwardBuffer
    {
      && udpSearch4 != udpSearch6
      && udpSearch4.family == INET && udpSearch6.family == INET6
      && forwardBuffer.Valid()
    }

    function State(): RelayState
      reads this, udpSearch4, udpSearch6
    {
      RelayState(udpSearch4.State(), udpSearch6.State())
    }

    /** Opens the IPv4 channel with broadcast enabled and the IPv6 channel, and keeps the
        broadcast targets and a buffer of `maxUdpPacket` bytes. */
    constructor (broadcastAddresses: seq<AddressInfo>, maxUdpPacket: nat, encoder: SearchEncoder)
      ensures Valid() && fresh(udpSearch4) && fresh(udpSearch6) && fresh(forwardBuffer) && fresh(forwardBuffer.data)
      ensures broadcast == broadcastAddresses && encode == encoder && forwardBuffer.data.Length == maxUdpPacket
      ensures udpSearch4.broadcastEnabled && !udpSearch6.broadcastEnabled
      ensures State() == RelayState(SocketState(None, 1, []), SocketState(None, 1, []))
    {
      var s4 := new DatagramChannel.Open(INET);
      s4.SetBroadcast(true);
      var s6 := new DatagramChannel.Open(INET6);
      udpSearch4, udpSearch6 := s4, s6;
      broadcast := broadcastAddresses;
      forwardBuffer := new ByteBuffer.Allocate(maxUdpPacket);
      encode := encoder;
    }

    /** `send(buffer, info)`: IPv4 addresses go out on the IPv4 channel and every other
        address on the IPv6 channel; for a multicast address the interface and TTL are set
        on that channel first. `ok` is false when one of these calls threw. */
    method Send(buffer: ByteBuffer, info: AddressInfo, faults: SendFaults) returns (ok: bool)
      requires Valid() && buffer.Valid()
      modifies udpSearch4, udpSearch6, buffer
      ensures Valid() && buffer.Valid() && buffer.limit == old(buffer.limit)
      ensures ok == Delivered(info, faults)
      ensures State() == AfterSend(old(State()), old(buffer.Remaining()), info, faults)
      ensures udpSearch4.broadcastEnabled == old(udpSearch4.broadcastEnabled)
      ensures udpSearch6.broadcastEnabled == old(udpSearch6.broadcastEnabled)
    {
      if !info.address.host.Address? {
        return false;
      }
      var ip := info.address.host.ip;
      var socket := if ip.Inet4? then udpSearch4 else udpSearch6;
      if IsMulticastAddress(ip) {
        ok := socket.SetMulticastIf(info.iface, faults.ifRejected);
        if !ok {
          return;
        }
        ok := socket.SetMulticastTtl(info.ttl, faults.ttlRejected);
        if !ok {
          return;
        }
      }
      ok := socket.Send(buffer, info.address, faults.sendRejected);
    }

    /** `forward(seq, cid, name, addr, reply_sender)`: for each broadcast target in turn,
        clear the buffer, encode the search for the one channel (cid, name) with `addr` as
        the response address, flip, and send; a failed send is logged and the loop goes on.
        The encoding is outside the exception handler, so a frame too large for the buffer
        ends `forward` with the exception at the first target (`completed` is false).
        `reply_sender` is never used. */
    method Forward(seqNr: Int32, cid: Int32, name: string, addr: InetSocketAddress,
                   replySender: ReplySender, faults: seq<SendFaults>) returns (completed: bool)
      requires Valid() && |faults| == |broadcast|
      modifies forwardBuffer, forwardBuffer.data, udpSearch4, udpSearch6
      ensures Valid()
      ensures var frame := encode(false, seqNr, [Channel(cid, name)], addr);
        && completed == (broadcast == [] || |frame| <= forwardBuffer.data.Length)
        && State() == if completed then AfterForward(old(State()), frame, broadcast, faults) else old(State())
      ensures udpSearch4.broadcastEnabled == old(udpSearch4.broadcastEnabled)
      ensures udpSearch6.broadcastEnabled == old(udpSearch6.broadcastEnabled)
      ensures unchanged(replySender)
    {
      var channel := Channel(cid, name);
      ghost var frame := encode(false, seqNr, [channel], addr);
      ghost var start := State();
      var i := 0;
      while i < |broadcast|
        invariant 0 <= i <= |broadcast|
        invariant Valid()
        invariant i > 0 ==> |frame| <= forwardBuffer.data.Length
        invariant State() == AfterForward(start, frame, broadcast[..i], faults[..i])
        invariant udpSearch4.broadcastEnabled == old(udpSearch4.broadcastEnabled)
        invariant udpSearch6.broadcastEnabled == old(udpSearch6.broadcastEnabled)
      {
        forwardBuffer.Clear();
        var fits := forwardBuffer.Put(encode(false, seqNr, [channel], addr));
        if !fits {
          assert broadcast[..i] == [];
          return false;
        }
        forwardBuffer.Flip();
        assert forwardBuffer.Remaining() == frame;
        var delivered := Send(forwardBuffer, broadcast[i], faults[i]);
        assert broadcast[..i + 1][..i] == broadcast[..i] && faults[..i + 1][..i] == faults[..i];
        i := i + 1;
      }
      assert broadcast[..i] == broadcast && faults[..i] == faults;
      return true;
    }
  }
}
