/** The ChannelFinder name server (`CFNameserver`): for each PV search it asks the
    ChannelFinder directory for the channel of that name and, when the channel carries both an
    `iocIP` and a `pvaPort` property, answers the client with that address itself.
    A search for the name "QUIT" releases the latch the main thread waits on. */
module Nameserver {
  import opened Wrappers
  import opened Net
  import opened Text

  // ---------------------------------------------------------------------------
  // The directory query

  /** The two injected settings `cf.url` and `cf.resources`. */
  datatype DirectoryConfig = DirectoryConfig(cfURL: string, cfResource: string)

  /** The defaults of both settings. */
  const DefaultConfig := DirectoryConfig("http://localhost:8080", "/ChannelFinder/resources/channels/")

  /** The URI of the directory request for `pvName`: the name is appended to the two settings
      as it is, neither escaped nor filtered. */
  function QueryUri(config: DirectoryConfig, pvName: string): (r: string)
    ensures |r| == |config.cfURL| + |config.cfResource| + |pvName|
    ensures r[..|config.cfURL|] == config.cfURL
    ensures r[|config.cfURL|..|config.cfURL| + |config.cfResource|] == config.cfResource
    ensures r[|config.cfURL| + |config.cfResource|..] == pvName
  {
    config.cfURL + config.cfResource + pvName
  }

  /** Under the same settings, different names are looked up under different URIs. */
  lemma QueryUriIsInjective(config: DirectoryConfig, pvName: string, other: string)
    ensures QueryUri(config, pvName) == QueryUri(config, other) ==> pvName == other
  {
  }

  /** With the default settings the request goes to the local ChannelFinder service's
      channel resource, with the name appended. */
  lemma DefaultQueryUri(pvName: string)
    ensures QueryUri(DefaultConfig, pvName) == "http://localhost:8080" + "/ChannelFinder/resources/channels/" + pvName
  {
  }

  /** One property of a ChannelFinder channel. */
  datatype Property = Property(name: string, value: string)

  /** Why the directory request produced no channel. Each makes `block` throw, or return
      null so that reading the properties throws. */
  datatype FetchError =
    | TimedOut            // no answer within the timeout
    | EmptyBody           // `block` returned null
    | ErrorStatus(code: int)
    | ConnectionFailed

  /** The directory's answer to a request: the channel's properties, in order, or a failure. */
  datatype Response = Channel(properties: seq<Property>) | Failed(cause: FetchError)

  /** What the directory answers, by request URI, at the moment of the lookup. */
  type Directory = string -> Response

  /** The exceptions `getAddressforPV` lets escape. */
  datatype LookupError =
    | DirectoryUnavailable(cause: FetchError)
    | NumberFormat(text: string)      // `Integer.parseInt` rejected the port text
    | PortOutOfRange(port: int)       // `InetSocketAddress` rejected the port

  // ---------------------------------------------------------------------------
  // Property extraction

  const IocIpPropName := "iocIP"
  const PvaPortPropName := "pvaPort"

  predicate HasProperty(props: seq<Property>, key: string) {
    exists i :: 0 <= i < |props| && EqualsIgnoreCase(props[i].name, key)
  }

  /** `i` is the position of the first property whose name equals `key` ignoring case. */
  ghost predicate IsFirstMatch(props: seq<Property>, key: string, i: int) {
    && 0 <= i < |props|
    && EqualsIgnoreCase(props[i].name, key)
    && forall j :: 0 <= j < i ==> !EqualsIgnoreCase(props[j].name, key)
  }

  /** `props.stream().filter(name equalsIgnoreCase key).findFirst()`, as a position. */
  function FirstMatch(props: seq<Property>, key: string): (r: Option<nat>)
    ensures r.Some? ==> IsFirstMatch(props, key, r.value)
    ensures r.None? ==> forall i :: 0 <= i < |props| ==> !EqualsIgnoreCase(props[i].name, key)
    decreases |props|
  {
    if props == [] then None
    else if EqualsIgnoreCase(props[0].name, key) then Some(0)
    else match FirstMatch(props[1..], key)
      case None => None
      case Some(k) => Some(k + 1)
  }

  /** Properties after the first match do not change which property matches first. */
  lemma {:induction false} FirstMatchIgnoresLaterProperties(props: seq<Property>, more: seq<Property>, key: string)
    requires HasProperty(props, key)
    ensures FirstMatch(props + more, key) == FirstMatch(props, key)
    decreases |props|
  {
    if !EqualsIgnoreCase(props[0].name, key) {
      assert (props + more)[1..] == props[1..] + more;
      var i :| 0 <= i < |props| && EqualsIgnoreCase(props[i].name, key);
      assert i > 0 && props[1..][i - 1] == props[i];
      FirstMatchIgnoresLaterProperties(props[1..], more, key);
    }
  }

  /** The address the two override properties give, or the exception building it raises:
      `new InetSocketAddress(iocIP, Integer.parseInt(pvaPort))` with the host name left as it is. */
  function AddressOf(iocIP: string, pvaPort: string): (r: Result<InetSocketAddress, LookupError>)
    ensures r.Ok? <==> ParseInt(pvaPort).Some? && 0 <= ParseInt(pvaPort).value <= 0xFFFF
    ensures r.Ok? ==> r.value.host == HostName(iocIP) && Some(r.value.port) == ParseInt(pvaPort)
    ensures r.Err? && ParseInt(pvaPort).None? ==> r.error == NumberFormat(pvaPort)
    ensures r.Err? && ParseInt(pvaPort).Some? ==> r.error == PortOutOfRange(ParseInt(pvaPort).value)
  {
    match ParseInt(pvaPort)
    case None => Err(NumberFormat(pvaPort))
    case Some(p) => if 0 <= p <= 0xFFFF then Ok(InetSocketAddress(HostName(iocIP), p)) else Err(PortOutOfRange(p))
  }

  /** The part of `getAddressforPV` after the channel has arrived: the first `iocIP` and the
      first `pvaPort` property (names compared ignoring case) give the address; without
      either of them there is none. */
  function ResolveChannel(props: seq<Property>): (r: Result<Option<InetSocketAddress>, LookupError>)
    ensures r == Ok(None) <==> !HasProperty(props, IocIpPropName) || !HasProperty(props, PvaPortPropName)
    ensures r.Err? ==> r.error.NumberFormat? || r.error.PortOutOfRange?
  {
    match (FirstMatch(props, IocIpPropName), FirstMatch(props, PvaPortPropName))
    case (Some(i), Some(j)) =>
      (match AddressOf(props[i].value, props[j].value)
       case Ok(a) => Ok(Some(a))
       case Err(e) => Err(e))
    case _ => Ok(None)
  }

  /** With both properties present the outcome is decided by the values of their first
      occurrences alone: the host is the `iocIP` value, the port the parsed `pvaPort` value,
      and a port that does not parse, or is no port, is an exception. */
  lemma ResolveChannelUsesFirstMatches(props: seq<Property>, i: int, j: int)
    requires IsFirstMatch(props, IocIpPropName, i) && IsFirstMatch(props, PvaPortPropName, j)
    ensures ParseInt(props[j].value).None? ==> ResolveChannel(props) == Err(NumberFormat(props[j].value))
    ensures ParseInt(props[j].value).Some? && 0 <= ParseInt(props[j].value).value <= 0xFFFF ==>
      ResolveChannel(props) == Ok(Some(InetSocketAddress(HostName(props[i].value), ParseInt(props[j].value).value)))
    ensures ParseInt(props[j].value).Some? && !(0 <= ParseInt(props[j].value).value <= 0xFFFF) ==>
      ResolveChannel(props) == Err(PortOutOfRange(ParseInt(props[j].value).value))
  {
  }

  /** Duplicates of the two properties after their first occurrences are ignored. */
  lemma ResolveChannelIgnoresLaterProperties(props: seq<Property>, more: seq<Property>)
    requires HasProperty(props, IocIpPropName) && HasProperty(props, PvaPortPropName)
    ensures ResolveChannel(props + more) == ResolveChannel(props)
  {
    FirstMatchIgnoresLaterProperties(props, more, IocIpPropName);
    FirstMatchIgnoresLaterProperties(props, more, PvaPortPropName);
    var i := FirstMatch(props, IocIpPropName).value;
    var j := FirstMatch(props, PvaPortPropName).value;
    assert (props + more)[i] == props[i] && (props + more)[j] == props[j];
  }

  /** `getAddressforPV(pvName)`: query the directory under `QueryUri` and resolve the channel
      it returns. A failed request is an exception, not an empty result. */
  function GetAddressForPV(config: DirectoryConfig, directory: Directory, pvName: string): (r: Result<Option<InetSocketAddress>, LookupError>)
    ensures r.Err? && r.error.DirectoryUnavailable? <==> directory(QueryUri(config, pvName)).Failed?
    ensures directory(QueryUri(config, pvName)).Failed? ==> r == Err(DirectoryUnavailable(directory(QueryUri(config, pvName)).cause))
    ensures directory(QueryUri(config, pvName)).Channel? ==> r == ResolveChannel(directory(QueryUri(config, pvName)).properties)
    ensures r.Ok? && r.value.Some? ==>
      && directory(QueryUri(config, pvName)).Channel?
      && HasProperty(directory(QueryUri(config, pvName)).properties, IocIpPropName)
      && HasProperty(directory(QueryUri(config, pvName)).properties, PvaPortPropName)
  {
    match directory(QueryUri(config, pvName))
    case Failed(cause) => Err(DirectoryUnavailable(cause))
    case Channel(props) => ResolveChannel(props)
  }

  lemma ParsePortExamples()
    ensures ParseInt("5075") == Some(5075)
    ensures ParseInt("70000") == Some(70000)
    ensures ParseInt("50x") == None
  {
    assert "5075"[..3] == "507" && "507"[..2] == "50" && "50"[..1] == "5" && "5"[..0] == [];
    assert DigitsValue("5") == 5;
    assert DigitsValue("50") == 50;
    assert DigitsValue("507") == 507;
    assert DigitsValue("5075") == 5075;
    assert "70000"[..4] == "7000" && "7000"[..3] == "700" && "700"[..2] == "70" && "70"[..1] == "7" && "7"[..0] == [];
    assert DigitsValue("7") == 7;
    assert DigitsValue("70") == 70;
    assert DigitsValue("700") == 700;
    assert DigitsValue("7000") == 7000;
    assert DigitsValue("70000") == 70000;
    assert !IsDigit("50x"[2]);
  }

  /** A channel with `iocIP` 10.0.0.5 and `pvaPort` 5075 resolves to 10.0.0.5:5075. */
  lemma ResolveChannelExample()
    ensures ResolveChannel([Property("iocIP", "10.0.0.5"), Property("pvaPort", "5075")])
         == Ok(Some(InetSocketAddress(HostName("10.0.0.5"), 5075)))
  {
    ParsePortExamples();
    var props := [Property("iocIP", "10.0.0.5"), Property("pvaPort", "5075")];
    assert EqualsIgnoreCase(props[0].name, IocIpPropName);
    assert !EqualsIgnoreCase(props[0].name, PvaPortPropName);
    assert EqualsIgnoreCase(props[1].name, PvaPortPropName);
    ResolveChannelUsesFirstMatches(props, 0, 1);
  }

  /** Names match in any case, and a later duplicate changes nothing. */
  lemma ResolveChannelMixedCaseExample()
    ensures ResolveChannel([Property("IOCIP", "10.0.0.5"), Property("PvaPort", "5075"), Property("pvaport", "1")])
         == Ok(Some(InetSocketAddress(HostName("10.0.0.5"), 5075)))
  {
    ParsePortExamples();
    var props := [Property("IOCIP", "10.0.0.5"), Property("PvaPort", "5075"), Property("pvaport", "1")];
    assert EqualsIgnoreCase(props[0].name, IocIpPropName);
    assert !EqualsIgnoreCase(props[0].name, PvaPortPropName);
    assert EqualsIgnoreCase(props[1].name, PvaPortPropName);
    ResolveChannelUsesFirstMatches(props, 0, 1);
  }

  /** A port outside 0..65535 and a port that is no number are exceptions; so is a port
      beyond 32 bits, which `parseInt` already rejects. */
  lemma ResolveChannelBadPortExamples()
    ensures ResolveChannel([Property("iocIP", "10.0.0.5"), Property("pvaPort", "70000")]) == Err(PortOutOfRange(70000))
    ensures ResolveChannel([Property("iocIP", "10.0.0.5"), Property("pvaPort", "50x")]) == Err(NumberFormat("50x"))
    ensures ResolveChannel([Property("iocIP", "10.0.0.5"), Property("pvaPort", "2147483648")]) == Err(NumberFormat("2147483648"))
  {
    ParsePortExamples();
    ParseIntRangeExamples();
    var props := [Property("iocIP", "10.0.0.5"), Property("pvaPort", "70000")];
    assert EqualsIgnoreCase(props[0].name, IocIpPropName);
    assert !EqualsIgnoreCase(props[0].name, PvaPortPropName);
    assert EqualsIgnoreCase(props[1].name, PvaPortPropName);
    ResolveChannelUsesFirstMatches(props, 0, 1);
    var bad := [Property("iocIP", "10.0.0.5"), Property("pvaPort", "50x")];
    assert EqualsIgnoreCase(bad[0].name, IocIpPropName);
    assert !EqualsIgnoreCase(bad[0].name, PvaPortPropName);
    assert EqualsIgnoreCase(bad[1].name, PvaPortPropName);
    ResolveChannelUsesFirstMatches(bad, 0, 1);
    var wide := [Property("iocIP", "10.0.0.5"), Property("pvaPort", "2147483648")];
    assert EqualsIgnoreCase(wide[0].name, IocIpPropName);
    assert !EqualsIgnoreCase(wide[0].name, PvaPortPropName);
    assert EqualsIgnoreCase(wide[1].name, PvaPortPropName);
    ResolveChannelUsesFirstMatches(wide, 0, 1);
  }

  // ---------------------------------------------------------------------------
  // The search handler

  const QuitName := "QUIT"

  /** `java.util.concurrent.CountDownLatch`: a count that `countDown` lowers to zero and no further. */
  class CountDownLatch {
    var count: nat

    constructor (count: nat)
      ensures this.count == count
    {
      this.count := count;
    }

    method CountDown()
      modifies this
      ensures count == if old(count) == 0 then 0 else old(count) - 1
    {
      if count > 0 {
        count := count - 1;
      }
    }
  }

  /** The latch count after one search for `name`. */
  function LatchStep(count: nat, name: string): (r: nat)
    ensures r <= count && count - r <= 1
    ensures r < count <==> name == QuitName && count > 0
  {
    if name == QuitName && count > 0 then count - 1 else count
  }

  /** The latch count after searches for `names`, in order. */
  function LatchAfter(count: nat, names: seq<string>): nat
    decreases |names|
  {
    if names == [] then count else LatchAfter(LatchStep(count, names[0]), names[1..])
  }

  /** Each "QUIT" search lowers the count by one until it reaches zero, never below; any
      other name leaves it alone. */
  lemma {:induction false} LatchAfterCountsQuits(count: nat, names: seq<string>)
    ensures LatchAfter(count, names) == if count >= multiset(names)[QuitName] then count - multiset(names)[QuitName] else 0
    decreases |names|
  {
    if names != [] {
      assert names == [names[0]] + names[1..];
      assert multiset(names) == multiset{names[0]} + multiset(names[1..]);
      LatchAfterCountsQuits(LatchStep(count, names[0]), names[1..]);
    }
  }

  /** The count-1 latch of the name server is released by the first "QUIT" and stays released. */
  lemma QuitReleasesOnce(names: seq<string>)
    ensures LatchAfter(1, names) == if QuitName in names then 0 else 1
  {
    LatchAfterCountsQuits(1, names);
    assert QuitName in names <==> QuitName in multiset(names);
  }

  /** The name server's state: its directory settings and the latch `run` waits on. */
  class NameServer {
    const config: DirectoryConfig
    const done: CountDownLatch

    /** The part of `run` that creates the count-1 latch the handler releases. */
    constructor (config: DirectoryConfig)
      ensures this.config == config && fresh(done) && done.count == 1
    {
      this.config := config;
      done := new CountDownLatch(1);
    }

    /** The `search_handler` lambda. It counts the latch down for "QUIT" before the lookup,
        so even when the lookup then throws; it answers the client once with a resolved
        address; and whenever it returns it returns true, so the PVA server's own search
        handling never runs. `Err` is an exception thrown by the lookup. The sequence number,
        channel id and client address are only logged. */
    method SearchHandler(seqNr: Int32, cid: Int32, name: string, addr: InetSocketAddress,
                         replySender: ReplySender, directory: Directory)
      returns (r: Result<bool, LookupError>)
      modifies done, replySender
      ensures done.count == LatchStep(old(done.count), name)
      ensures var lookup := GetAddressForPV(config, directory, name);
        && (r.Ok? <==> lookup.Ok?)
        && (r.Ok? ==> r.value == true)
        && (r.Err? ==> r.error == lookup.error)
        && replySender.accepted == old(replySender.accepted) + (if lookup.Ok? && lookup.value.Some? then [lookup.value.value] else [])
    {
      if name == QuitName {
        done.CountDown();
      }
      var serverAddr := GetAddressForPV(config, directory, name);
      if serverAddr.Err? {
        return Err(serverAddr.error);
      }
      if serverAddr.value.Some? {
        replySender.Accept(serverAddr.value.value);
      }
      return Ok(true);
    }
  }
}
