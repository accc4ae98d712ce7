/** Flow descriptors, their identities, and the host-relative heuristics. */
module Connections {

  datatype Option<+T> = None | Some(value: T)

  type uint8 = x: int | 0 <= x < 0x100
  type uint16 = x: int | 0 <= x < 0x1_0000
  type uint32 = x: int | 0 <= x < 0x1_0000_0000
  type int32 = x: int | -0x8000_0000 <= x < 0x8000_0000

  const TWO64 := 0x1_0000_0000_0000_0000

  function Max(a: int, b: int): int { if a < b then b else a }

  datatype L4Proto = UnknownProto | Tcp | Udp | Icmp | IcmpV6

  datatype Direction = UnknownDirection | Outbound | Inbound

  datatype TcpState =
    NoState | SynSent | SynRecv | Established | FinWait
  | CloseWait | LastAck | TimeWait | Close | SynSent2

  datatype AttributionReason = Resolved | NoLocalSocket | Orphaned | Forwarded

  datatype Address = NullAddress | IPv4(bits: nat) | IPv6(bits: nat, scope: string)

  datatype Endpoint = Endpoint(address: Address, port: uint16) {
    predicate IsIPv6() { address.IPv6? }
  }

  datatype ProcessInfo =
    ProcessInfo(pid: int32, comm: string, cmdline: string, exe: string, uid: uint32) {
    predicate IsValid() { pid > 0 }
  }

  const NO_PROCESS := ProcessInfo(0, "", "", "", 0)

  datatype ContainerInfo = ContainerInfo(runtime: string, id: string, name: string) {
    predicate IsValid() { runtime != "" && id != "" }
  }

  const NO_CONTAINER := ContainerInfo("", "", "")

  /** The identity the tables use across updates. It leaves the interface out. */
  datatype FlowId = FlowId(proto: L4Proto, direction: Direction, local: Endpoint, remote: Endpoint)

  /** The identity deferred refinements use. It includes the interface index. */
  datatype FlowKey =
    FlowKey(proto: L4Proto, local: Endpoint, remote: Endpoint, ifIndex: uint32, direction: Direction)

  /** Byte and packet counters; unbounded here, see each user for the width. */
  datatype Counters = Counters(rxBytes: nat, txBytes: nat, rxPackets: nat, txPackets: nat) {
    function Plus(that: Counters): Counters {
      Counters(rxBytes + that.rxBytes, txBytes + that.txBytes,
               rxPackets + that.rxPackets, txPackets + that.txPackets)
    }
  }

  const ZERO := Counters(0, 0, 0, 0)

  datatype Connection = Connection(
    local: Endpoint,
    remote: Endpoint,
    proto: L4Proto,
    counters: Counters,
    iface: string,
    ifIndex: uint32,
    direction: Direction,
    tcpState: TcpState,
    reason: AttributionReason,
    process: ProcessInfo,
    container: ContainerInfo,
    containerChain: seq<ContainerInfo>)
  {
    function Id(): FlowId { FlowId(proto, direction, local, remote) }

    function Key(): FlowKey { FlowKey(proto, local, remote, ifIndex, direction) }
  }

  predicate Fits64(c: Connection) {
    c.counters.rxBytes < TWO64 && c.counters.txBytes < TWO64
  }

  /** The bytes of a flow in both directions, never wrapping. */
  function TrueTotal(c: Connection): nat {
    c.counters.rxBytes + c.counters.txBytes
  }

  /** What counts as this host, refreshed by the caller. */
  datatype HostContext = HostContext(
    localAddrs: set<Address>,
    loopbackAddrs: set<Address>,
    ephemeralLow: uint16,
    ephemeralHigh: uint16)
  {
    predicate IsOurs(a: Address) { a in loopbackAddrs || a in localAddrs }

    predicate IsEphemeral(port: uint16) { ephemeralLow <= port <= ephemeralHigh }
  }

  function InferDirection(c: Connection, ctx: HostContext): Direction {
    if !c.proto.Tcp? && !c.proto.Udp? then UnknownDirection
    else
      var lEph, rEph := ctx.IsEphemeral(c.local.port), ctx.IsEphemeral(c.remote.port);
      var lLocal, rLocal := ctx.IsOurs(c.local.address), ctx.IsOurs(c.remote.address);
      if lEph && !rEph then Outbound
      else if rEph && !lEph then Inbound
      else if lLocal && !rLocal then Outbound
      else if rLocal && !lLocal then Inbound
      else UnknownDirection
  }

  predicate IsForwardedFlow(c: Connection, ctx: HostContext) {
    !ctx.IsOurs(c.local.address) && !ctx.IsOurs(c.remote.address)
  }

  function ReasonFor(c: Connection, ctx: HostContext): AttributionReason {
    if c.process.pid > 0 then Resolved
    else if IsForwardedFlow(c, ctx) then Forwarded
    else if c.proto.Tcp? && c.tcpState in {FinWait, CloseWait, LastAck, TimeWait, Close} then Orphaned
    else NoLocalSocket
  }

  // ---- what these mean -----------------------------------------------------------------------

  /** Two flows are one row when protocol, direction and both ends agree, and one request when
      the interface agrees too. */
  lemma IdentityExactly(a: Connection, b: Connection)
    ensures a.Id() == b.Id() <==>
      a.proto == b.proto && a.direction == b.direction && a.local == b.local && a.remote == b.remote
    ensures a.Key() == b.Key() <==> a.Id() == b.Id() && a.ifIndex == b.ifIndex
    ensures a.Id().local == a.local && a.Id().remote == a.remote && a.Id().direction == a.direction
  {
  }

  /** The flow as the other end sees it. */
  function Mirrored(c: Connection): Connection {
    c.(local := c.remote, remote := c.local)
  }

  /** Seen from the other end a flow has the other direction. */
  lemma DirectionIsMirrored(c: Connection, ctx: HostContext)
    ensures InferDirection(c, ctx) == Outbound <==> InferDirection(Mirrored(c), ctx) == Inbound
  {
  }

  /** A TCP or UDP flow is outbound when its local port is the only ephemeral one or, where the
      ports do not tell, when its local address is the only one of this host. */
  lemma OutboundExactly(c: Connection, ctx: HostContext)
    ensures InferDirection(c, ctx) == Outbound <==>
      && (c.proto == Tcp || c.proto == Udp)
      && var l := ctx.ephemeralLow <= c.local.port <= ctx.ephemeralHigh;
         var r := ctx.ephemeralLow <= c.remote.port <= ctx.ephemeralHigh;
         if l != r then l
         else c.local.address in ctx.localAddrs + ctx.loopbackAddrs
              && c.remote.address !in ctx.localAddrs + ctx.loopbackAddrs
  {
  }

  /** Why a flow has no process: it only passes through, its socket is closing, or none is
      found. */
  lemma ReasonExactly(c: Connection, ctx: HostContext)
    ensures ReasonFor(c, ctx) == Resolved <==> c.process.IsValid()
    ensures ReasonFor(c, ctx) == Forwarded <==>
      && !c.process.IsValid()
      && c.local.address !in ctx.localAddrs + ctx.loopbackAddrs
      && c.remote.address !in ctx.localAddrs + ctx.loopbackAddrs
    ensures ReasonFor(c, ctx) == Orphaned <==>
      && !c.process.IsValid() && c.proto == Tcp
      && c.tcpState !in {NoState, SynSent, SynRecv, Established, SynSent2}
      && (c.local.address in ctx.localAddrs + ctx.loopbackAddrs
          || c.remote.address in ctx.localAddrs + ctx.loopbackAddrs)
  {
    match c.tcpState {
      case NoState => case SynSent => case SynRecv => case Established => case FinWait =>
      case CloseWait => case LastAck => case TimeWait => case Close => case SynSent2 =>
    }
  }
}
