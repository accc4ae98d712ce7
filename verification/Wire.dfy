/** The flow record on the bus: conversion, the field stream, and tolerance of
    records written by older agents. */
module Wire {
  import opened Connections

  const MAX_CHAIN := 16

  /** Printing and parsing of addresses, which are not modelled further. */
  datatype AddressCodec = AddressCodec(print_: Address -> string, parse: string -> Address) {
    ghost predicate Inverse() { forall a :: parse(print_(a)) == a }
  }

  datatype ConnectionDto = ConnectionDto(
    proto: uint8,
    localFamily: uint8, localAddress: string, localPort: uint16,
    remoteFamily: uint8, remoteAddress: string, remotePort: uint16,
    rxBytes: nat, txBytes: nat, rxPackets: nat, txPackets: nat,
    iface: string,
    direction: uint8,
    ifIndex: uint32, tcpState: uint8,
    pid: uint32, uid: uint32, comm: string,
    containerRuntime: string, containerId: string, containerName: string,
    containerChain: seq<ContainerInfo>,
    reason: uint8)

  const EMPTY_DTO := ConnectionDto(0, 0, "", 0, 0, "", 0, 0, 0, 0, 0, "", 0, 0, 0, 0, 0, "", "", "", "", [], 0)

  // ---- codes ----------------------------------------------------------------------------

  /** IANA protocol numbers. */
  function ToIanaProto(p: L4Proto): uint8 {
    match p case Tcp => 6 case Udp => 17 case Icmp => 1 case IcmpV6 => 58 case UnknownProto => 0
  }

  function FromIanaProto(n: uint8): L4Proto {
    if n == 6 then Tcp else if n == 17 then Udp else if n == 1 then Icmp else if n == 58 then IcmpV6 else UnknownProto
  }

  function DirectionCode(d: Direction): uint8 {
    match d case UnknownDirection => 0 case Outbound => 1 case Inbound => 2
  }

  function DirectionOf(n: uint8): Direction {
    if n == 1 then Outbound else if n == 2 then Inbound else UnknownDirection
  }

  const TCP_STATES := [NoState, SynSent, SynRecv, Established, FinWait, CloseWait, LastAck, TimeWait, Close, SynSent2]

  function TcpStateCode(s: TcpState): uint8 {
    match s
    case NoState => 0 case SynSent => 1 case SynRecv => 2 case Established => 3 case FinWait => 4
    case CloseWait => 5 case LastAck => 6 case TimeWait => 7 case Close => 8 case SynSent2 => 9
  }

  function TcpStateOf(n: uint8): TcpState {
    if n < 10 then TCP_STATES[n] else NoState
  }

  function ReasonCode(r: AttributionReason): uint8 {
    match r case Resolved => 0 case NoLocalSocket => 1 case Orphaned => 2 case Forwarded => 3
  }

  function ReasonOf(n: uint8): AttributionReason {
    if n == 0 then Resolved else if n == 2 then Orphaned else if n == 3 then Forwarded else NoLocalSocket
  }

  function Clamped(chain: seq<ContainerInfo>): seq<ContainerInfo> {
    if |chain| > MAX_CHAIN then chain[..MAX_CHAIN] else chain
  }

  // ---- conversion ---------------------------------------------------------------------------

  function ToDto(x: AddressCodec, c: Connection): ConnectionDto {
    ConnectionDto(
      ToIanaProto(c.proto),
      if c.local.IsIPv6() then 6 else 4, x.print_(c.local.address), c.local.port,
      if c.remote.IsIPv6() then 6 else 4, x.print_(c.remote.address), c.remote.port,
      c.counters.rxBytes, c.counters.txBytes, c.counters.rxPackets, c.counters.txPackets,
      c.iface,
      DirectionCode(c.direction),
      c.ifIndex, TcpStateCode(c.tcpState),
      if c.process.pid > 0 then c.process.pid else 0, c.process.uid, c.process.comm,
      c.container.runtime, c.container.id, c.container.name,
      c.containerChain,
      ReasonCode(c.reason))
  }

  function FromDto(x: AddressCodec, d: ConnectionDto): Connection {
    Connection(
      Endpoint(x.parse(d.localAddress), d.localPort),
      Endpoint(x.parse(d.remoteAddress), d.remotePort),
      FromIanaProto(d.proto),
      Counters(d.rxBytes, d.txBytes, d.rxPackets, d.txPackets),
      d.iface, d.ifIndex,
      DirectionOf(d.direction), TcpStateOf(d.tcpState), ReasonOf(d.reason),
      ProcessInfo(if d.pid < 0x8000_0000 then d.pid else 0, d.comm, "", "", d.uid),
      ContainerInfo(d.containerRuntime, d.containerId, d.containerName),
      Clamped(d.containerChain))
  }

  /** What a flow keeps across the bus: everything but the on-demand process fields, an
      unattributed pid other than 0, and chain links beyond the clamp. */
  function AcrossTheBus(c: Connection): Connection {
    c.(process := ProcessInfo(if c.process.pid > 0 then c.process.pid else 0, c.process.comm, "", "", c.process.uid),
       containerChain := Clamped(c.containerChain))
  }

  /** What other readers of the bus rely on: the IANA protocol number and the address family
      of each end. */
  lemma RecordSays(x: AddressCodec, c: Connection)
    ensures var d := ToDto(x, c);
            && (d.proto == 6 <==> c.proto == Tcp) && (d.proto == 17 <==> c.proto == Udp)
            && (d.proto == 1 <==> c.proto == Icmp) && (d.proto == 58 <==> c.proto == IcmpV6)
            && (d.localFamily == 6 <==> c.local.address.IPv6?) && (d.localFamily == 4 <==> !c.local.address.IPv6?)
            && (d.remoteFamily == 6 <==> c.remote.address.IPv6?) && (d.remoteFamily == 4 <==> !c.remote.address.IPv6?)
  {
  }

  /** Codes a newer agent may send mean "unknown" here: no state, no direction, no socket. */
  lemma UnknownCodes(n: uint8)
    ensures n > 2 ==> DirectionOf(n) == UnknownDirection
    ensures n > 9 ==> TcpStateOf(n) == NoState
    ensures n > 3 ==> ReasonOf(n) == NoLocalSocket
    ensures n !in {1, 6, 17, 58} ==> FromIanaProto(n) == UnknownProto
  {
  }

  lemma RoundTrip(x: AddressCodec, c: Connection)
    requires x.Inverse()
    ensures FromDto(x, ToDto(x, c)) == AcrossTheBus(c)
    ensures FromDto(x, ToDto(x, c)) == c <==>
              c.process.pid >= 0 && c.process.cmdline == "" && c.process.exe == "" && |c.containerChain| <= 16
  {
    assert x.parse(x.print_(c.local.address)) == c.local.address;
    assert x.parse(x.print_(c.remote.address)) == c.remote.address;
    if |c.containerChain| > MAX_CHAIN {
      assert |Clamped(c.containerChain)| != |c.containerChain|;
    }
  }

  /** Re-sending a received record changes nothing more, whatever was received. */
  lemma ResendIsIdempotent(x: AddressCodec, d: ConnectionDto)
    requires x.Inverse()
    ensures var once := ToDto(x, FromDto(x, d)); ToDto(x, FromDto(x, once)) == once
  {
    RoundTrip(x, FromDto(x, d));
  }

  // ---- the field stream -------------------------------------------------------------------

  datatype Field =
    | U8(u8: uint8) | U16(u16: uint16) | U32(u32: uint32) | U64(u64: nat)
    | Str(str: string) | Chain(chain: seq<ContainerInfo>)

  const BASE_FIELDS := 13
  const ALL_FIELDS := 23

  /** The record's fields in wire order. */
  function FieldAt(c: ConnectionDto, i: nat): Field
    requires i < ALL_FIELDS
  {
    if i == 0 then U8(c.proto)
    else if i == 1 then U8(c.localFamily) else if i == 2 then Str(c.localAddress) else if i == 3 then U16(c.localPort)
    else if i == 4 then U8(c.remoteFamily)
    else if i == 5 then Str(c.remoteAddress) else if i == 6 then U16(c.remotePort)
    else if i == 7 then U64(c.rxBytes) else if i == 8 then U64(c.txBytes)
    else if i == 9 then U64(c.rxPackets) else if i == 10 then U64(c.txPackets)
    else if i == 11 then Str(c.iface) else if i == 12 then U8(c.direction)
    else if i == 13 then U32(c.ifIndex) else if i == 14 then U8(c.tcpState)
    else if i == 15 then U32(c.pid) else if i == 16 then U32(c.uid) else if i == 17 then Str(c.comm)
    else if i == 18 then Str(c.containerRuntime)
    else if i == 19 then Str(c.containerId) else if i == 20 then Str(c.containerName)
    else if i == 21 then Chain(c.containerChain)
    else U8(c.reason)
  }

  function Encoded(c: ConnectionDto): (r: seq<Field>)
    ensures |r| == ALL_FIELDS
  {
    seq(ALL_FIELDS, i requires 0 <= i < ALL_FIELDS => FieldAt(c, i))
  }

  /** The record an agent that knew only the first n fields would have meant. */
  function Known(c: ConnectionDto, n: nat): ConnectionDto {
    c.(ifIndex := if n > 13 then c.ifIndex else EMPTY_DTO.ifIndex,
       tcpState := if n > 14 then c.tcpState else EMPTY_DTO.tcpState,
       pid := if n > 15 then c.pid else EMPTY_DTO.pid,
       uid := if n > 16 then c.uid else EMPTY_DTO.uid,
       comm := if n > 17 then c.comm else EMPTY_DTO.comm,
       containerRuntime := if n > 18 then c.containerRuntime else EMPTY_DTO.containerRuntime,
       containerId := if n > 19 then c.containerId else EMPTY_DTO.containerId,
       containerName := if n > 20 then c.containerName else EMPTY_DTO.containerName,
       containerChain := Clamped(if n > 21 then c.containerChain else EMPTY_DTO.containerChain),
       reason := if n > 22 then c.reason else EMPTY_DTO.reason)
  }

  /** A structure being written or read field by field. */
  class Argument {
    var fields: seq<Field>
    var pos: nat

    constructor ()
      ensures fields == [] && pos == 0
    {
      fields, pos := [], 0;
    }

    method Put(f: Field)
      modifies `fields
      ensures fields == old(fields) + [f]
    {
      fields := fields + [f];
    }

    method Write(c: ConnectionDto)
      modifies `fields
      ensures fields == old(fields) + Encoded(c)
    {
      WriteBase(c);
      Put(U32(c.ifIndex));
      Put(U8(c.tcpState));
      Put(U32(c.pid));
      Put(U32(c.uid));
      Put(Str(c.comm));
      Put(Str(c.containerRuntime));
      Put(Str(c.containerId));
      Put(Str(c.containerName));
      Put(Chain(c.containerChain));
      Put(U8(c.reason));
    }

    method WriteBase(c: ConnectionDto)
      modifies `fields
      ensures fields == old(fields) + Encoded(c)[..BASE_FIELDS]
    {
      Put(U8(c.proto));
      Put(U8(c.localFamily));
      Put(Str(c.localAddress));
      Put(U16(c.localPort));
      Put(U8(c.remoteFamily));
      Put(Str(c.remoteAddress));
      Put(U16(c.remotePort));
      Put(U64(c.rxBytes));
      Put(U64(c.txBytes));
      Put(U64(c.rxPackets));
      Put(U64(c.txPackets));
      Put(Str(c.iface));
      Put(U8(c.direction));
    }

    method TakeU8() returns (v: uint8)
      requires pos < |fields| && fields[pos].U8?
      modifies `pos
      ensures pos == old(pos) + 1 && fields[old(pos)] == U8(v)
    {
      v := fields[pos].u8;
      pos := pos + 1;
    }

    method TakeU16() returns (v: uint16)
      requires pos < |fields| && fields[pos].U16?
      modifies `pos
      ensures pos == old(pos) + 1 && fields[old(pos)] == U16(v)
    {
      v := fields[pos].u16;
      pos := pos + 1;
    }

    method TakeU32() returns (v: uint32)
      requires pos < |fields| && fields[pos].U32?
      modifies `pos
      ensures pos == old(pos) + 1 && fields[old(pos)] == U32(v)
    {
      v := fields[pos].u32;
      pos := pos + 1;
    }

    method TakeU64() returns (v: nat)
      requires pos < |fields| && fields[pos].U64?
      modifies `pos
      ensures pos == old(pos) + 1 && fields[old(pos)] == U64(v)
    {
      v := fields[pos].u64;
      pos := pos + 1;
    }

    method TakeStr() returns (v: string)
      requires pos < |fields| && fields[pos].Str?
      modifies `pos
      ensures pos == old(pos) + 1 && fields[old(pos)] == Str(v)
    {
      v := fields[pos].str;
      pos := pos + 1;
    }

    method TakeChain() returns (v: seq<ContainerInfo>)
      requires pos < |fields| && fields[pos].Chain?
      modifies `pos
      ensures pos == old(pos) + 1 && fields[old(pos)] == Chain(v)
    {
      v := fields[pos].chain;
      pos := pos + 1;
    }

    /** Reading what an agent of any version wrote: every field it sent, the default for
        every field it did not know, and never past the end. */
    method Read(ghost sent: ConnectionDto, ghost n: nat) returns (d: ConnectionDto)
      requires pos == 0 && BASE_FIELDS <= n <= ALL_FIELDS && |fields| == n
      requires forall i :: 0 <= i < n ==> fields[i] == FieldAt(sent, i)
      modifies `pos
      ensures d == Known(sent, n) && pos == n
    {
      hide Known;
      var proto, localFamily, localAddress, localPort, remoteFamily, remoteAddress, remotePort := ReadEnds(sent, n);
      var rxBytes := TakeU64();
      var txBytes := TakeU64();
      var rxPackets := TakeU64();
      var txPackets := TakeU64();
      var iface := TakeStr();
      var direction := TakeU8();
      d := ConnectionDto(proto, localFamily, localAddress, localPort, remoteFamily, remoteAddress, remotePort,
                         rxBytes, txBytes, rxPackets, txPackets, iface, direction,
                         0, 0, 0, 0, "", "", "", "", [], 0);
      d := ReadLater(sent, n, d);
    }

    method ReadEnds(ghost sent: ConnectionDto, ghost n: nat)
      returns (proto: uint8, localFamily: uint8, localAddress: string, localPort: uint16,
               remoteFamily: uint8, remoteAddress: string, remotePort: uint16)
      requires pos == 0 && BASE_FIELDS <= n <= ALL_FIELDS && |fields| == n
      requires forall i :: 0 <= i < n ==> fields[i] == FieldAt(sent, i)
      modifies `pos
      ensures pos == 7
      ensures proto == sent.proto
      ensures localFamily == sent.localFamily && localAddress == sent.localAddress && localPort == sent.localPort
      ensures remoteFamily == sent.remoteFamily && remoteAddress == sent.remoteAddress && remotePort == sent.remotePort
    {
      proto := TakeU8();
      localFamily := TakeU8();
      localAddress := TakeStr();
      localPort := TakeU16();
      remoteFamily := TakeU8();
      remoteAddress := TakeStr();
      remotePort := TakeU16();
    }

    method ReadLater(ghost sent: ConnectionDto, ghost n: nat, base: ConnectionDto) returns (d: ConnectionDto)
      requires pos == BASE_FIELDS <= n <= ALL_FIELDS && |fields| == n
      requires forall i :: 0 <= i < n ==> fields[i] == FieldAt(sent, i)
      requires base == sent.(ifIndex := 0, tcpState := 0, pid := 0, uid := 0, comm := "", containerRuntime := "",
                             containerId := "", containerName := "", containerChain := [], reason := 0)
      modifies `pos
      ensures pos == n && d == Known(sent, n)
    {
      var ifIndex, tcpState, pid, uid, comm := ReadProcessPart(sent, n);
      var runtime, id, name, chain, reason := ReadContainerPart(sent, n);
      d := base.(ifIndex := ifIndex, tcpState := tcpState, pid := pid, uid := uid, comm := comm,
                 containerRuntime := runtime, containerId := id, containerName := name,
                 containerChain := chain, reason := reason);
    }

    method ReadProcessPart(ghost sent: ConnectionDto, ghost n: nat)
      returns (ifIndex: uint32, tcpState: uint8, pid: uint32, uid: uint32, comm: string)
      requires pos == BASE_FIELDS <= n <= ALL_FIELDS && |fields| == n
      requires forall i :: 0 <= i < n ==> fields[i] == FieldAt(sent, i)
      modifies `pos
      ensures pos == if n < 18 then n else 18
      ensures ifIndex == (if n > 13 then sent.ifIndex else 0) && tcpState == (if n > 14 then sent.tcpState else 0)
      ensures pid == (if n > 15 then sent.pid else 0) && uid == (if n > 16 then sent.uid else 0)
      ensures comm == if n > 17 then sent.comm else ""
    {
      ifIndex, tcpState, pid, uid, comm := 0, 0, 0, 0, "";
      if pos < |fields| { ifIndex := TakeU32(); }
      if pos < |fields| { tcpState := TakeU8(); }
      if pos < |fields| { pid := TakeU32(); }
      if pos < |fields| { uid := TakeU32(); }
      if pos < |fields| { comm := TakeStr(); }
    }

    method ReadContainerPart(ghost sent: ConnectionDto, ghost n: nat)
      returns (runtime: string, id: string, name: string, chain: seq<ContainerInfo>, reason: uint8)
      requires pos == (if n < 18 then n else 18) && BASE_FIELDS <= n <= ALL_FIELDS && |fields| == n
      requires forall i :: 0 <= i < n ==> fields[i] == FieldAt(sent, i)
      modifies `pos
      ensures pos == n
      ensures runtime == (if n > 18 then sent.containerRuntime else "")
      ensures id == (if n > 19 then sent.containerId else "") && name == (if n > 20 then sent.containerName else "")
      ensures chain == Clamped(if n > 21 then sent.containerChain else [])
      ensures reason == if n > 22 then sent.reason else 0
    {
      runtime, id, name, chain, reason := "", "", "", [], 0;
      if pos < |fields| { runtime := TakeStr(); }
      if pos < |fields| { id := TakeStr(); }
      if pos < |fields| { name := TakeStr(); }
      if pos < |fields| { chain := TakeChain(); }
      if pos < |fields| { reason := TakeU8(); }
      if |chain| > MAX_CHAIN { chain := chain[..MAX_CHAIN]; }
    }
  }

  /** From a writer that knows all fields to a reader, with only the first n on the wire. */
  method Ship(c: ConnectionDto, n: nat) returns (d: ConnectionDto)
    requires 13 <= n <= 23
    ensures d == Known(c, n)
  {
    var a := new Argument();
    a.Write(c);
    a.fields := a.fields[..n];
    d := a.Read(c, n);
  }

  /** A record read in full converts to the same flow as the one that was written. */
  lemma TransportKeepsFlow(x: AddressCodec, d: ConnectionDto)
    ensures FromDto(x, Known(d, ALL_FIELDS)) == FromDto(x, d)
  {
  }
}
