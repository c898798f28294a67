/**
 The OpenFlow connection: requests, barriers, multipart dumps and echo over one ordered stream in each direction.
 Replies are taken by type, not by transaction id.
 */
module VConn {
  import opened Common
  import opened Bytes

  datatype Kind =
    | Hello | Error | EchoRequest | EchoReply | PacketIn | FlowRemoved | PortStatus | FlowMod
    | MultipartRequest | MultipartReply | BarrierRequest | BarrierReply

  /** OpenFlow 1.0 to 1.5, in the order of their wire numbers. */
  type Version = v: nat | 1 <= v <= 6 witness 4
  const OF13: Version := 4

  datatype Msg = Msg(version: Version, kind: Kind, xid: u32, body: seq<byte>)

  /** The history of a connection as its owner sees it. */
  datatype Event = Sent(msg: Msg) | Received(msg: Msg)

  datatype Failure = Closed | OfError(body: seq<byte>) | InvalidMessage | BadReply

  /** The connection's state: the stream is what is still to arrive and what has passed. */
  datatype Link = Link(version: Version, nextXid: u32, incoming: seq<Msg>, trace: seq<Event>)

  type Parts<!Entry(!new)> = seq<byte> -> Option<(seq<Entry>, bool)>

  function WrappingInc(n: u32): u32 { (n + 1) % 0x1_0000_0000 }

  /** A connection before its handshake. */
  function Fresh(incoming: seq<Msg>): Link { Link(OF13, 1, incoming, []) }

  /** The next message of a connection. */
  function Next(l: Link, kind: Kind, body: seq<byte>): Msg { Msg(l.version, kind, l.nextXid, body) }

  function Send(l: Link, kind: Kind, body: seq<byte>): Link {
    l.(nextXid := WrappingInc(l.nextXid), trace := l.trace + [Sent(Next(l, kind, body))])
  }

  function Receive(l: Link): Link
    requires l.incoming != []
  {
    l.(incoming := l.incoming[1..], trace := l.trace + [Received(l.incoming[0])])
  }

  function EchoOf(version: Version, request: Msg): Msg { Msg(version, EchoReply, request.xid, request.body) }

  function Answer(l: Link, request: Msg): Link { l.(trace := l.trace + [Sent(EchoOf(l.version, request))]) }

  /** The waiting loop of `barrier` and `send_flow_sync`. */
  function AwaitBarrier(l: Link): (Link, Result<(), Failure>)
    decreases |l.incoming|
  {
    if l.incoming == [] then (l, Err(Closed))
    else
      var m, got := l.incoming[0], Receive(l);
      match m.kind
      case Error => (got, Err(OfError(m.body)))
      case BarrierReply => (got, Ok(()))
      case EchoRequest => AwaitBarrier(Answer(got, m))
      case _ => AwaitBarrier(got)
  }

  /** The waiting loop of `dump_flows_filtered`; `parse` reads one reply body. */
  function AwaitParts<Entry(!new)>(
      l: Link, parse: Parts<Entry>, entries: seq<Entry>): (Link, Result<seq<Entry>, Failure>)
    decreases |l.incoming|
  {
    if l.incoming == [] then (l, Err(Closed))
    else
      var m, got := l.incoming[0], Receive(l);
      match m.kind
      case Error => (got, Err(OfError(m.body)))
      case EchoRequest => AwaitParts(Answer(got, m), parse, entries)
      case MultipartReply =>
        (match parse(m.body)
         case None => (got, Err(BadReply))
         case Some((more, hasMore)) =>
           if hasMore then AwaitParts(got, parse, entries + more) else (got, Ok(entries + more)))
      case _ => AwaitParts(got, parse, entries)
  }

  class Connection<Entry(!new)> {
    var version: Version
    var nextXid: u32
    var incoming: seq<Msg>
    ghost var trace: seq<Event>
    const parse: Parts<Entry>

    ghost function State(): Link
      reads this
    {
      Link(version, nextXid, incoming, trace)
    }

    constructor (incoming: seq<Msg>, parse: Parts<Entry>)
      ensures State() == Fresh(incoming) && this.parse == parse
    {
      version := OF13;
      nextXid := 1;
      this.incoming := incoming;
      trace := [];
      this.parse := parse;
    }

    method NextXid() returns (xid: u32)
      modifies this`nextXid
      ensures xid == old(nextXid) && nextXid == WrappingInc(old(nextXid))
    {
      xid := nextXid;
      nextXid := (nextXid + 1) % 0x1_0000_0000;
    }

    method SendMessage(m: Msg)
      modifies this`trace
      ensures trace == old(trace) + [Sent(m)]
    {
      trace := trace + [Sent(m)];
    }

    method RecvMessage() returns (m: Option<Msg>)
      modifies this
      ensures old(incoming) == [] ==> m == None && State() == old(State())
      ensures old(incoming) != [] ==> m == Some(old(incoming)[0]) && State() == Receive(old(State()))
    {
      m := None;
      if incoming != [] {
        m := Some(incoming[0]);
        trace := trace + [Received(incoming[0])];
        incoming := incoming[1..];
      }
    }

    method Handshake() returns (r: Result<(), Failure>)
      modifies this
      ensures (State(), r) == AfterHandshake(old(State()))
    {
      var xid := NextXid();
      SendMessage(Msg(OF13, Hello, xid, []));
      var reply := RecvMessage();
      if reply.None? {
        return Err(Closed);
      }
      if reply.value.kind != Hello {
        return Err(InvalidMessage);
      }
      version := if version <= reply.value.version then version else reply.value.version;
      r := Ok(());
    }

    method SendFlow(flow: seq<byte>)
      modifies this
      ensures State() == Send(old(State()), FlowMod, flow)
    {
      var xid := NextXid();
      SendMessage(Msg(version, FlowMod, xid, flow));
    }

    method SendFlowSync(flow: seq<byte>) returns (r: Result<(), Failure>)
      modifies this
      ensures (State(), r) == AfterSync(old(State()), flow)
    {
      var xid := NextXid();
      SendMessage(Msg(version, FlowMod, xid, flow));
      r := Barrier();
    }

    method Barrier() returns (r: Result<(), Failure>)
      modifies this
      ensures (State(), r) == AfterBarrier(old(State()))
    {
      var xid := NextXid();
      SendMessage(Msg(version, BarrierRequest, xid, []));
      while true
        invariant AwaitBarrier(State()) == AfterBarrier(old(State()))
        decreases |incoming|
      {
        var reply := RecvMessage();
        if reply.None? {
          return Err(Closed);
        }
        var m := reply.value;
        if m.kind == Error {
          return Err(OfError(m.body));
        }
        if m.kind == BarrierReply {
          return Ok(());
        }
        if m.kind == EchoRequest {
          SendMessage(Msg(version, EchoReply, m.xid, m.body));
        }
      }
    }

    method Echo() returns (r: Result<(), Failure>)
      modifies this
      ensures (State(), r) == AfterEcho(old(State()))
    {
      var xid := NextXid();
      SendMessage(Msg(version, EchoRequest, xid, []));
      var reply := RecvMessage();
      if reply.None? {
        return Err(Closed);
      }
      r := if reply.value.kind != EchoReply || reply.value.xid != xid then Err(InvalidMessage) else Ok(());
    }

    method DumpFlowsFiltered(request: seq<byte>) returns (r: Result<seq<Entry>, Failure>)
      modifies this
      ensures (State(), r) == AfterDump(old(State()), parse, request)
    {
      var xid := NextXid();
      SendMessage(Msg(version, MultipartRequest, xid, request));
      var all: seq<Entry> := [];
      while true
        invariant AwaitParts(State(), parse, all) == AfterDump(old(State()), parse, request)
        decreases |incoming|
      {
        var reply := RecvMessage();
        if reply.None? {
          return Err(Closed);
        }
        var m := reply.value;
        if m.kind == Error {
          return Err(OfError(m.body));
        }
        if m.kind == EchoRequest {
          SendMessage(Msg(version, EchoReply, m.xid, m.body));
          continue;
        }
        if m.kind != MultipartReply {
          continue;
        }
        var part := parse(m.body);
        if part.None? {
          return Err(BadReply);
        }
        all := all + part.value.0;
        if !part.value.1 {
          break;
        }
      }
      r := Ok(all);
    }
  }

  // ------------------------------------------------------------------- calls

  function Lower(a: Version, b: Version): Version { if a <= b then a else b }

  function AfterHandshake(l: Link): (Link, Result<(), Failure>) {
    var s := l.(nextXid := WrappingInc(l.nextXid), trace := l.trace + [Sent(Msg(OF13, Hello, l.nextXid, []))]);
    if s.incoming == [] then (s, Err(Closed))
    else if s.incoming[0].kind != Hello then (Receive(s), Err(InvalidMessage))
    else (Receive(s).(version := Lower(l.version, s.incoming[0].version)), Ok(()))
  }

  function AfterBarrier(l: Link): (Link, Result<(), Failure>) { AwaitBarrier(Send(l, BarrierRequest, [])) }

  function AfterSync(l: Link, flow: seq<byte>): (Link, Result<(), Failure>) { AfterBarrier(Send(l, FlowMod, flow)) }

  function AfterEcho(l: Link): (Link, Result<(), Failure>) {
    var s := Send(l, EchoRequest, []);
    if s.incoming == [] then (s, Err(Closed))
    else
      var m := s.incoming[0];
      (Receive(s), if m.kind != EchoReply || m.xid != l.nextXid then Err(InvalidMessage) else Ok(()))
  }

  function AfterDump<Entry(!new)>(l: Link, parse: Parts<Entry>, request: seq<byte>): (Link,
        Result<seq<Entry>, Failure>) {
    AwaitParts(Send(l, MultipartRequest, request), parse, [])
  }

  datatype Call =
    | Handshake | SendFlow(flow: seq<byte>) | SendFlowSync(flow: seq<byte>)
    | Barrier | Echo | Dump(request: seq<byte>)

  function After<Entry(!new)>(c: Call, l: Link, parse: Parts<Entry>): (Link, bool) {
    match c
    case Handshake => var a := AfterHandshake(l); (a.0, a.1.Ok?)
    case SendFlow(flow) => (Send(l, FlowMod, flow), true)
    case SendFlowSync(flow) => var a := AfterSync(l, flow); (a.0, a.1.Ok?)
    case Barrier => var a := AfterBarrier(l); (a.0, a.1.Ok?)
    case Echo => var a := AfterEcho(l); (a.0, a.1.Ok?)
    case Dump(request) => var a := AfterDump(l, parse, request); (a.0, a.1.Ok?)
  }

  /** The state after a run in which every call returned `Ok`; `None` if one did not. */
  function RunOk<Entry(!new)>(calls: seq<Call>, l: Link, parse: Parts<Entry>): Option<Link>
    decreases |calls|
  {
    if calls == [] then Some(l)
    else
      var n := |calls| - 1;
      match RunOk(calls[..n], l, parse)
      case None => None
      case Some(mid) => var (end, ok) := After(calls[n], mid, parse); if ok then Some(end) else None
  }

  /** A message passed over by a wait, which answers it when it is an echo request. */
  function Skip(l: Link): Link
    requires l.incoming != []
  {
    if l.incoming[0].kind == EchoRequest then Answer(Receive(l), l.incoming[0]) else Receive(l)
  }

  function Skipped(l: Link): seq<Event>
    requires l.incoming != []
  {
    [Received(l.incoming[0])] + if l.incoming[0].kind == EchoRequest
      then [Sent(EchoOf(l.version, l.incoming[0]))] else []
  }

  lemma {:induction false} SkipAppends(l: Link, events: seq<Event>)
    requires l.incoming != []
    ensures Skip(l).trace + events == l.trace + (Skipped(l) + events)
  {
  }
}
