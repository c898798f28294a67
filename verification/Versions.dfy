/** Which OpenFlow version a connection speaks, over whole runs. */
module Versions {
  import opened Bytes
  import opened VConn

  /** The state after a run, whatever its calls returned. */
  function Run<Entry(!new)>(calls: seq<Call>, l: Link, parse: Parts<Entry>): Link
    decreases |calls|
  {
    if calls == [] then l else Run(calls[1..], After(calls[0], l, parse).0, parse)
  }

  /** Calls as they follow a handshake. */
  predicate Greeted(calls: seq<Call>) { forall c :: c in calls ==> !c.Handshake? }

  /** Every message sent after the first `n` events bears the version. */
  ghost predicate Speaks(trace: seq<Event>, n: nat, version: Version) {
    forall i :: n <= i < |trace| && trace[i].Sent? ==> trace[i].msg.version == version
  }

  lemma {:induction false} AwaitBarrierSpeaks(l: Link, n: nat)
    requires n <= |l.trace| && Speaks(l.trace, n, l.version)
    ensures AwaitBarrier(l).0.version == l.version && |l.trace| <= |AwaitBarrier(l).0.trace|
    ensures Speaks(AwaitBarrier(l).0.trace, n, l.version)
    decreases |l.incoming|
  {
    if l.incoming != [] && l.incoming[0].kind != Error && l.incoming[0].kind != BarrierReply {
      AwaitBarrierSpeaks(Skip(l), n);
    }
  }

  lemma {:induction false} AwaitPartsSpeaks<Entry(!new)>(l: Link, parse: Parts<Entry>, entries: seq<Entry>, n: nat)
    requires n <= |l.trace| && Speaks(l.trace, n, l.version)
    ensures AwaitParts(l, parse, entries).0.version == l.version && |l.trace| <= |AwaitParts(l, parse, entries).0.trace|
    ensures Speaks(AwaitParts(l, parse, entries).0.trace, n, l.version)
    decreases |l.incoming|
  {
    if l.incoming != [] && l.incoming[0].kind != Error {
      var m := l.incoming[0];
      if m.kind != MultipartReply {
        AwaitPartsSpeaks(Skip(l), parse, entries, n);
      } else if parse(m.body).Some? {
        AwaitPartsSpeaks(Skip(l), parse, entries + parse(m.body).value.0, n);
      }
    }
  }

  lemma {:induction false} CallSpeaks<Entry(!new)>(c: Call, l: Link, parse: Parts<Entry>, n: nat)
    requires !c.Handshake? && n <= |l.trace| && Speaks(l.trace, n, l.version)
    ensures var end := After(c, l, parse).0;
            end.version == l.version && n <= |end.trace| && Speaks(end.trace, n, l.version)
  {
    match c {
      case SendFlow(_) =>
      case Echo =>
      case SendFlowSync(flow) => AwaitBarrierSpeaks(Send(Send(l, FlowMod, flow), BarrierRequest, []), n);
      case Barrier => AwaitBarrierSpeaks(Send(l, BarrierRequest, []), n);
      case Dump(request) => AwaitPartsSpeaks(Send(l, MultipartRequest, request), parse, [], n);
    }
  }

  lemma {:induction false} RunSpeaks<Entry(!new)>(calls: seq<Call>, l: Link, parse: Parts<Entry>, n: nat)
    requires Greeted(calls) && n <= |l.trace| && Speaks(l.trace, n, l.version)
    ensures Run(calls, l, parse).version == l.version && Speaks(Run(calls, l, parse).trace, n, l.version)
    decreases |calls|
  {
    if calls != [] {
      CallSpeaks(calls[0], l, parse, n);
      RunSpeaks(calls[1..], After(calls[0], l, parse).0, parse, n);
    }
  }

  /**
   Version negotiation over whole runs: the greeting says 1.3, and whatever the calls after the handshake return, every
   message sent after the greeting, echo replies included, bears the lower of 1.3 and the version of the switch's hello.
   */
  lemma {:induction false} VersionAgreed<Entry(!new)>(calls: seq<Call>, incoming: seq<Msg>, parse: Parts<Entry>)
    requires incoming != [] && incoming[0].kind == Hello && Greeted(calls)
    ensures var (greeted, r) := AfterHandshake(Fresh(incoming));
            var agreed := if incoming[0].version < 4 then incoming[0].version else 4;
            && r.Ok? && greeted.trace[0].msg.version == 4
            && Run(calls, greeted, parse).version == agreed && Speaks(Run(calls, greeted, parse).trace, 1, agreed)
  {
    RunSpeaks(calls, AfterHandshake(Fresh(incoming)).0, parse, 1);
  }

  // ------------------------------------------------------- what calls ask and accept

  lemma {:induction false} AwaitBarrierKeeps(l: Link)
    ensures l.trace <= AwaitBarrier(l).0.trace && AwaitBarrier(l).0.nextXid == l.nextXid
    decreases |l.incoming|
  {
    if l.incoming != [] && l.incoming[0].kind != Error && l.incoming[0].kind != BarrierReply {
      AwaitBarrierKeeps(Skip(l));
    }
  }

  lemma {:induction false} AwaitPartsKeeps<Entry(!new)>(l: Link, parse: Parts<Entry>, entries: seq<Entry>)
    ensures l.trace <= AwaitParts(l, parse, entries).0.trace
    ensures AwaitParts(l, parse, entries).0.nextXid == l.nextXid
    decreases |l.incoming|
  {
    if l.incoming != [] && l.incoming[0].kind != Error {
      var m := l.incoming[0];
      if m.kind != MultipartReply {
        AwaitPartsKeeps(Skip(l), parse, entries);
      } else if parse(m.body).Some? {
        AwaitPartsKeeps(Receive(l), parse, entries + parse(m.body).value.0);
      }
    }
  }

  /** The messages a call starts with, in order, for the transaction ids from `xid` on. */
  function Opens(c: Call, version: Version, xid: u32): seq<Msg> {
    match c
    case Handshake => [Msg(4, Hello, xid, [])]
    case SendFlow(flow) => [Msg(version, FlowMod, xid, flow)]
    case SendFlowSync(flow) =>
      [Msg(version, FlowMod, xid, flow), Msg(version, BarrierRequest, (xid + 1) % 0x1_0000_0000, [])]
    case Barrier => [Msg(version, BarrierRequest, xid, [])]
    case Echo => [Msg(version, EchoRequest, xid, [])]
    case Dump(request) => [Msg(version, MultipartRequest, xid, request)]
  }

  function SentAll(msgs: seq<Msg>): seq<Event> {
    seq(|msgs|, i requires 0 <= i < |msgs| => Sent(msgs[i]))
  }

  /** Whatever happens later in it, a call first sends its messages, each under the next transaction id. */
  lemma {:induction false} CallOpens<Entry(!new)>(c: Call, l: Link, parse: Parts<Entry>)
    ensures var end := After(c, l, parse).0;
            && l.trace + SentAll(Opens(c, l.version, l.nextXid)) <= end.trace
            && end.nextXid == (l.nextXid + |Opens(c, l.version, l.nextXid)|) % 0x1_0000_0000
  {
    match c {
      case Handshake =>
      case SendFlow(_) =>
      case Echo =>
      case SendFlowSync(flow) =>
        AwaitBarrierKeeps(Send(Send(l, FlowMod, flow), BarrierRequest, []));
        TwoSent(l, FlowMod, flow, BarrierRequest, []);
      case Barrier => AwaitBarrierKeeps(Send(l, BarrierRequest, []));
      case Dump(request) => AwaitPartsKeeps(Send(l, MultipartRequest, request), parse, []);
    }
  }

  lemma {:induction false} TwoSent(l: Link, kind1: Kind, body1: seq<byte>, kind2: Kind, body2: seq<byte>)
    ensures var xid2 := (l.nextXid + 1) % 0x1_0000_0000;
            var msgs := [Msg(l.version, kind1, l.nextXid, body1), Msg(l.version, kind2, xid2, body2)];
            var end := Send(Send(l, kind1, body1), kind2, body2);
            l.trace + SentAll(msgs) == end.trace && end.nextXid == (l.nextXid + 2) % 0x1_0000_0000
  {
  }

  /** A handshake succeeds exactly when the first message received is a hello. */
  lemma {:induction false} HandshakeIff(l: Link)
    ensures AfterHandshake(l).1.Ok? <==> l.incoming != [] && l.incoming[0].kind == Hello
  {
  }

  /** An echo succeeds exactly when the next message is the reply to its own request. */
  lemma {:induction false} EchoIff(l: Link)
    ensures AfterEcho(l).1.Ok?
       <==> l.incoming != [] && l.incoming[0].kind == EchoReply && l.incoming[0].xid == l.nextXid
  {
  }
}
