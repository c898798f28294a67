/**
 What `Ok` from a barrier or a synchronous flow proves: a switch that honours barriers, the exact condition under which
 an `Ok` means acceptance, and runs that keep it.
 */
module Barriers {
  import opened Common
  import opened Bytes
  import opened Seqs
  import opened VConn

  // ------------------------------------------------------------------ switch

  /** Where in the history messages of a kind were sent, or received, oldest first. */
  function Positions(trace: seq<Event>, sent: bool, kind: Kind): seq<nat> {
    if trace == [] then []
    else
      var n := |trace| - 1;
      Positions(trace[..n], sent, kind) + if trace[n].Sent? == sent && trace[n].msg.kind == kind then [n] else []
  }

  function Requests(trace: seq<Event>): seq<nat> { Positions(trace, true, BarrierRequest) }
  function Replies(trace: seq<Event>): seq<nat> { Positions(trace, false, BarrierReply) }

  /** Barrier requests whose replies have not been read. */
  function Outstanding(trace: seq<Event>): int { |Requests(trace)| - |Replies(trace)| }

  /** What the switch did: which sent messages it rejected, and which of its error messages reported them. */
  datatype Account = Account(rejected: set<nat>, report: map<nat, nat>)

  predicate IsError(e: Event) { e.Received? && e.msg.kind == Error }
  predicate IsFlowMod(e: Event) { e.Sent? && e.msg.kind == FlowMod }

  /**
   A switch that honours barriers (OpenFlow 1.3.5, section 7.3.8) explains the history: it answers each barrier once,
   in order, and before it does it has reported every rejection of a message sent before that barrier. It may process
   messages between barriers in any order and send anything else at any time.
   */
  ghost predicate Explained(trace: seq<Event>, a: Account) {
    && (forall i :: i in a.report ==> i < a.report[i] < |trace| && IsError(trace[a.report[i]]))
    && |Replies(trace)| <= |Requests(trace)|
    && (forall k :: 0 <= k < |Replies(trace)| ==> Requests(trace)[k] < Replies(trace)[k])
    && (forall k, i :: 0 <= k < |Replies(trace)| && i in a.rejected && i < Requests(trace)[k] ==>
          i in a.report && a.report[i] < Replies(trace)[k])
  }

  // --------------------------------------------------------- barrier soundness

  /** Events that neither report errors nor take part in barriers or flow changes. */
  predicate Quiet(events: seq<Event>) {
    forall e :: e in events ==> !IsError(e) && !IsFlowMod(e) && !(e.Sent? && e.msg.kind == BarrierRequest)
                                && !(e.Received? && e.msg.kind == BarrierReply)
  }

  lemma {:induction false} PositionsBelow(trace: seq<Event>, sent: bool, kind: Kind)
    ensures forall k :: 0 <= k < |Positions(trace, sent, kind)| ==> Positions(trace, sent, kind)[k] < |trace|
  {
    if trace != [] {
      PositionsBelow(trace[..|trace| - 1], sent, kind);
    }
  }

  lemma {:induction false} PositionsSnoc(trace: seq<Event>, e: Event, sent: bool, kind: Kind)
    ensures Positions(trace + [e], sent, kind) ==
            Positions(trace, sent, kind) + if e.Sent? == sent && e.msg.kind == kind then [|trace|] else []
  {
  }

  lemma {:induction false} PositionsPrefix(trace: seq<Event>, more: seq<Event>, sent: bool, kind: Kind)
    ensures |Positions(trace, sent, kind)| <= |Positions(trace + more, sent, kind)|
    ensures Positions(trace + more, sent, kind)[..|Positions(trace, sent, kind)|] == Positions(trace, sent, kind)
    ensures forall k :: |Positions(trace, sent, kind)| <= k < |Positions(trace + more, sent, kind)| ==>
              |trace| <= Positions(trace + more, sent, kind)[k]
    ensures (forall e :: e in more ==> !(e.Sent? == sent && e.msg.kind == kind)) ==>
              Positions(trace + more, sent, kind) == Positions(trace, sent, kind)
    decreases |more|
  {
    if more == [] {
      assert trace + more == trace;
    } else {
      var n := |more| - 1;
      assert trace + more == trace + more[..n] + [more[n]];
      PositionsPrefix(trace, more[..n], sent, kind);
      PositionsSnoc(trace + more[..n], more[n], sent, kind);
    }
  }

  lemma {:induction false} QuietPositions(trace: seq<Event>, events: seq<Event>)
    requires Quiet(events)
    ensures Requests(trace + events) == Requests(trace) && Replies(trace + events) == Replies(trace)
  {
    PositionsPrefix(trace, events, true, BarrierRequest);
    PositionsPrefix(trace, events, false, BarrierReply);
  }

  /** An `Ok` wait reads quiet events, answering echo requests, and then one barrier reply. */
  lemma {:induction false} AwaitBarrierReads(l: Link) returns (events: seq<Event>, reply: Msg)
    requires AwaitBarrier(l).1.Ok?
    ensures Quiet(events) && reply.kind == BarrierReply
    ensures AwaitBarrier(l).0.trace == l.trace + events + [Received(reply)]
    decreases |l.incoming|
  {
    if l.incoming[0].kind == BarrierReply {
      events, reply := [], l.incoming[0];
      NilConcat(l.trace);
    } else {
      events, reply := AwaitBarrierReads(Skip(l));
      SkipAppends(l, events);
      QuietConcat(Skipped(l), events);
      events := Skipped(l) + events;
    }
  }

  lemma {:induction false} QuietConcat(a: seq<Event>, b: seq<Event>)
    requires Quiet(a) && Quiet(b)
    ensures Quiet(a + b)
  {
  }

  /** No rejection of a message before the barrier can have gone unreported when the barrier's own reply is read. */
  lemma {:induction false} BarrierReports(
      before: seq<Event>, request: Msg, events: seq<Event>, reply: Msg, a: Account, i: nat)
    requires Quiet(events) && request.kind == BarrierRequest && reply.kind == BarrierReply
    requires Outstanding(before) == 0
    requires Explained(before + [Sent(request)] + events + [Received(reply)], a)
    requires i in a.rejected && i < |before|
    ensures i in a.report && i < a.report[i] < |before| && IsError(before[a.report[i]])
  {
    var asked := before + [Sent(request)];
    var waited := asked + events;
    var after := waited + [Received(reply)];
    PositionsSnoc(before, Sent(request), true, BarrierRequest);
    PositionsSnoc(before, Sent(request), false, BarrierReply);
    QuietPositions(asked, events);
    PositionsSnoc(waited, Received(reply), true, BarrierRequest);
    PositionsSnoc(waited, Received(reply), false, BarrierReply);
    var k := |Replies(before)|;
    assert Requests(after)[k] == |before| && Replies(after)[k] == |waited|;
    forall j | |before| <= j < |waited|
      ensures !IsError(after[j])
    {
      assert j >= |asked| ==> after[j] in events;
    }
    assert IsError(after[a.report[i]]);
  }

  /**
   What `Ok` from `send_flow_sync` means when no barrier reply was outstanding before the call, whatever happened
   earlier: the flow was accepted, and every flow ever rejected had been reported before the call.
   */
  lemma {:induction false} SyncSound(l: Link, flow: seq<byte>, a: Account)
    requires Outstanding(l.trace) == 0
    requires AfterSync(l, flow).1.Ok? && Explained(AfterSync(l, flow).0.trace, a)
    ensures |l.trace| !in a.rejected
    ensures forall i :: i in a.rejected && i < |l.trace| ==>
            i in a.report && a.report[i] < |l.trace| && IsError(l.trace[a.report[i]])
    ensures Outstanding(AfterSync(l, flow).0.trace) == 0
  {
    var sent := Send(l, FlowMod, flow);
    var request := Next(sent, BarrierRequest, []);
    var events, reply := AwaitBarrierReads(Send(sent, BarrierRequest, []));
    PositionsSnoc(l.trace, Sent(Next(l, FlowMod, flow)), true, BarrierRequest);
    PositionsSnoc(l.trace, Sent(Next(l, FlowMod, flow)), false, BarrierReply);
    forall i | i in a.rejected && i <= |l.trace|
      ensures i != |l.trace| && i in a.report && a.report[i] < |l.trace| && IsError(l.trace[a.report[i]])
    {
      BarrierReports(sent.trace, request, events, reply, a, i);
    }
    BalanceKept(sent.trace, request, events, reply);
  }

  lemma {:induction false} BalanceKept(before: seq<Event>, request: Msg, events: seq<Event>, reply: Msg)
    requires Quiet(events) && request.kind == BarrierRequest && reply.kind == BarrierReply
    ensures Outstanding(before + [Sent(request)] + events + [Received(reply)]) == Outstanding(before)
  {
    PositionsSnoc(before, Sent(request), true, BarrierRequest);
    PositionsSnoc(before, Sent(request), false, BarrierReply);
    QuietPositions(before + [Sent(request)], events);
    PositionsSnoc(before + [Sent(request)] + events, Received(reply), true, BarrierRequest);
    PositionsSnoc(before + [Sent(request)] + events, Received(reply), false, BarrierReply);
  }

  /** `Ok` from `send_flow_sync` in state `l` proves, for every switch, that the flow was accepted. */
  ghost predicate OkProvesAccepted(l: Link, flow: seq<byte>) {
    forall incoming, a :: var end := AfterSync(l.(incoming := incoming), flow);
      end.1.Ok? && Explained(end.0.trace, a) ==> |l.trace| !in a.rejected
  }

  lemma {:induction false} Asked(t: seq<Event>, flow: Msg, request: Msg)
    requires flow.kind == FlowMod && request.kind == BarrierRequest
    ensures var end := t + [Sent(flow)] + [Sent(request)];
            Requests(end) == Requests(t) + [|t| + 1] && Replies(end) == Replies(t)
  {
    PositionsSnoc(t, Sent(flow), true, BarrierRequest);
    PositionsSnoc(t, Sent(flow), false, BarrierReply);
    PositionsSnoc(t + [Sent(flow)], Sent(request), true, BarrierRequest);
    PositionsSnoc(t + [Sent(flow)], Sent(request), false, BarrierReply);
  }

  /** A history that ends with a flow, a barrier request and at once a barrier reply. */
  lemma {:induction false} StaleEnd(t: seq<Event>, flow: Msg, request: Msg, reply: Msg)
    requires flow.kind == FlowMod && request.kind == BarrierRequest && reply.kind == BarrierReply
    ensures var end := t + [Sent(flow)] + [Sent(request)] + [Received(reply)];
            Requests(end) == Requests(t) + [|t| + 1] && Replies(end) == Replies(t) + [|t| + 2]
  {
    Asked(t, flow, request);
    PositionsSnoc(t + [Sent(flow)] + [Sent(request)], Received(reply), true, BarrierRequest);
    PositionsSnoc(t + [Sent(flow)] + [Sent(request)], Received(reply), false, BarrierReply);
  }

  /** Of the messages so far, only those reported are rejected. */
  function Settled(a: Account): Account { Account(a.report.Keys * a.rejected, a.report) }

  /** The late reply to an earlier barrier says nothing about a flow sent after that barrier. */
  lemma {:induction false} StaleExplained(t: seq<Event>, flow: Msg, request: Msg, reply: Msg, a: Account)
    requires flow.kind == FlowMod && request.kind == BarrierRequest && reply.kind == BarrierReply
    requires Explained(t, a) && Outstanding(t) > 0
    ensures Explained(t + [Sent(flow)] + [Sent(request)] + [Received(reply)],
            Account(Settled(a).rejected + {|t|}, a.report))
  {
    StaleEnd(t, flow, request, reply);
    PositionsBelow(t, true, BarrierRequest);
  }

  /** A synchronous flow whose answer is the next message received. */
  lemma {:induction false} AnsweredAtOnce(l: Link, flow: seq<byte>, m: Msg, rest: seq<Msg>)
    requires l.incoming == [m] + rest && (m.kind == Error || m.kind == BarrierReply)
    ensures var asked := Send(l, FlowMod, flow);
            var trace := l.trace + [Sent(Next(l, FlowMod, flow))] + [Sent(Next(asked, BarrierRequest, []))]
              + [Received(m)];
            AfterSync(l, flow) == (Link(l.version, WrappingInc(asked.nextXid), rest, trace),
                                   if m.kind == Error then Err(OfError(m.body)) else Ok(()))
  {
    assert ([m] + rest)[1..] == rest;
  }

  /** The link when a barrier reply is all that is still to arrive. */
  function Replied(l: Link): Link { l.(incoming := [Msg(OF13, BarrierReply, 0, [])]) }

  /** The switch whose late barrier reply is taken for the answer to a new barrier: it rejects the flow before it. */
  lemma {:induction false} StaleReply(l: Link, flow: seq<byte>, a: Account)
    requires Explained(l.trace, a) && Outstanding(l.trace) > 0
    ensures AfterSync(Replied(l), flow).1 == Ok(())
    ensures Explained(AfterSync(Replied(l), flow).0.trace, Account(Settled(a).rejected + {|l.trace|}, a.report))
  {
    var m, asked := Replied(l).incoming[0], Send(Replied(l), FlowMod, flow);
    NilConcat([m]);
    AnsweredAtOnce(Replied(l), flow, m, []);
    StaleExplained(l.trace, Next(l, FlowMod, flow), Next(asked, BarrierRequest, []), m, a);
  }

  /** A switch that answers at once: from any state a switch explains, `Ok` for an accepted flow is possible. */
  lemma {:induction false} PromptReply(l: Link, flow: seq<byte>, a: Account)
    requires Explained(l.trace, a) && Outstanding(l.trace) == 0
    ensures AfterSync(Replied(l), flow).1 == Ok(())
    ensures Explained(AfterSync(Replied(l), flow).0.trace, Settled(a)) && |l.trace| !in Settled(a).rejected
  {
    var m, asked := Replied(l).incoming[0], Send(Replied(l), FlowMod, flow);
    NilConcat([m]);
    AnsweredAtOnce(Replied(l), flow, m, []);
    StaleEnd(l.trace, Next(l, FlowMod, flow), Next(asked, BarrierRequest, []), m);
    PositionsBelow(l.trace, true, BarrierRequest);
  }

  /** Events that take no part in barriers. */
  predicate NoBarriers(events: seq<Event>) {
    forall e :: e in events ==>
      !(e.Sent? && e.msg.kind == BarrierRequest) && !(e.Received? && e.msg.kind == BarrierReply)
  }

  /** A wait that ends in an error has read no barrier reply. */
  lemma {:induction false} AwaitBarrierFails(l: Link) returns (events: seq<Event>)
    requires AwaitBarrier(l).1.Err?
    ensures AwaitBarrier(l).0.trace == l.trace + events && NoBarriers(events)
    decreases |l.incoming|
  {
    if l.incoming == [] {
      events := [];
      NilConcat(l.trace);
    } else if l.incoming[0].kind == Error {
      events := [Received(l.incoming[0])];
    } else {
      events := AwaitBarrierFails(Skip(l));
      SkipAppends(l, events);
      events := Skipped(l) + events;
    }
  }

  /** What a call leaves behind, exactly: an error return leaves one barrier reply unread, `Ok` leaves none more. */
  lemma {:induction false} BarrierBalance(l: Link)
    ensures Outstanding(AfterBarrier(l).0.trace) == Outstanding(l.trace) + if AfterBarrier(l).1.Err? then 1 else 0
  {
    var asked := Send(l, BarrierRequest, []);
    if AfterBarrier(l).1.Ok? {
      var events, reply := AwaitBarrierReads(asked);
      BalanceKept(l.trace, Next(l, BarrierRequest, []), events, reply);
    } else {
      var events := AwaitBarrierFails(asked);
      PositionsPrefix(asked.trace, events, true, BarrierRequest);
      PositionsPrefix(asked.trace, events, false, BarrierReply);
      PositionsSnoc(l.trace, Sent(Next(l, BarrierRequest, [])), true, BarrierRequest);
      PositionsSnoc(l.trace, Sent(Next(l, BarrierRequest, [])), false, BarrierReply);
    }
  }

  lemma {:induction false} SyncBalance(l: Link, flow: seq<byte>)
    ensures Outstanding(AfterSync(l, flow).0.trace) == Outstanding(l.trace) + if AfterSync(l, flow).1.Err? then 1 else 0
  {
    BarrierBalance(Send(l, FlowMod, flow));
    PositionsSnoc(l.trace, Sent(Next(l, FlowMod, flow)), true, BarrierRequest);
    PositionsSnoc(l.trace, Sent(Next(l, FlowMod, flow)), false, BarrierReply);
  }

  lemma {:induction false} FailedEnd(t: seq<Event>, flow: Msg, request: Msg, error: Msg)
    requires flow.kind == FlowMod && request.kind == BarrierRequest && error.kind == Error
    ensures var end := t + [Sent(flow)] + [Sent(request)] + [Received(error)];
            Requests(end) == Requests(t) + [|t| + 1] && Replies(end) == Replies(t)
  {
    Asked(t, flow, request);
    PositionsSnoc(t + [Sent(flow)] + [Sent(request)], Received(error), true, BarrierRequest);
    PositionsSnoc(t + [Sent(flow)] + [Sent(request)], Received(error), false, BarrierReply);
  }

  function FirstReplies(): seq<Msg> { [Msg(OF13, Error, 1, []), Msg(OF13, BarrierReply, 2, [])] }

  lemma {:induction false} FirstCallFails(flow: seq<byte>)
    ensures var (l, r) := AfterSync(Fresh(FirstReplies()), flow);
            && r == Err(OfError([])) && l.incoming == [FirstReplies()[1]]
            && |l.trace| == 3 && IsError(l.trace[2]) && Requests(l.trace) == [1] && Replies(l.trace) == []
  {
    var l0, error := Fresh(FirstReplies()), FirstReplies()[0];
    assert l0.incoming == [error] + [FirstReplies()[1]];
    AnsweredAtOnce(l0, flow, error, [FirstReplies()[1]]);
    FailedEnd([], Next(l0, FlowMod, flow), Next(Send(l0, FlowMod, flow), BarrierRequest, []), error);
  }

  /**
   It happens: on a fresh connection to a switch that rejects two flows and honours barriers, the first call returns
   the first rejection, and the second returns `Ok` for the second flow, because it reads the first call's reply.
   */
  lemma {:induction false} RejectedFlowConfirmed(flow1: seq<byte>, flow2: seq<byte>)
    ensures var (l1, r1) := AfterSync(Fresh(FirstReplies()), flow1);
            var (l2, r2) := AfterSync(l1, flow2);
            && r1 == Err(OfError([])) && Outstanding(l1.trace) == 1
            && r2 == Ok(()) && |l2.trace| == 6 && IsFlowMod(l2.trace[3]) && l2.trace[3].msg.body == flow2
            && Explained(l2.trace, Account({0, 3}, map[0 := 2]))
  {
    FirstCallFails(flow1);
    var l1, reply := AfterSync(Fresh(FirstReplies()), flow1).0, FirstReplies()[1];
    NilConcat([reply]);
    AnsweredAtOnce(l1, flow2, reply, []);
    StaleEnd(l1.trace, Next(l1, FlowMod, flow2), Next(Send(l1, FlowMod, flow2), BarrierRequest, []), reply);
    SecondExplained(AfterSync(l1, flow2).0.trace);
  }

  lemma {:induction false} SecondExplained(trace: seq<Event>)
    requires |trace| == 6 && IsError(trace[2])
    requires Requests(trace) == [1, 4] && Replies(trace) == [5]
    ensures Explained(trace, Account({0, 3}, map[0 := 2]))
  {
  }

  /**
   The exact condition, which a caller can check before the call: an `Ok` proves acceptance if and only if every
   barrier reply asked for so far has been read. A call that returned an error leaves one unread.
   */
  lemma {:induction false} SyncSoundIffNoneOutstanding(l: Link, flow: seq<byte>, a: Account)
    requires Explained(l.trace, a)
    ensures OkProvesAccepted(l, flow) <==> Outstanding(l.trace) == 0
  {
    if Outstanding(l.trace) == 0 {
      forall incoming, b | AfterSync(l.(incoming := incoming), flow).1.Ok?
        && Explained(AfterSync(l.(incoming := incoming), flow).0.trace, b)
        ensures |l.trace| !in b.rejected
      {
        SyncSound(l.(incoming := incoming), flow, b);
      }
    } else {
      StaleReply(l, flow, a);
      var incoming, b := Replied(l).incoming, Account(Settled(a).rejected + {|l.trace|}, a.report);
      var end := AfterSync(l.(incoming := incoming), flow);
      assert end.1.Ok? && Explained(end.0.trace, b) && |l.trace| in b.rejected;
    }
  }

  // -------------------------------------------------------------------- runs

  predicate NoErrors(trace: seq<Event>) { forall e :: e in trace ==> !IsError(e) }

  function Restrict(a: Account, n: nat): Account {
    Account(a.rejected, map i | i in a.report && a.report[i] < n :: a.report[i])
  }

  /** What a switch explains, it explained at every earlier moment. */
  lemma {:induction false} ExplainedPrefix(trace: seq<Event>, more: seq<Event>, a: Account)
    requires Explained(trace + more, a)
    ensures Explained(trace, Restrict(a, |trace|))
  {
    PositionsPrefix(trace, more, true, BarrierRequest);
    PositionsPrefix(trace, more, false, BarrierReply);
    PositionsBelow(trace, false, BarrierReply);
    forall k | 0 <= k < |Replies(trace)|
      ensures k < |Requests(trace)| && Requests(trace)[k] == Requests(trace + more)[k]
              && Replies(trace)[k] == Replies(trace + more)[k]
    {
      assert Replies(trace + more)[..|Replies(trace)|][k] == Replies(trace)[k];
      assert k < |Requests(trace)| ==> Requests(trace + more)[..|Requests(trace)|][k] == Requests(trace)[k];
    }
    assert |Replies(trace)| <= |Requests(trace)| by {
      if |Replies(trace)| > 0 {
        assert Replies(trace)[|Replies(trace)| - 1] < |trace|;
      }
    }
  }

  /** What a successful dump reads: no errors; and it sends nothing but its request and echo replies. */
  lemma {:induction false} AwaitPartsReads<Entry(!new)>(l: Link, parse: Parts<Entry>, entries: seq<Entry>)
      returns (events: seq<Event>)
    requires AwaitParts(l, parse, entries).1.Ok?
    ensures AwaitParts(l, parse, entries).0.trace == l.trace + events && NoErrors(events)
    ensures forall e :: e in events && e.Sent? ==> e.msg.kind == EchoReply
    decreases |l.incoming|
  {
    var m := l.incoming[0];
    if m.kind == MultipartReply && !parse(m.body).value.1 {
      events := [Received(m)];
    } else {
      var all := if m.kind == MultipartReply then entries + parse(m.body).value.0 else entries;
      events := AwaitPartsReads(Skip(l), parse, all);
      SkipAppends(l, events);
      events := Skipped(l) + events;
    }
  }

  /** A successful call keeps the connection clean: no error read, no barrier reply left unread. */
  lemma {:induction false} CallKeepsClean<Entry(!new)>(c: Call, l: Link, parse: Parts<Entry>, a: Account)
      returns (events: seq<Event>)
    requires Outstanding(l.trace) == 0 && NoErrors(l.trace)
    requires After(c, l, parse).1 && Explained(After(c, l, parse).0.trace, a)
    ensures After(c, l, parse).0.trace == l.trace + events
    ensures Outstanding(l.trace + events) == 0 && NoErrors(l.trace + events)
  {
    events := CallAppends(c, l, parse);
    if !c.Barrier? && !c.SendFlowSync? {
      PositionsPrefix(l.trace, events, true, BarrierRequest);
      PositionsPrefix(l.trace, events, false, BarrierReply);
    } else if c.Barrier? {
      BarrierBalance(l);
    } else {
      SyncBalance(l, c.flow);
    }
  }

  lemma {:induction false} BarrierAppends(l: Link) returns (events: seq<Event>)
    requires AfterBarrier(l).1.Ok?
    ensures AfterBarrier(l).0.trace == l.trace + events && NoErrors(events)
  {
    var quiet, reply := AwaitBarrierReads(Send(l, BarrierRequest, []));
    events := [Sent(Next(l, BarrierRequest, []))] + quiet + [Received(reply)];
    assert AfterBarrier(l).0.trace == l.trace + events;
  }

  /** A successful call reads no error, and unless it is a barrier or a synchronous flow it asks for no barrier. */
  lemma {:induction false} CallAppends<Entry(!new)>(c: Call, l: Link, parse: Parts<Entry>) returns (events: seq<Event>)
    requires After(c, l, parse).1
    ensures After(c, l, parse).0.trace == l.trace + events && NoErrors(events)
    ensures !c.Barrier? && !c.SendFlowSync? ==> forall e :: e in events && e.Sent? ==> e.msg.kind != BarrierRequest
  {
    var end := After(c, l, parse).0;
    match c {
      case Dump(request) =>
        var sent := Send(l, MultipartRequest, request);
        var more := AwaitPartsReads(sent, parse, []);
        events := [Sent(Next(l, MultipartRequest, request))] + more;
      case SendFlowSync(flow) =>
        var start := Send(l, FlowMod, flow);
        var more := BarrierAppends(start);
        events := [Sent(Next(l, FlowMod, flow))] + more;
      case Barrier =>
        events := BarrierAppends(l);
      case SendFlow(flow) =>
        events := [Sent(Next(l, FlowMod, flow))];
      case Handshake =>
        events := [Sent(Msg(OF13, Hello, l.nextXid, [])), Received(l.incoming[0])];
      case Echo =>
        events := [Sent(Next(l, EchoRequest, [])), Received(l.incoming[0])];
    }
    assert end.trace == l.trace + events;
  }

  /** A run without an error return leaves no barrier reply unread. */
  lemma {:induction false} RunKeepsClean<Entry(!new)>(calls: seq<Call>, l: Link, parse: Parts<Entry>, a: Account)
    requires Outstanding(l.trace) == 0 && NoErrors(l.trace)
    requires RunOk(calls, l, parse).Some? && Explained(RunOk(calls, l, parse).value.trace, a)
    ensures Outstanding(RunOk(calls, l, parse).value.trace) == 0 && NoErrors(RunOk(calls, l, parse).value.trace)
    decreases |calls|
  {
    if calls != [] {
      var n := |calls| - 1;
      var mid := RunOk(calls[..n], l, parse).value;
      var events := CallAppends(calls[n], mid, parse);
      ExplainedPrefix(mid.trace, events, a);
      RunKeepsClean(calls[..n], l, parse, Restrict(a, |mid.trace|));
      var _ := CallKeepsClean(calls[n], mid, parse, a);
    }
  }

  /**
   Barrier soundness over whole runs: in any run from a fresh connection in which no call returned an error, when
   `send_flow_sync` or `barrier` returns, every flow sent so far, synchronously or not, was accepted.
   */
  lemma {:induction false} BarrierSoundness<Entry(!new)>(
      calls: seq<Call>, incoming: seq<Msg>, parse: Parts<Entry>, end: Link, a: Account)
    requires calls != [] && (calls[|calls| - 1].SendFlowSync? || calls[|calls| - 1].Barrier?)
    requires RunOk(calls, Fresh(incoming), parse) == Some(end) && Explained(end.trace, a)
    ensures AllAccepted(end.trace, a)
  {
    var l := Fresh(incoming);
    var n := |calls| - 1;
    var mid := RunOk(calls[..n], l, parse).value;
    var events := CallAppends(calls[n], mid, parse);
    ExplainedPrefix(mid.trace, events, a);
    RunKeepsClean(calls[..n], l, parse, Restrict(a, |mid.trace|));
    LastBarrierSound(calls[n], mid, parse, a);
  }

  lemma {:induction false} LastBarrierSound<Entry(!new)>(c: Call, l: Link, parse: Parts<Entry>, a: Account)
    requires c.SendFlowSync? || c.Barrier?
    requires Outstanding(l.trace) == 0 && NoErrors(l.trace)
    requires After(c, l, parse).1 && Explained(After(c, l, parse).0.trace, a)
    ensures AllAccepted(After(c, l, parse).0.trace, a)
  {
    if c.SendFlowSync? {
      PositionsSnoc(l.trace, Sent(Next(l, FlowMod, c.flow)), true, BarrierRequest);
      PositionsSnoc(l.trace, Sent(Next(l, FlowMod, c.flow)), false, BarrierReply);
    }
    BarrierSound(if c.Barrier? then l else Send(l, FlowMod, c.flow), a);
  }

  predicate AllAccepted(trace: seq<Event>, a: Account) {
    forall i :: 0 <= i < |trace| && IsFlowMod(trace[i]) ==> i !in a.rejected
  }

  lemma {:induction false} BarrierSound(l: Link, a: Account)
    requires Outstanding(l.trace) == 0 && NoErrors(l.trace)
    requires AfterBarrier(l).1.Ok? && Explained(AfterBarrier(l).0.trace, a)
    ensures AllAccepted(AfterBarrier(l).0.trace, a)
  {
    var request := Next(l, BarrierRequest, []);
    var quiet, reply := AwaitBarrierReads(Send(l, BarrierRequest, []));
    var trace := l.trace + [Sent(request)] + quiet + [Received(reply)];
    forall i | |l.trace| <= i < |trace|
      ensures !IsFlowMod(trace[i])
    {
      assert i > |l.trace| ==> trace[i] in quiet + [Received(reply)];
    }
    forall i | 0 <= i < |l.trace|
      ensures !IsError(l.trace[i])
    {
      assert l.trace[i] in l.trace;
    }
    forall i | 0 <= i < |l.trace|
      ensures i !in a.rejected
    {
      if i in a.rejected {
        BarrierReports(l.trace, request, quiet, reply, a, i);
      }
    }
  }
}
