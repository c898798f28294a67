/**
 The client seen from outside: notifications handled, queued, and still on the wire.
 Whatever the interleaving of calls, they stay one sequence, and the replica follows the server.
 */
module Session {
  import opened Common
  import opened Bytes
  import opened Framing
  import opened Rpc
  import opened Receive
  import opened JsonRpc
  import opened Replica
  import opened Seqs

  /** `written` is what the client has sent; `fate` is the error the wire ends in. */
  datatype Session = Session(
    handled: seq<Request>, pending: seq<Request>, wire: seq<Message>, written: seq<Message>, fate: Error)

  /** The content of an update notification; a malformed one has none. */
  function UpdateOf(req: Request): Option<Json> {
    if req.meth in {"update", "update2", "update3"} && req.params.Array? && |req.params.items| >= 2
    then Some(req.params.items[1]) else None
  }

  function Updates(reqs: seq<Request>): seq<Json> {
    if reqs == [] then []
    else (if UpdateOf(reqs[0]).Some? then [UpdateOf(reqs[0]).value] else []) + Updates(reqs[1..])
  }

  /** The replies a client owes for the echo requests among `reqs`. */
  function EchoReplies(reqs: seq<Request>): seq<Message> {
    if reqs == [] then []
    else (if reqs[0].meth == "echo" then [EchoReply(reqs[0])] else []) + EchoReplies(reqs[1..])
  }

  function EchoReply(req: Request): Message {
    Resp(Response(Some(req.params), None, if req.id.Some? then req.id.value else StringId("echo")))
  }

  // ---------------------------------------------------------- what calls do

  datatype Call = Transact(id: int, meth: string, params: Json) | Run | Wait

  function AfterTransact(s: Session, id: int, meth: string, params: Json): Session {
    var a := AwaitResponse(s.pending, s.wire, s.fate, id);
    s.(pending := a.pending, wire := a.wire, written := s.written + [Req(Request(meth, params, Some(NumberId(id))))])
  }

  function AfterRun(s: Session): Session {
    s.(handled := s.handled + s.pending, pending := [])
  }

  /** The next notification or response, from the queue or else from the wire. */
  function Next(s: Session): (m: Message)
    requires s.pending != [] || s.wire != []
  {
    if s.pending != [] then Req(s.pending[0]) else s.wire[0]
  }

  /** What handling it does: an echo request is answered, a stray response dropped. */
  function AfterNext(s: Session): (s': Session)
    requires s.pending != [] || s.wire != []
    ensures |s'.pending| + |s'.wire| < |s.pending| + |s.wire|
  {
    var s' := if s.pending != [] then s.(pending := s.pending[1..]) else s.(wire := s.wire[1..]);
    match Next(s)
    case Req(req) => s'.(handled := s.handled + [req], written := s.written + EchoReplies([req]))
    case Resp(_) => s'
  }

  function IsUpdate(m: Message): bool { m.Req? && UpdateOf(m.request).Some? }

  /** An update is queued or on the wire. */
  function Finds(s: Session): bool { Updates(s.pending + Requests(s.wire)) != [] }

  /** Handle what comes next up to and including the first update. */
  function AfterWait(s: Session): Session
    decreases |s.pending| + |s.wire|
  {
    if s.pending == [] && s.wire == [] then s
    else if IsUpdate(Next(s)) then AfterNext(s)
    else AfterWait(AfterNext(s))
  }

  function After(s: Session, call: Call): Session {
    match call
    case Transact(id, meth, params) => AfterTransact(s, id, meth, params)
    case Run => AfterRun(s)
    case Wait => AfterWait(s)
  }

  function AfterAll(s: Session, calls: seq<Call>): Session
    decreases |calls|
  {
    if calls == [] then s else AfterAll(After(s, calls[0]), calls[1..])
  }

  // ------------------------------------------------------------ conservation

  /** Handled, then queued, then on the wire. */
  function Line(s: Session): seq<Request> {
    s.handled + s.pending + Requests(s.wire)
  }

  lemma {:induction false} NextKeepsLine(s: Session)
    requires s.pending != [] || s.wire != []
    ensures var s' := AfterNext(s);
            var taken := if Next(s).Req? then [Next(s).request] else [];
            && Line(s') == Line(s) && s'.handled == s.handled + taken
            && s.pending + Requests(s.wire) == taken + (s'.pending + Requests(s'.wire))
  {
  }

  lemma {:induction false} FindsNext(s: Session)
    requires s.pending != [] || s.wire != []
    ensures Finds(s) <==> IsUpdate(Next(s)) || Finds(AfterNext(s))
  {
    NextKeepsLine(s);
    var taken := if Next(s).Req? then [Next(s).request] else [];
    UpdatesConcat(taken, AfterNext(s).pending + Requests(AfterNext(s).wire));
  }

  lemma {:induction false} WaitKeepsLine(s: Session)
    ensures Line(AfterWait(s)) == Line(s) && s.handled <= AfterWait(s).handled
    decreases |s.pending| + |s.wire|
  {
    if s.pending != [] || s.wire != [] {
      NextKeepsLine(s);
      if !IsUpdate(Next(s)) {
        WaitKeepsLine(AfterNext(s));
      }
    }
  }

  lemma {:induction false} RunStep(s: Session)
    ensures s.pending == [] ==> AfterRun(s) == s
    ensures s.pending != [] ==>
              AfterRun(s) == AfterRun(s.(handled := s.handled + [s.pending[0]], pending := s.pending[1..]))
              && |Updates(s.pending)| == |Updates(s.pending[1..])| + (if UpdateOf(s.pending[0]).Some? then 1 else 0)
  {
  }

  lemma {:induction false} CallKeepsLine(s: Session, call: Call)
    ensures Line(After(s, call)) == Line(s) && s.handled <= After(s, call).handled
  {
    match call
    case Transact(id, _, _) =>
      AwaitKeepsOrder(s.pending, s.wire, s.fate, id);
      var a := AwaitResponse(s.pending, s.wire, s.fate, id);
      assert Line(After(s, call)) == s.handled + (a.pending + Requests(a.wire));
    case Run =>
    case Wait => WaitKeepsLine(s);
  }

  /** FIFO conservation: over every interleaving of calls, no notification is lost, duplicated or reordered. */
  lemma {:induction false} LineConserved(s: Session, calls: seq<Call>)
    ensures Line(AfterAll(s, calls)) == Line(s) && s.handled <= AfterAll(s, calls).handled
    decreases |calls|
  {
    if calls != [] {
      CallKeepsLine(s, calls[0]);
      LineConserved(After(s, calls[0]), calls[1..]);
    }
  }

  lemma {:induction false} UpdatesConcat(a: seq<Request>, b: seq<Request>)
    ensures Updates(a + b) == Updates(a) + Updates(b)
  {
    if a == [] {
      assert a + b == b;
    } else {
      ConsConcat(a, b);
      UpdatesConcat(a[1..], b);
      Associative(if UpdateOf(a[0]).Some? then [UpdateOf(a[0]).value] else [], Updates(a[1..]), Updates(b));
    }
  }

  lemma {:induction false} EchoRepliesConcat(a: seq<Request>, b: seq<Request>)
    ensures EchoReplies(a + b) == EchoReplies(a) + EchoReplies(b)
  {
    if a == [] {
      assert a + b == b;
    } else {
      ConsConcat(a, b);
      EchoRepliesConcat(a[1..], b);
      Associative(if a[0].meth == "echo" then [EchoReply(a[0])] else [], EchoReplies(a[1..]), EchoReplies(b));
    }
  }

  /** Updates applied, then queued, then on the wire, concatenated, are the updates the server sent. */
  lemma {:induction false} UpdatesConserved(s: Session, calls: seq<Call>)
    ensures var t := AfterAll(s, calls);
            Updates(t.handled) + Updates(t.pending) + Updates(Requests(t.wire))
            == Updates(s.handled) + Updates(s.pending) + Updates(Requests(s.wire))
  {
    LineConserved(s, calls);
    LineUpdates(s);
    LineUpdates(AfterAll(s, calls));
  }

  /** The notifications up to and including the first update. */
  function ThroughUpdate(reqs: seq<Request>): seq<Request> {
    if reqs == [] then []
    else if UpdateOf(reqs[0]).Some? then [reqs[0]]
    else [reqs[0]] + ThroughUpdate(reqs[1..])
  }

  lemma {:induction false} ThroughUpdateStops(reqs: seq<Request>)
    ensures ThroughUpdate(reqs) <= reqs
    ensures |Updates(ThroughUpdate(reqs))| == if Updates(reqs) == [] then 0 else 1
    ensures Updates(reqs) == [] ==> ThroughUpdate(reqs) == reqs
    ensures Updates(reqs) != [] ==> UpdateOf(ThroughUpdate(reqs)[|ThroughUpdate(reqs)| - 1]).Some?
  {
    if reqs != [] && UpdateOf(reqs[0]).Some? {
      assert [reqs[0]][1..] == [];
    } else if reqs != [] {
      var rest := ThroughUpdate(reqs[1..]);
      ThroughUpdateStops(reqs[1..]);
      assert ([reqs[0]] + rest)[1..] == rest;
      NilConcat(Updates(reqs[1..]));
      NilConcat(Updates(rest));
    }
  }

  /** One step takes the first notification off the line, or a stray response that is not on it. */
  lemma {:induction false} LineStep(s: Session)
    requires s.pending != [] || s.wire != []
    ensures var line, line' := s.pending + Requests(s.wire), AfterNext(s).pending + Requests(AfterNext(s).wire);
            if Next(s).Req? then line != [] && line[0] == Next(s).request && line[1..] == line' else line == line'
  {
  }

  /** One step of the wait and the replies still to be written. */
  lemma {:induction false} EchoStep(s: Session)
    requires s.pending != [] || s.wire != []
    ensures var line, line' := s.pending + Requests(s.wire), AfterNext(s).pending + Requests(AfterNext(s).wire);
            s.written + EchoReplies(ThroughUpdate(line)) ==
            AfterNext(s).written + if IsUpdate(Next(s)) then [] else EchoReplies(ThroughUpdate(line'))
  {
    LineStep(s);
    var line' := AfterNext(s).pending + Requests(AfterNext(s).wire);
    if Next(s).Req? {
      var later := if IsUpdate(Next(s)) then [] else ThroughUpdate(line');
      EchoRepliesConcat([Next(s).request], later);
      NilConcat([Next(s).request]);
      Associative(s.written, EchoReplies([Next(s).request]), EchoReplies(later));
    }
  }

  /** The echo requests among `reqs`, in order. */
  function EchoRequests(reqs: seq<Request>): seq<Request> {
    if reqs == [] then [] else (if reqs[0].meth == "echo" then [reqs[0]] else []) + EchoRequests(reqs[1..])
  }

  /**
   RFC 7047, section 4.1.11: the reply returns the parameters of the request under its id; without one, under "echo".
   */
  ghost predicate Echoes(reply: Message, request: Request) {
    && reply.Resp? && reply.response.result == Some(request.params) && reply.response.error == None
    && (request.id.Some? ==> reply.response.id == request.id.value)
    && (request.id.None? ==> reply.response.id == StringId("echo"))
  }

  lemma {:induction false} EchoRepliesEcho(reqs: seq<Request>)
    ensures |EchoReplies(reqs)| == |EchoRequests(reqs)|
    ensures forall i :: 0 <= i < |EchoReplies(reqs)| ==> Echoes(EchoReplies(reqs)[i], EchoRequests(reqs)[i])
  {
    if reqs != [] {
      EchoRepliesEcho(reqs[1..]);
    }
  }

  /** Waiting answers each echo request it takes once, in order, with the request's own id and parameters. */
  lemma {:induction false} WaitAnswersEchoes(s: Session) returns (replies: seq<Message>)
    ensures AfterWait(s).written == s.written + replies
    ensures var requests := EchoRequests(ThroughUpdate(s.pending + Requests(s.wire)));
            |replies| == |requests| && forall i :: 0 <= i < |replies| ==> Echoes(replies[i], requests[i])
  {
    replies := EchoReplies(ThroughUpdate(s.pending + Requests(s.wire)));
    WaitWritesReplies(s);
    EchoRepliesEcho(ThroughUpdate(s.pending + Requests(s.wire)));
  }

  lemma {:induction false} WaitWritesReplies(s: Session)
    ensures AfterWait(s).written == s.written + EchoReplies(ThroughUpdate(s.pending + Requests(s.wire)))
    decreases |s.pending| + |s.wire|
  {
    if s.pending == [] && s.wire == [] {
      NilConcat(s.written);
    } else {
      EchoStep(s);
      NilConcat(AfterNext(s).written);
      if !IsUpdate(Next(s)) {
        WaitWritesReplies(AfterNext(s));
      }
    }
  }

  /** Waiting handles exactly the notifications up to and including the first update; all of them when there is none. */
  lemma {:induction false} WaitTakesThroughUpdate(s: Session)
    ensures AfterWait(s).handled == s.handled + ThroughUpdate(s.pending + Requests(s.wire))
    ensures Updates(s.pending + Requests(s.wire)) == [] ==> AfterWait(s).pending == [] && AfterWait(s).wire == []
    decreases |s.pending| + |s.wire|
  {
    if s.pending != [] || s.wire != [] {
      LineStep(s);
      var s' := AfterNext(s);
      if !IsUpdate(Next(s)) {
        WaitTakesThroughUpdate(s');
      }
    }
  }

  lemma {:induction false} LineUpdates(s: Session)
    ensures Updates(Line(s)) == Updates(s.handled) + Updates(s.pending) + Updates(Requests(s.wire))
  {
    UpdatesConcat(s.handled + s.pending, Requests(s.wire));
    UpdatesConcat(s.handled, s.pending);
  }

  // -------------------------------------------------------------- end to end

  lemma {:induction false} AppliedPrefix(history: seq<Applied>, updates: seq<Json>, done: seq<Json>, left: seq<Json>)
    requires updates != [] && UpdatesIn(history) == [updates[0]] + done && done + left == updates[1..]
    ensures |history| <= |updates| && left == updates[|history|..]
    ensures forall i :: 0 <= i < |history| ==> history[i].update == updates[i]
  {
  }

  /**
   A monitoring client whose server makes `updates` (the reply first) is, after any calls, at exactly the
   server state its processed updates lead to, and what it has not processed is still to come, in order.
   */
  lemma {:induction false} ReplicaFollowsServer(
    parse: UuidParser, base: Tables, names: set<string>, states: seq<Db>, updates: seq<Json>,
    s: Session, calls: seq<Call>, history: seq<Applied>)
    requires NoRows(base, names) && ServerHistory(parse, names, states, updates) && updates != []
    requires Updates(Line(s)) == updates[1..]
    requires AppliedOk(history)
    requires UpdatesIn(history) == [updates[0]] + Updates(AfterAll(s, calls).handled)
    ensures var t := AfterAll(s, calls);
            && |history| <= |updates|
            && Agrees(Replay(parse, base, history), StateAt(names, states, |history|))
            && Updates(t.pending + Requests(t.wire)) == updates[|history|..]
  {
    var t := AfterAll(s, calls);
    LineConserved(s, calls);
    var left := t.pending + Requests(t.wire);
    assert Line(t) == t.handled + left;
    UpdatesConcat(t.handled, left);
    AppliedPrefix(history, updates, Updates(t.handled), Updates(left));
    ReplicaAgreement(parse, base, names, states, updates, history);
  }

  // --------------------------------------------------------- from the first byte

  /** A session that has received nothing yet from the socket. */
  function Opened(parse: Parser, chunks: seq<Chunk>): Session {
    Session([], [], Messages(parse, Flat(chunks)), [], StreamEnd(parse, Flat(chunks)))
  }

  /** What a request answered in session `s` returns to its caller. */
  function ReplyTo(s: Session, id: int): Result<Json, Error> {
    TransactOutcome(AwaitResponse(s.pending, s.wire, s.fate, id).outcome)
  }

  function AsMessages(reqs: seq<Request>): (ms: seq<Message>)
    ensures |ms| == |reqs|
  {
    seq(|reqs|, i requires 0 <= i < |reqs| => Req(reqs[i]))
  }

  /**
   All that a server sends on a connection whose first two requests are for the schema and for a monitor: the two
   replies, notifications before each, and everything after.
   */
  datatype Script = Script(
    early: seq<Request>, schemaReply: Json, between: seq<Request>, monitorReply: Json, rest: seq<Message>)

  function Reply(id: int, result: Json): Message { Resp(Response(Some(result), None, NumberId(id))) }

  function ScriptMessages(p: Script): seq<Message> {
    AsMessages(p.early) + [Reply(1, p.schemaReply)]
    + (AsMessages(p.between) + [Reply(2, p.monitorReply)] + p.rest)
  }

  /** The script as bytes: objects with brace-free gaps, each of which parses to its message. */
  ghost predicate Writes(parse: Parser, chunks: seq<Chunk>, sent: seq<Sent>, tail: seq<byte>, messages: seq<Message>) {
    && Flat(chunks) == RenderAll(sent) + tail && NoOpen(tail) && |messages| == |sent|
    && (forall i :: 0 <= i < |sent| ==> SentOk(sent[i]))
    && (forall i :: 0 <= i < |sent| ==> parse(Render(sent[i].obj)) == Some(messages[i]))
  }

  /** What a request returns, by the first response after it: its result, its error, or the complaint of another id. */
  lemma {:induction false} ReplyOf(s: Session, id: int, queued: seq<Request>, resp: Response, rest: seq<Message>)
    requires s.wire == AsMessages(queued) + [Resp(resp)] + rest
    ensures resp.id != NumberId(id) ==> ReplyTo(s, id).Err? && ReplyTo(s, id).error.UnexpectedId?
    ensures resp.id == NumberId(id) && resp.error.Some? ==> ReplyTo(s, id) == Err(RpcFailure(resp.error.value))
    ensures resp.id == NumberId(id) && resp.error.None? && resp.result.Some? ==> ReplyTo(s, id) == Ok(resp.result.value)
    ensures resp.id == NumberId(id) && resp.error.None? && resp.result.None? ==> ReplyTo(s, id) == Ok(Null)
  {
    assert AsMessages(queued) == seq(|queued|, i requires 0 <= i < |queued| => Req(queued[i]));
    AwaitFindsFirstResponse(s.pending, queued, resp, rest, s.fate, id);
  }

  /** Without a response it returns the error that ends the stream. */
  lemma {:induction false} NoReply(s: Session, id: int, queued: seq<Request>)
    requires s.wire == AsMessages(queued)
    ensures ReplyTo(s, id) == Err(s.fate)
    decreases |queued|
  {
    if queued != [] {
      assert s.wire[1..] == AsMessages(queued[1..]);
      NoReply(s.(pending := s.pending + [queued[0]], wire := s.wire[1..]), id, queued[1..]);
    }
  }

  /** The two requests get the replies meant for them, and what came around them is queued or still to come. */
  lemma {:induction false} ScriptDelivered(
    parse: Parser, chunks: seq<Chunk>, sent: seq<Sent>, tail: seq<byte>, p: Script,
    meth1: string, params1: Json, meth2: string, params2: Json)
    requires Writes(parse, chunks, sent, tail, ScriptMessages(p))
    ensures var s0 := Opened(parse, chunks);
            var s1 := AfterTransact(s0, 1, meth1, params1);
            var s2 := AfterTransact(s1, 2, meth2, params2);
            && ReplyTo(s0, 1) == Ok(p.schemaReply) && ReplyTo(s1, 2) == Ok(p.monitorReply)
            && s2.handled == [] && s2.pending == p.early + p.between && s2.wire == p.rest
  {
    ObjectStreamDelivered(parse, sent, ScriptMessages(p), tail);
    var s0 := Opened(parse, chunks);
    var later := AsMessages(p.between) + [Reply(2, p.monitorReply)] + p.rest;
    assert s0.wire == AsMessages(p.early) + [Reply(1, p.schemaReply)] + later;
    AwaitFindsFirstResponse([], p.early, Reply(1, p.schemaReply).response, later, s0.fate, 1);
    NilConcat(p.early);
    AwaitFindsFirstResponse(p.early, p.between, Reply(2, p.monitorReply).response, p.rest, s0.fate, 2);
  }

  // ------------------------------------------------- notifications of RFC 7047

  /** What a server sends a monitoring client: changes of the database, and notifications of other methods. */
  datatype Notice = Change(id: Json, tableUpdates: Json) | Other(req: Request)

  /** The update notification of RFC 7047, section 4.1.6: the monitor's id, then the table updates. */
  function UpdateNotification(id: Json, tableUpdates: Json): Request {
    Request("update", Array([id, tableUpdates]), None)
  }

  function Notification(n: Notice): Request {
    match n
    case Change(id, tableUpdates) => UpdateNotification(id, tableUpdates)
    case Other(req) => req
  }

  function Notifications(ns: seq<Notice>): (reqs: seq<Request>)
    ensures |reqs| == |ns| && forall i :: 0 <= i < |ns| ==> reqs[i] == Notification(ns[i])
  {
    seq(|ns|, i requires 0 <= i < |ns| => Notification(ns[i]))
  }

  ghost predicate OtherMethods(ns: seq<Notice>) {
    forall n :: n in ns && n.Other? ==> n.req.meth !in {"update", "update2", "update3"}
  }

  /** The table updates of the changes, in order. */
  function Changes(ns: seq<Notice>): seq<Json> {
    if ns == [] then []
    else (if ns[0].Change? then [ns[0].tableUpdates] else []) + Changes(ns[1..])
  }

  /** Which notifications carry an update, and that it is their second parameter. */
  lemma {:induction false} UpdateOfIff(req: Request, update: Json)
    ensures UpdateOf(req) == Some(update) <==>
            && (req.meth == "update" || req.meth == "update2" || req.meth == "update3")
            && exists id, more :: req.params == Array([id, update] + more)
  {
    if UpdateOf(req) == Some(update) {
      var items := req.params.items;
      assert items == [items[0], update] + items[2..];
    }
  }

  /** Whatever the id: the update applied for a change is its table updates. */
  lemma {:induction false} UpdateOfNotification(id: Json, tableUpdates: Json)
    ensures UpdateOf(UpdateNotification(id, tableUpdates)) == Some(tableUpdates)
  {
  }

  lemma {:induction false} UpdatesAreChanges(ns: seq<Notice>)
    requires OtherMethods(ns)
    ensures Updates(Notifications(ns)) == Changes(ns)
  {
    if ns != [] {
      assert Notifications(ns)[1..] == Notifications(ns[1..]);
      assert ns[0] in ns;
      UpdatesAreChanges(ns[1..]);
    }
  }

  lemma {:induction false} ChangesSplit(ns: seq<Notice>, k: nat)
    requires k <= |ns|
    ensures Changes(ns) == Changes(ns[..k]) + Changes(ns[k..])
  {
    if k == 0 {
      assert ns[..0] == [] && ns[0..] == ns;
    } else {
      ChangesSplit(ns[1..], k - 1);
      assert ns[..k][1..] == ns[1..][..k - 1] && ns[1..][k - 1..] == ns[k..];
      Associative(if ns[0].Change? then [ns[0].tableUpdates] else [], Changes(ns[..k][1..]), Changes(ns[k..]));
    }
  }

  /** What has been handled are the first notices, and the rest are still to come, in order. */
  lemma {:induction false} NoticesHandled(handled: seq<Request>, left: seq<Request>, ns: seq<Notice>)
    requires handled + left == Notifications(ns)
    ensures |handled| <= |ns| && handled == Notifications(ns[..|handled|]) && left == Notifications(ns[|handled|..])
  {
  }

  /**
   The same from bytes: a server whose script carries the initial contents in its monitor reply, an update notification
   for each later change, and any notifications of other methods, cut into reads in any way. After any calls the client
   has handled the first notices, and its tables are the server's after the changes among them.
   */
  lemma {:induction false} ReplicaFromBytes(
    parseMessage: Parser, chunks: seq<Chunk>, sent: seq<Sent>, tail: seq<byte>, p: Script,
    meth1: string, params1: Json, meth2: string, params2: Json,
    parse: UuidParser, base: Tables, names: set<string>, states: seq<Db>, notices: seq<Notice>,
    calls: seq<Call>, history: seq<Applied>)
    requires Writes(parseMessage, chunks, sent, tail, ScriptMessages(p))
    requires p.early + p.between + Requests(p.rest) == Notifications(notices) && OtherMethods(notices)
    requires NoRows(base, names) && ServerHistory(parse, names, states, [p.monitorReply] + Changes(notices))
    requires AppliedOk(history)
    requires UpdatesIn(history) == [p.monitorReply]
             + Updates(AfterAll(Monitored(parseMessage, chunks, meth1, params1, meth2, params2), calls).handled)
    ensures var t := AfterAll(Monitored(parseMessage, chunks, meth1, params1, meth2, params2), calls);
            && |t.handled| <= |notices| && t.handled == Notifications(notices[..|t.handled|])
            && t.pending + Requests(t.wire) == Notifications(notices[|t.handled|..])
            && var k := 1 + |Changes(notices[..|t.handled|])|;
               k <= |states| && Agrees(Replay(parse, base, history), StateAt(names, states, k))
  {
    ScriptDelivered(parseMessage, chunks, sent, tail, p, meth1, params1, meth2, params2);
    var s := Monitored(parseMessage, chunks, meth1, params1, meth2, params2);
    NilConcat(p.early + p.between);
    assert Line(s) == p.early + p.between + Requests(p.rest);
    var t := AfterAll(s, calls);
    UpdatesAreChanges(notices);
    ReplicaFollowsServer(parse, base, names, states, [p.monitorReply] + Changes(notices), s, calls, history);
    NoticesFollowed(s, calls, notices);
  }

  /** Of notices to come, any calls handle the first ones; each change among them is one update. */
  lemma {:induction false} NoticesFollowed(s: Session, calls: seq<Call>, notices: seq<Notice>)
    requires Line(s) == Notifications(notices) && OtherMethods(notices)
    ensures var t := AfterAll(s, calls);
            && |t.handled| <= |notices| && t.handled == Notifications(notices[..|t.handled|])
            && t.pending + Requests(t.wire) == Notifications(notices[|t.handled|..])
            && Updates(t.handled) == Changes(notices[..|t.handled|])
  {
    var t := AfterAll(s, calls);
    LineConserved(s, calls);
    Associative(t.handled, t.pending, Requests(t.wire));
    NoticesHandled(t.handled, t.pending + Requests(t.wire), notices);
    UpdatesAreChanges(notices[..|t.handled|]);
  }

  /** The session after the two opening requests. */
  function Monitored(parse: Parser, chunks: seq<Chunk>, meth1: string, params1: Json, meth2: string,
        params2: Json): Session {
    AfterTransact(AfterTransact(Opened(parse, chunks), 1, meth1, params1), 2, meth2, params2)
  }
}
