/** The JSON-RPC connection: framed receive, request/response matching and the notification queue. */
module JsonRpc {
  import opened Common
  import opened Bytes
  import opened Framing
  import opened Rpc
  import opened Receive

  const ID_MODULUS := 0x1_0000_0000_0000_0000

  datatype Awaited = Awaited(outcome: Result<Response, Error>, pending: seq<Request>, wire: seq<Message>)

  /**
   What waiting for a response does to the queue and to the messages still on the wire, which end in `fate`.
   */
  function AwaitResponse(pending: seq<Request>, wire: seq<Message>, fate: Error, expected: int): Awaited
    decreases |wire|
  {
    if wire == [] then Awaited(Err(fate), pending, [])
    else
      match wire[0]
      case Resp(resp) =>
        var outcome := if resp.id == NumberId(expected) then Ok(resp)
                       else Err(UnexpectedId(expected, if resp.id.NumberId? then resp.id.n else 0));
        Awaited(outcome, pending, wire[1..])
      case Req(req) => AwaitResponse(pending + [req], wire[1..], fate, expected)
  }

  /** No notification is lost, duplicated or reordered by waiting: queue followed by wire stays the same. */
  lemma {:induction false} AwaitKeepsOrder(pending: seq<Request>, wire: seq<Message>, fate: Error, expected: int)
    ensures var a := AwaitResponse(pending, wire, fate, expected);
            a.pending + Requests(a.wire) == pending + Requests(wire)
    decreases |wire|
  {
    if wire != [] && wire[0].Req? {
      AwaitKeepsOrder(pending + [wire[0].request], wire[1..], fate, expected);
      assert pending + [wire[0].request] + Requests(wire[1..]) == pending + Requests(wire);
    }
  }

  /**
   What waiting yields: the first response on the wire if it carries the expected id, and everything before it is
   queued.
   */
  lemma {:induction false} AwaitFindsFirstResponse(
    pending: seq<Request>, queued: seq<Request>, resp: Response, rest: seq<Message>, fate: Error, expected: int)
    ensures var wire := seq(|queued|, i requires 0 <= i < |queued| => Req(queued[i])) + [Resp(resp)] + rest;
            var a := AwaitResponse(pending, wire, fate, expected);
            a.pending == pending + queued && a.wire == rest
            && (resp.id == NumberId(expected) ==> a.outcome == Ok(resp))
            && (resp.id != NumberId(expected) ==> a.outcome.Err? && a.outcome.error.UnexpectedId?)
            && (a.outcome.Err? ==> a.outcome.error.expected == expected)
    decreases |queued|
  {
    var wire := seq(|queued|, i requires 0 <= i < |queued| => Req(queued[i])) + [Resp(resp)] + rest;
    if queued == [] {
      assert wire == [Resp(resp)] + rest;
      assert wire[1..] == rest;
    } else {
      var tail := queued[1..];
      assert wire[1..] == seq(|tail|, i requires 0 <= i < |tail| => Req(tail[i])) + [Resp(resp)] + rest;
      AwaitFindsFirstResponse(pending + [queued[0]], tail, resp, rest, fate, expected);
      assert pending + [queued[0]] + tail == pending + queued;
    }
  }

  lemma {:induction false} RunNext(buf: seq<byte>, i: nat)
    requires i < |buf|
    ensures Run(Idle, buf[..i + 1]) == Step(Run(Idle, buf[..i]), buf[i])
    ensures NoOpen(buf[..i]) && buf[i] != OPEN ==> NoOpen(buf[..i + 1])
    ensures NoOpen(buf[..i]) && buf[i] == OPEN ==> FirstOpen(buf) == i
  {
    assert buf[..i + 1] == buf[..i] + [buf[i]];
    assert forall k :: 0 <= k < i ==> buf[..i][k] == buf[k];
    RunConcat(Idle, buf[..i], [buf[i]]);
    RunOne(Run(Idle, buf[..i]), buf[i]);
  }

  /** The frame on which the scanner completes. */
  lemma {:induction false} FrameFound(buf: seq<byte>, n: nat)
    requires 0 < n <= |buf| && Run(Idle, buf[..n]) == Complete && Run(Idle, buf[..n - 1]) != Complete
    ensures FirstOpen(buf) < n && FirstFrame(buf) == Some(Frame(FirstOpen(buf), n))
  {
    FirstEndLeast(Idle, buf, n);
    EndsAfterOpen(buf);
  }

  class Connection {
    /** The JSON message parser; nothing is assumed of it. */
    const parse: Parser
    var readBuf: seq<byte>
    var nextId: nat
    var pending: seq<Request>
    /** What the socket will still deliver. */
    var incoming: seq<Chunk>
    /** What has been written to the socket. */
    var written: seq<Message>

    constructor (parse: Parser, incoming: seq<Chunk>)
      ensures this.parse == parse && this.incoming == incoming
      ensures readBuf == [] && nextId == 1 && pending == [] && written == []
    {
      this.parse := parse;
      this.incoming := incoming;
      readBuf, nextId, pending, written := [], 1, [], [];
    }

    ghost predicate Valid()
      reads this
    {
      nextId < ID_MODULUS
    }

    /** Every byte not yet consumed, received or not. */
    function Stream(): seq<byte>
      reads this
    {
      readBuf + Flat(incoming)
    }

    /** The messages those bytes will be delivered as. */
    function Wire(): seq<Message>
      reads this
    {
      Messages(parse, Stream())
    }

    function Fate(): Error
      reads this
    {
      StreamEnd(parse, Stream())
    }

    method SendMessage(msg: Message)
      modifies this`written
      ensures written == old(written) + [msg]
    {
      written := written + [msg];
    }

    method Notify(meth: string, params: Json)
      modifies this`written
      ensures written == old(written) + [Req(Request(meth, params, None))]
    {
      SendMessage(Req(Request(meth, params, None)));
    }

    method RecvMessage() returns (r: Result<Message, Error>)
      modifies this`readBuf, this`incoming
      ensures (r, Stream()) == Take(parse, old(Stream()))
      ensures |incoming| <= |old(incoming)|
      ensures r.Err? ==> r.error == old(Fate()) && old(Wire()) == [] && Stream() == old(Stream())
      ensures r.Ok? ==> old(Wire()) == [r.value] + Wire() && Fate() == old(Fate())
    {
      while true
        invariant Stream() == old(Stream()) && |incoming| <= |old(incoming)|
        decreases |incoming|
      {
        var frame := Scan();
        if frame.Some? {
          var start, end := frame.value.start, frame.value.end;
          FirstFrameMonotone(readBuf, Flat(incoming));
          match parse(readBuf[start..end]) {
            case None => return Err(BadJson);
            case Some(msg) =>
              readBuf := readBuf[end..];
              return Ok(msg);
          }
        }
        if incoming == [] {
          assert Stream() == readBuf;
          return Err(ConnectionClosed);
        }
        assert readBuf + Flat(incoming) == readBuf + incoming[0] + Flat(incoming[1..]);
        readBuf := readBuf + incoming[0];
        incoming := incoming[1..];
      }
    }

    /** The inner loop; its state is reset before every scan, which starts at the front of the buffer. */
    method Scan() returns (frame: Option<Frame>)
      ensures frame == FirstFrame(readBuf)
    {
      var depth: int := 0;
      var inString := false;
      var escapeNext := false;
      var jsonStart: Option<nat> := None;
      var i := 0;
      while i < |readBuf|
        invariant 0 <= i <= |readBuf|
        invariant depth >= 0 && (jsonStart.Some? <==> depth > 0)
        invariant jsonStart.None? ==> !inString && !escapeNext && NoOpen(readBuf[..i])
        invariant jsonStart.Some? ==> jsonStart.value == FirstOpen(readBuf) < i
        invariant Run(Idle, readBuf[..i]) == if depth == 0 then Idle else Inside(depth, inString, escapeNext)
      {
        var b := readBuf[i];
        RunNext(readBuf, i);
        if jsonStart.None? && b == OPEN {
          jsonStart := Some(i);
        }
        if jsonStart.Some? {
          if escapeNext {
            escapeNext := false;
          } else if b == BACKSLASH && inString {
            escapeNext := true;
          } else if b == QUOTE {
            inString := !inString;
          } else if b == OPEN && !inString {
            depth := depth + 1;
          } else if b == CLOSE && !inString {
            depth := depth - 1;
            if depth == 0 {
              FrameFound(readBuf, i + 1);
              return Some(Frame(jsonStart.value, i + 1));
            }
          }
        }
        i := i + 1;
      }
      assert readBuf[..i] == readBuf;
      FirstEndConcat(Idle, readBuf, []);
      return None;
    }

    method RecvResponse(expectedId: int) returns (r: Result<Response, Error>)
      modifies this`readBuf, this`incoming, this`pending
      ensures Awaited(r, pending, Wire()) == AwaitResponse(old(pending), old(Wire()), old(Fate()), expectedId)
      ensures Fate() == old(Fate())
    {
      while true
        invariant Fate() == old(Fate())
        invariant AwaitResponse(old(pending), old(Wire()), old(Fate()), expectedId)
               == AwaitResponse(pending, Wire(), Fate(), expectedId)
        decreases |Stream()|
      {
        var msg := RecvMessage();
        if msg.Err? {
          return Err(msg.error);
        }
        match msg.value {
          case Resp(resp) =>
            if resp.id != NumberId(expectedId) {
              return Err(UnexpectedId(expectedId, if resp.id.NumberId? then resp.id.n else 0));
            }
            return Ok(resp);
          case Req(req) =>
            pending := pending + [req];
        }
      }
    }

    method Transact(meth: string, params: Json) returns (r: Result<Json, Error>)
      requires Valid()
      modifies this
      ensures Valid() && nextId == (old(nextId) + 1) % ID_MODULUS && Fate() == old(Fate())
      ensures written == old(written) + [Req(Request(meth, params, Some(NumberId(old(nextId)))))]
      ensures var a := AwaitResponse(old(pending), old(Wire()), old(Fate()), old(nextId));
              pending == a.pending && Wire() == a.wire && r == TransactOutcome(a.outcome)
    {
      var id := nextId;
      nextId := (nextId + 1) % ID_MODULUS;
      SendMessage(Req(Request(meth, params, Some(NumberId(id)))));
      var response := RecvResponse(id);
      if response.Err? {
        return Err(response.error);
      }
      if response.value.error.Some? {
        return Err(RpcFailure(response.value.error.value));
      }
      return Ok(if response.value.result.Some? then response.value.result.value else Null);
    }

    method PopNotification() returns (r: Option<Request>)
      modifies this`pending
      ensures old(pending) == [] ==> r == None && pending == []
      ensures old(pending) != [] ==> r == Some(old(pending)[0]) && pending == old(pending)[1..]
    {
      if pending == [] {
        return None;
      }
      r := Some(pending[0]);
      pending := pending[1..];
    }
  }

  function TransactOutcome(outcome: Result<Response, Error>): Result<Json, Error> {
    match outcome
    case Err(e) => Err(e)
    case Ok(resp) =>
      if resp.error.Some? then Err(RpcFailure(resp.error.value))
      else Ok(if resp.result.Some? then resp.result.value else Null)
  }
}
