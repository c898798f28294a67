/** Receiving from a chunked byte stream: what a sequence of receive calls yields, and that chunking is invisible. */
module Receive {
  import opened Common
  import opened Bytes
  import opened Framing
  import opened Rpc

  /** One successful socket read: between 1 and 4096 bytes. A read of 0 bytes is the end of the list. */
  type Chunk = c: seq<byte> | 0 < |c| <= 4096 witness [0]

  type Parser = seq<byte> -> Option<Message>

  function Flat(chunks: seq<Chunk>): seq<byte> {
    if chunks == [] then [] else chunks[0] + Flat(chunks[1..])
  }

  /** Outcome of receiving once from a byte stream, and the bytes left. A frame that does not parse stays. */
  function Take(parse: Parser, stream: seq<byte>): (r: (Result<Message, Error>, seq<byte>))
    ensures r.0.Ok? ==> |r.1| < |stream|
    ensures r.0.Err? ==> r.1 == stream
  {
    match FirstFrame(stream)
    case None => (Err(ConnectionClosed), stream)
    case Some(f) =>
      match parse(stream[f.start..f.end])
      case None => (Err(BadJson), stream)
      case Some(m) => (Ok(m), stream[f.end..])
  }

  datatype Received = Received(outcome: Result<Message, Error>, buf: seq<byte>, chunks: seq<Chunk>)

  /** The receive loop as written: scan the buffer from its start, and read one more chunk when nothing completes. */
  function RecvLoop(parse: Parser, buf: seq<byte>, chunks: seq<Chunk>): (r: Received)
    decreases |chunks|
  {
    match FirstFrame(buf)
    case Some(f) =>
      (match parse(buf[f.start..f.end])
       case None => Received(Err(BadJson), buf, chunks)
       case Some(m) => Received(Ok(m), buf[f.end..], chunks))
    case None =>
      if chunks == [] then Received(Err(ConnectionClosed), buf, [])
      else RecvLoop(parse, buf + chunks[0], chunks[1..])
  }

  /** The re-scanning loop computes a function of the byte stream alone. */
  lemma {:induction false} RecvLoopIsTake(parse: Parser, buf: seq<byte>, chunks: seq<Chunk>)
    ensures var r := RecvLoop(parse, buf, chunks);
            Take(parse, buf + Flat(chunks)) == (r.outcome, r.buf + Flat(r.chunks))
    decreases |chunks|
  {
    if FirstFrame(buf).Some? {
      FirstFrameMonotone(buf, Flat(chunks));
    } else if chunks == [] {
      assert buf + Flat(chunks) == buf;
    } else {
      RecvLoopIsTake(parse, buf + chunks[0], chunks[1..]);
      assert (buf + chunks[0]) + Flat(chunks[1..]) == buf + Flat(chunks);
    }
  }

  /** `n` receive calls in a row: their outcomes, and the bytes not consumed. */
  function RecvMany(parse: Parser, buf: seq<byte>, chunks: seq<Chunk>, n: nat)
    : (seq<Result<Message, Error>>, seq<byte>)
    decreases n
  {
    if n == 0 then ([], buf + Flat(chunks))
    else
      var r := RecvLoop(parse, buf, chunks);
      var (outcomes, left) := RecvMany(parse, r.buf, r.chunks, n - 1);
      ([r.outcome] + outcomes, left)
  }

  /** Chunk independence: two ways of cutting one byte stream into reads give the same messages and leftover. */
  lemma {:induction false} ChunkIndependence(
    parse: Parser, buf1: seq<byte>, chunks1: seq<Chunk>, buf2: seq<byte>, chunks2: seq<Chunk>, n: nat)
    requires buf1 + Flat(chunks1) == buf2 + Flat(chunks2)
    ensures RecvMany(parse, buf1, chunks1, n) == RecvMany(parse, buf2, chunks2, n)
    decreases n
  {
    if n > 0 {
      RecvLoopIsTake(parse, buf1, chunks1);
      RecvLoopIsTake(parse, buf2, chunks2);
      var r1, r2 := RecvLoop(parse, buf1, chunks1), RecvLoop(parse, buf2, chunks2);
      ChunkIndependence(parse, r1.buf, r1.chunks, r2.buf, r2.chunks, n - 1);
    }
  }

  function Rejections(n: nat): seq<Result<Message, Error>> {
    if n == 0 then [] else [Err(BadJson)] + Rejections(n - 1)
  }

  /** A frame the parser rejects is never removed, so every later call on that stream fails the same way. */
  lemma {:induction false} RejectedFrameStays(parse: Parser, buf: seq<byte>, chunks: seq<Chunk>, n: nat)
    requires RecvLoop(parse, buf, chunks).outcome == Err(BadJson)
    ensures RecvMany(parse, buf, chunks, n) == (Rejections(n), buf + Flat(chunks))
    decreases n
  {
    if n > 0 {
      var r := RecvLoop(parse, buf, chunks);
      RecvLoopIsTake(parse, buf, chunks);
      RecvLoopIsTake(parse, r.buf, r.chunks);
      RejectedFrameStays(parse, r.buf, r.chunks, n - 1);
    }
  }

  /** All messages a stream delivers before it ends or a frame is rejected. */
  function Messages(parse: Parser, stream: seq<byte>): seq<Message>
    decreases |stream|
  {
    var (outcome, rest) := Take(parse, stream);
    if outcome.Ok? then [outcome.value] + Messages(parse, rest) else []
  }

  /** The error that ends the stream. */
  function StreamEnd(parse: Parser, stream: seq<byte>): (e: Error)
    decreases |stream|
  {
    var (outcome, rest) := Take(parse, stream);
    if outcome.Ok? then StreamEnd(parse, rest) else outcome.error
  }

  /** An object on the wire, with whatever separates it from the one before. */
  datatype Sent = Sent(gap: seq<byte>, obj: Value)

  ghost predicate SentOk(s: Sent) { NoOpen(s.gap) && WellFormed(s.obj) && s.obj.Obj? }

  function RenderAll(sent: seq<Sent>): seq<byte> {
    if sent == [] then [] else sent[0].gap + Render(sent[0].obj) + RenderAll(sent[1..])
  }

  lemma {:induction false} TakeObject(parse: Parser, s: Sent, rest: seq<byte>, m: Message)
    requires SentOk(s) && parse(Render(s.obj)) == Some(m)
    ensures var stream := s.gap + Render(s.obj) + rest;
            Messages(parse, stream) == [m] + Messages(parse, rest)
            && StreamEnd(parse, stream) == StreamEnd(parse, rest)
  {
    FramingExact(s.gap, s.obj, rest);
    var stream := s.gap + Render(s.obj) + rest;
    assert Take(parse, stream) == (Ok(m), rest);
  }

  /**
   End to end: a server that writes well-formed objects has each of them delivered to the parser, once and in order.
   */
  lemma {:induction false} ObjectStreamDelivered(
      parse: Parser, sent: seq<Sent>, messages: seq<Message>, tail: seq<byte>)
    requires |messages| == |sent| && NoOpen(tail)
    requires forall i :: 0 <= i < |sent| ==> SentOk(sent[i])
    requires forall i :: 0 <= i < |sent| ==> parse(Render(sent[i].obj)) == Some(messages[i])
    ensures Messages(parse, RenderAll(sent) + tail) == messages
    ensures StreamEnd(parse, RenderAll(sent) + tail) == ConnectionClosed
    decreases |sent|
  {
    if sent == [] {
      assert RenderAll(sent) + tail == tail;
      RunIdle(tail);
      FirstEndConcat(Idle, tail, []);
    } else {
      assert SentOk(sent[0]);
      var rest := RenderAll(sent[1..]) + tail;
      TakeObject(parse, sent[0], rest, messages[0]);
      assert RenderAll(sent) + tail == sent[0].gap + Render(sent[0].obj) + rest;
      ObjectStreamDelivered(parse, sent[1..], messages[1..], tail);
      assert messages == [messages[0]] + messages[1..];
    }
  }
}
