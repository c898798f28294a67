/** Multipart dumps: what they return, and the echo requests answered meanwhile. */
module Dumps {
  import opened Common
  import opened Seqs
  import opened VConn

  function OfKind(msgs: seq<Msg>, kind: Kind): seq<Msg> {
    if msgs == [] then [] else (if msgs[0].kind == kind then [msgs[0]] else []) + OfKind(msgs[1..], kind)
  }

  /** The entries of reply parts that announce more, and of a last one that does not. */
  ghost predicate CompleteAnswer<Entry(!new)>(parts: seq<Msg>, parse: Parts<Entry>) {
    && parts != []
    && forall i :: 0 <= i < |parts| ==>
       parse(parts[i].body).Some? && (parse(parts[i].body).value.1 <==> i < |parts| - 1)
  }

  function Entries<Entry(!new)>(parts: seq<Msg>, parse: Parts<Entry>): seq<Entry> {
    if parts == [] then []
    else (if parse(parts[0].body).Some? then parse(parts[0].body).value.0 else []) + Entries(parts[1..], parse)
  }

  /** Echo replies carry the transaction id and the body of their requests. */
  function EchoesOf(version: Version, requests: seq<Msg>): seq<Msg> {
    seq(|requests|, i requires 0 <= i < |requests| => EchoOf(version, requests[i]))
  }

  /** One reply for each request, in order: an echo reply of the version, with the request's own id and body. */
  predicate Echoed(version: Version, replies: seq<Msg>, requests: seq<Msg>) {
    && |replies| == |requests|
    && forall i :: 0 <= i < |requests| ==>
       && replies[i].kind == EchoReply && replies[i].version == version
       && replies[i].xid == requests[i].xid && replies[i].body == requests[i].body
  }

  function SentIn(events: seq<Event>): seq<Msg> {
    if events == [] then [] else (if events[0].Sent? then [events[0].msg] else []) + SentIn(events[1..])
  }

  lemma {:induction false} SentInConcat(a: seq<Event>, b: seq<Event>)
    ensures SentIn(a + b) == SentIn(a) + SentIn(b)
    decreases |a|
  {
    if a == [] {
      assert a + b == b;
    } else {
      ConsConcat(a, b);
      SentInConcat(a[1..], b);
      Associative(if a[0].Sent? then [a[0].msg] else [], SentIn(a[1..]), SentIn(b));
    }
  }

  /** What one message adds to the entries collected. */
  function EntriesIn<Entry(!new)>(m: Msg, parse: Parts<Entry>): seq<Entry> {
    if m.kind == MultipartReply && parse(m.body).Some? then parse(m.body).value.0 else []
  }

  /** A whole answer among echo requests and asynchronous messages, its last part last. */
  ghost predicate Arrives<Entry(!new)>(mixed: seq<Msg>, parse: Parts<Entry>) {
    && mixed != [] && mixed[|mixed| - 1].kind == MultipartReply && OfKind(mixed, Error) == []
    && CompleteAnswer(OfKind(mixed, MultipartReply), parse)
  }

  /**
   A dump returns the whole answer: when the switch's answer arrives interleaved in any way with echo requests and
   asynchronous messages, the entries of its parts are returned in order, each echo request is answered once, in
   order, with its own id and body, and what follows the last part is left for the next call.
   */
  lemma {:induction false} DumpReturnsAnswer<Entry(!new)>(
      l: Link, parse: Parts<Entry>, entries: seq<Entry>, mixed: seq<Msg>, rest: seq<Msg>)
      returns (events: seq<Event>)
    requires l.incoming == mixed + rest && Arrives(mixed, parse)
    ensures var (end, r) := AwaitParts(l, parse, entries);
            && r == Ok(entries + Entries(OfKind(mixed, MultipartReply), parse))
            && end.incoming == rest
            && end.trace == l.trace + events && SentIn(events) == EchoesOf(l.version, OfKind(mixed, EchoRequest))
    ensures Echoed(l.version, SentIn(events), OfKind(mixed, EchoRequest))
  {
    DumpResult(l, parse, entries, mixed, rest);
    events := DumpEchoes(l, parse, entries, mixed, rest);
  }

  lemma {:induction false} DumpResult<Entry(!new)>(
      l: Link, parse: Parts<Entry>, entries: seq<Entry>, mixed: seq<Msg>, rest: seq<Msg>)
    requires l.incoming == mixed + rest && Arrives(mixed, parse)
    ensures AwaitParts(l, parse, entries).0.incoming == rest
    ensures AwaitParts(l, parse, entries).1 == Ok(entries + Entries(OfKind(mixed, MultipartReply), parse))
    decreases |mixed|
  {
    if |mixed| == 1 {
      assert mixed == [mixed[0]] && l.incoming == [mixed[0]] + rest;
      LastPart(l, parse, entries, mixed[0]);
    } else {
      var now := EntriesIn(mixed[0], parse);
      DumpStep(l, parse, entries, mixed, rest);
      KindsSplit(l.version, mixed, parse);
      DumpResult(Skip(l), parse, entries + now, mixed[1..], rest);
      Associative(entries, now, Entries(OfKind(mixed[1..], MultipartReply), parse));
    }
  }

  lemma {:induction false} DumpEchoes<Entry(!new)>(
      l: Link, parse: Parts<Entry>, entries: seq<Entry>, mixed: seq<Msg>, rest: seq<Msg>)
      returns (events: seq<Event>)
    requires l.incoming == mixed + rest && Arrives(mixed, parse)
    ensures AwaitParts(l, parse, entries).0.trace == l.trace + events
    ensures SentIn(events) == EchoesOf(l.version, OfKind(mixed, EchoRequest))
    decreases |mixed|
  {
    if |mixed| == 1 {
      assert mixed == [mixed[0]] && l.incoming == [mixed[0]] + rest;
      LastPart(l, parse, entries, mixed[0]);
      events := [Received(mixed[0])];
    } else {
      DumpStep(l, parse, entries, mixed, rest);
      SkippedSent(l);
      KindsSplit(l.version, mixed, parse);
      var later := DumpEchoes(Skip(l), parse, entries + EntriesIn(mixed[0], parse), mixed[1..], rest);
      SentInConcat(Skipped(l), later);
      SkipAppends(l, later);
      events := Skipped(l) + later;
    }
  }

  /** One message before the last part. */
  lemma {:induction false} DumpStep<Entry(!new)>(
      l: Link, parse: Parts<Entry>, entries: seq<Entry>, mixed: seq<Msg>, rest: seq<Msg>)
    requires l.incoming == mixed + rest && |mixed| > 1 && Arrives(mixed, parse)
    ensures AwaitParts(l, parse, entries) == AwaitParts(Skip(l), parse, entries + EntriesIn(mixed[0], parse))
    ensures Skip(l).incoming == mixed[1..] + rest && Skip(l).version == l.version && Arrives(mixed[1..], parse)
  {
    assert l.incoming[0] == mixed[0] && l.incoming[1..] == mixed[1..] + rest;
    DumpTail(mixed, parse);
    NilConcat(entries);
  }

  lemma {:induction false} LastPart<Entry(!new)>(l: Link, parse: Parts<Entry>, entries: seq<Entry>, m: Msg)
    requires l.incoming != [] && l.incoming[0] == m && m.kind == MultipartReply
             && CompleteAnswer(OfKind([m], MultipartReply), parse)
    ensures var (end, r) := AwaitParts(l, parse, entries);
            && r == Ok(entries + Entries(OfKind([m], MultipartReply), parse)) && end == Receive(l)
            && SentIn([Received(m)]) == [] == EchoesOf(l.version, OfKind([m], EchoRequest))
  {
    assert [m][1..] == [] && OfKind([m], MultipartReply) == [m] && OfKind([m], EchoRequest) == [];
    assert Entries([m], parse) == parse(m.body).value.0 + [] == parse(m.body).value.0;
    assert [Received(m)][1..] == [];
  }

  /** What one message other than the last part makes the connection send. */
  lemma {:induction false} SkippedSent(l: Link)
    requires l.incoming != []
    ensures SentIn(Skipped(l)) == if l.incoming[0].kind == EchoRequest then [EchoOf(l.version, l.incoming[0])] else []
  {
    var first, reply := Skipped(l), Sent(EchoOf(l.version, l.incoming[0]));
    assert [reply][1..] == [] && first[1..] == if l.incoming[0].kind == EchoRequest then [reply] else [];
    assert SentIn([reply]) == [reply.msg] + SentIn([reply][1..]) == [reply.msg];
    assert SentIn(first) == [] + SentIn(first[1..]) == SentIn(first[1..]);
  }

  lemma {:induction false} KindsSplit<Entry(!new)>(version: Version, mixed: seq<Msg>, parse: Parts<Entry>)
    requires mixed != []
    ensures var m, later := mixed[0], mixed[1..];
            && EchoesOf(version, OfKind(mixed, EchoRequest)) ==
               (if m.kind == EchoRequest then [EchoOf(version, m)] else [])
                 + EchoesOf(version, OfKind(later, EchoRequest))
            && Entries(OfKind(mixed, MultipartReply), parse) ==
               EntriesIn(m, parse) + Entries(OfKind(later, MultipartReply), parse)
  {
    var m := mixed[0];
    var parts, later := OfKind(mixed, MultipartReply), OfKind(mixed[1..], MultipartReply);
    var requests, laterRequests := OfKind(mixed, EchoRequest), OfKind(mixed[1..], EchoRequest);
    if m.kind == MultipartReply {
      assert parts[0] == m && parts[1..] == later;
    } else {
      assert parts == [] + later == later;
      assert [] + Entries(later, parse) == Entries(later, parse);
    }
    if m.kind == EchoRequest {
      assert requests == [m] + laterRequests;
      assert EchoesOf(version, requests) == [EchoOf(version, m)] + EchoesOf(version, laterRequests);
    } else {
      assert requests == [] + laterRequests == laterRequests;
      assert [] + EchoesOf(version, laterRequests) == EchoesOf(version, laterRequests);
    }
  }

  /** The answer stays complete after the first message. */
  lemma {:induction false} DumpTail<Entry(!new)>(mixed: seq<Msg>, parse: Parts<Entry>)
    requires |mixed| > 1 && mixed[|mixed| - 1].kind == MultipartReply && OfKind(mixed, Error) == []
    requires CompleteAnswer(OfKind(mixed, MultipartReply), parse)
    ensures OfKind(mixed[1..], Error) == [] && CompleteAnswer(OfKind(mixed[1..], MultipartReply), parse)
    ensures mixed[0].kind == MultipartReply ==> parse(mixed[0].body).Some? && parse(mixed[0].body).value.1
    ensures mixed[0].kind != Error
  {
    var parts, later := OfKind(mixed, MultipartReply), OfKind(mixed[1..], MultipartReply);
    LastIsLast(mixed[1..]);
    NoneFirst(mixed, Error);
    if mixed[0].kind == MultipartReply {
      assert parts == [mixed[0]] + later && parts[0] == mixed[0];
      assert forall i :: 0 <= i < |later| ==> later[i] == parts[i + 1];
    } else {
      assert parts == [] + later == later;
    }
  }

  lemma {:induction false} NoneFirst(msgs: seq<Msg>, kind: Kind)
    requires msgs != []
    ensures OfKind(msgs, kind) == [] <==> msgs[0].kind != kind && OfKind(msgs[1..], kind) == []
  {
  }

  lemma {:induction false} LastIsLast(msgs: seq<Msg>)
    requires msgs != [] && msgs[|msgs| - 1].kind == MultipartReply
    ensures OfKind(msgs, MultipartReply) != []
  {
    if |msgs| > 1 {
      LastIsLast(msgs[1..]);
    }
  }

  // ------------------------------------------------------------ barriers waiting

  /** Messages a barrier waits through. */
  ghost predicate PassedOver(msgs: seq<Msg>) {
    forall m :: m in msgs ==> m.kind != Error && m.kind != BarrierReply
  }

  /**
   A barrier too answers every echo request it waits through once, in order, with its own id and body; it ends with
   the first error or barrier reply, or with the stream, and leaves what follows for the next call.
   */
  lemma {:induction false} BarrierAnswersEchoes(l: Link, passed: seq<Msg>, rest: seq<Msg>)
      returns (events: seq<Event>)
    requires l.incoming == passed + rest && PassedOver(passed)
    requires rest == [] || rest[0].kind == Error || rest[0].kind == BarrierReply
    ensures var (end, r) := AwaitBarrier(l);
            && end.trace == l.trace + events && Echoed(l.version, SentIn(events), OfKind(passed, EchoRequest))
            && (rest == [] ==> r == Err(Closed))
            && (rest != [] ==> end.incoming == rest[1..] && (r.Ok? <==> rest[0].kind == BarrierReply))
    decreases |passed|
  {
    if passed == [] {
      events := BarrierEnds(l, rest);
    } else {
      BarrierStep(l, passed, rest);
      var later := BarrierAnswersEchoes(Skip(l), passed[1..], rest);
      EchoedMore(l, passed, later);
      SkipAppends(l, later);
      events := Skipped(l) + later;
    }
  }

  lemma {:induction false} BarrierEnds(l: Link, rest: seq<Msg>) returns (events: seq<Event>)
    requires l.incoming == [] + rest && (rest == [] || rest[0].kind == Error || rest[0].kind == BarrierReply)
    ensures var (end, r) := AwaitBarrier(l);
            && end.trace == l.trace + events && SentIn(events) == []
            && (rest == [] ==> r == Err(Closed))
            && (rest != [] ==> end.incoming == rest[1..] && (r.Ok? <==> rest[0].kind == BarrierReply))
  {
    assert l.incoming == rest;
    if rest == [] {
      events := [];
    } else {
      events := [Received(rest[0])];
      assert events[1..] == [];
    }
  }

  lemma {:induction false} EchoedMore(l: Link, passed: seq<Msg>, later: seq<Event>)
    requires passed != [] && l.incoming != [] && l.incoming[0] == passed[0]
    requires Echoed(l.version, SentIn(later), OfKind(passed[1..], EchoRequest))
    ensures Echoed(l.version, SentIn(Skipped(l) + later), OfKind(passed, EchoRequest))
  {
  }

  lemma {:induction false} BarrierStep(l: Link, passed: seq<Msg>, rest: seq<Msg>)
    requires l.incoming == passed + rest && passed != [] && PassedOver(passed)
    ensures AwaitBarrier(l) == AwaitBarrier(Skip(l)) && Skip(l).version == l.version
    ensures Skip(l).incoming == passed[1..] + rest && PassedOver(passed[1..]) && l.incoming[0] == passed[0]
  {
  }
}
