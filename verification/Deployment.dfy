/**
 Templates and connection together: installing a NAT template over a connection, and reading flows back, from the
 bytes on the wire to what the switch does.
 */
module Deployment {
  import opened Common
  import opened Bytes
  import opened Seqs
  import opened FlowTable
  import opened Nat
  import opened Dumps
  import B = Barriers
  import V = VConn
  import C = Containers

  /** The flows sent in a history, in order. */
  function SentFlows(trace: seq<V.Event>): seq<seq<byte>> {
    if trace == [] then []
    else
      var n := |trace| - 1;
      SentFlows(trace[..n]) + if B.IsFlowMod(trace[n]) then [trace[n].msg.body] else []
  }

  /** No switch that honours barriers and explains the history rejected any flow in it. */
  ghost predicate AllAccepted(trace: seq<V.Event>) {
    forall a, i :: B.Explained(trace, a) && 0 <= i < |trace| && B.IsFlowMod(trace[i]) ==> i !in a.rejected
  }

  /** Every barrier answered and no error read, if the switch honours barriers. */
  ghost predicate Clean(trace: seq<V.Event>) {
    forall a :: B.Explained(trace, a) ==> B.Outstanding(trace) == 0 && B.NoErrors(trace)
  }

  lemma {:induction false} SentFlowsSnoc(trace: seq<V.Event>, e: V.Event)
    ensures SentFlows(trace + [e]) == SentFlows(trace) + if B.IsFlowMod(e) then [e.msg.body] else []
  {
    assert (trace + [e])[..|trace|] == trace;
  }

  lemma {:induction false} SentFlowsQuiet(trace: seq<V.Event>, events: seq<V.Event>)
    requires B.Quiet(events)
    ensures SentFlows(trace + events) == SentFlows(trace)
    decreases |events|
  {
    if events == [] {
      NilConcat(trace);
    } else {
      var n := |events| - 1;
      SnocConcat(trace, events);
      SplitAt(events, n);
      assert trace + events == trace + events[..n] + [events[n]];
      SentFlowsQuiet(trace, events[..n]);
      SentFlowsSnoc(trace + events[..n], events[n]);
    }
  }

  /**
   A synchronous flow that returns `Ok` on a clean connection: it is the one flow added, all are accepted, and it stays
   clean.
   */
  lemma {:induction false} SyncInstalls(l: V.Link, flow: seq<byte>)
    requires V.AfterSync(l, flow).1.Ok? && Clean(l.trace)
    ensures var trace := V.AfterSync(l, flow).0.trace;
            SentFlows(trace) == SentFlows(l.trace) + [flow] && Clean(trace) && AllAccepted(trace)
  {
    var trace := V.AfterSync(l, flow).0.trace;
    var parse: V.Parts<int> := s => None;
    var events := B.CallAppends(V.SendFlowSync(flow), l, parse);
    forall a | B.Explained(trace, a)
      ensures B.Outstanding(trace) == 0 && B.NoErrors(trace)
      ensures forall i :: 0 <= i < |trace| && B.IsFlowMod(trace[i]) ==> i !in a.rejected
    {
      B.ExplainedPrefix(l.trace, events, a);
      var _ := B.CallKeepsClean(V.SendFlowSync(flow), l, parse, a);
      B.LastBarrierSound(V.SendFlowSync(flow), l, parse, a);
    }
    SyncSends(l, flow);
  }

  lemma {:induction false} SyncSends(l: V.Link, flow: seq<byte>)
    requires V.AfterSync(l, flow).1.Ok?
    ensures SentFlows(V.AfterSync(l, flow).0.trace) == SentFlows(l.trace) + [flow]
  {
    var one := V.Send(l, V.FlowMod, flow);
    var two := V.Send(one, V.BarrierRequest, []);
    var quiet, reply := B.AwaitBarrierReads(two);
    SentFlowsSnoc(l.trace, one.trace[|l.trace|]);
    SentFlowsSnoc(one.trace, two.trace[|one.trace|]);
    SentFlowsQuiet(two.trace, quiet);
    SentFlowsSnoc(two.trace + quiet, V.Received(reply));
    NilConcat(SentFlows(one.trace));
    NilConcat(SentFlows(two.trace));
  }

  function Encoded(flows: seq<Flow>, encode: Flow -> seq<byte>): (s: seq<seq<byte>>)
    ensures |s| == |flows| && forall i :: 0 <= i < |flows| ==> s[i] == encode(flows[i])
  {
    seq(|flows|, i requires 0 <= i < |flows| => encode(flows[i]))
  }

  /**
   The loop of both `install` methods: each flow is sent and confirmed before the next. When it returns `Ok` on a
   clean connection, exactly these flows were added, in order, and every one was accepted.
   */
  method Install<Entry(!new)>(conn: V.Connection<Entry>, flows: seq<Flow>, encode: Flow -> seq<byte>)
      returns (r: Result<(), V.Failure>)
    requires Clean(conn.trace)
    modifies conn
    ensures r.Ok? ==> SentFlows(conn.trace) == SentFlows(old(conn.trace)) + Encoded(flows, encode) && Clean(conn.trace)
    ensures r.Ok? && flows != [] ==> AllAccepted(conn.trace)
  {
    NilConcat(SentFlows(conn.trace));
    assert Encoded(flows, encode)[..0] == [];
    for i := 0 to |flows|
      invariant SentFlows(conn.trace) == SentFlows(old(conn.trace)) + Encoded(flows, encode)[..i] && Clean(conn.trace)
      invariant i > 0 ==> AllAccepted(conn.trace)
    {
      ghost var before := conn.State();
      var sent := conn.SendFlowSync(encode(flows[i]));
      if sent.Err? {
        return Err(sent.error);
      }
      SyncInstalls(before, encode(flows[i]));
      Associative(SentFlows(old(conn.trace)), Encoded(flows, encode)[..i], [encode(flows[i])]);
      assert Encoded(flows, encode)[..i + 1] == Encoded(flows, encode)[..i] + [encode(flows[i])];
    }
    assert Encoded(flows, encode)[..|flows|] == Encoded(flows, encode);
    r := Ok(());
  }

  /** The tables of a switch that reads flows with `decode` and has put the given ones in force. */
  function TablesWith(tables: Tables, bodies: seq<seq<byte>>, decode: seq<byte> -> Flow): Tables
    decreases |bodies|
  {
    if bodies == [] then tables
    else TablesWith(tables[KeyOf(decode(bodies[0])) := decode(bodies[0]).actions], bodies[1..], decode)
  }

  /** A switch that reads these flows as they were meant ends with them installed in order. */
  lemma {:induction false} TablesAreInstalled(
      tables: Tables, flows: seq<Flow>, encode: Flow -> seq<byte>, decode: seq<byte> -> Flow)
    requires forall f :: f in flows ==> decode(encode(f)) == f
    ensures TablesWith(tables, Encoded(flows, encode), decode) == FlowTable.Install(tables, flows)
    decreases |flows|
  {
    if flows != [] {
      assert flows[0] in flows;
      assert Encoded(flows, encode)[1..] == Encoded(flows[1..], encode);
      TablesAreInstalled(tables[KeyOf(flows[0]) := flows[0].actions], flows[1..], encode, decode);
    }
  }

  /** What a switch that reads these flows as they were meant does with every packet once they are in force. */
  ghost predicate Serves(flows: seq<Flow>, encode: Flow -> seq<byte>, base: nat, treats: Arrival -> Trace) {
    forall tables: Tables, decode: seq<byte> -> Flow, a: Arrival ::
      Unused(tables, base) && (forall f :: f in flows ==> decode(encode(f)) == f) ==>
        RunTable(TablesWith(tables, Encoded(flows, encode), decode), a, base, {}) == treats(a)
  }

  lemma {:induction false} InstalledServes(
      flows: seq<Flow>, encode: Flow -> seq<byte>, base: nat, treats: Arrival -> Trace)
    requires forall tables: Tables, a: Arrival ::
               Unused(tables, base) ==> RunTable(FlowTable.Install(tables, flows), a, base, {}) == treats(a)
    ensures Serves(flows, encode, base, treats)
  {
    forall tables: Tables, decode: seq<byte> -> Flow, a: Arrival
      | Unused(tables, base) && forall f :: f in flows ==> decode(encode(f)) == f
      ensures RunTable(TablesWith(tables, Encoded(flows, encode), decode), a, base, {}) == treats(a)
    {
      TablesAreInstalled(tables, flows, encode, decode);
    }
  }

  /**
   `SnatGateway::install`, end to end: when it returns `Ok` on a clean connection, the switch has accepted every flow,
   and once it has read them it treats every packet by the gateway policy; at base table 253, up to new connections,
   which go nowhere.
   */
  method InstallSnat<Entry(!new)>(
      conn: V.Connection<Entry>, c: SnatConfig, base: nat, priority: nat, encode: Flow -> seq<byte>)
      returns (r: Result<(), V.Failure>, flows: seq<Flow>)
    requires base <= 253 && priority <= 65525 && Clean(conn.trace)
    modifies conn
    ensures flows == SnatFlows(c, base, priority)
    ensures r.Ok? ==> SentFlows(conn.trace) == SentFlows(old(conn.trace)) + Encoded(flows, encode)
    ensures r.Ok? ==> AllAccepted(conn.trace)
    ensures Serves(flows, encode, base, a => SentOn(SnatPolicy(c, a, StateAt(a, c.zone, base + 1)), base))
  {
    flows := SnatAllFlows(c, base, priority);
    InstalledServes(flows, encode, base, a => SentOn(SnatPolicy(c, a, StateAt(a, c.zone, base + 1)), base));
    assert flows != [];
    r := Install(conn, flows, encode);
  }

  /** `DnatService::install`, end to end. */
  method InstallDnat<Entry(!new)>(
      conn: V.Connection<Entry>, c: DnatConfig, base: nat, priority: nat, encode: Flow -> seq<byte>)
      returns (r: Result<(), V.Failure>, flows: seq<Flow>)
    requires base <= 253 && priority <= 65525 && Clean(conn.trace)
    modifies conn
    ensures flows == DnatFlows(c, base, priority)
    ensures r.Ok? ==> SentFlows(conn.trace) == SentFlows(old(conn.trace)) + Encoded(flows, encode)
    ensures r.Ok? ==> AllAccepted(conn.trace)
    ensures Serves(flows, encode, base, a => SentOn(DnatPolicy(c, a, StateAt(a, c.zone, base + 1)), base))
  {
    flows := DnatAllFlows(c, base, priority);
    InstalledServes(flows, encode, base, a => SentOn(DnatPolicy(c, a, StateAt(a, c.zone, base + 1)), base));
    assert flows != [];
    r := Install(conn, flows, encode);
  }

  // ---------------------------------------------------- encoders that lose detail

  /** What is left of actions on the wire: dropping is no action, and recirculation to no table is none. */
  function WireActions(actions: seq<Action>): seq<Action> {
    if actions == [] then [] else WireAction(actions[0]) + WireActions(actions[1..])
  }

  function WireAction(a: Action): seq<Action> {
    match a
    case Drop => []
    case Ct(flags, zone, recirc, translation) =>
      [Ct(flags, zone, if recirc == Some(NO_TABLE) then None else recirc, translation)]
    case _ => [a]
  }

  function WireForm(f: Flow): Flow { f.(actions := WireActions(f.actions)) }

  /** One action, and no recirculation to no table. */
  predicate Template(flows: seq<Flow>) {
    forall f :: f in flows ==> |f.actions| == 1 && (f.actions[0].Ct? ==> f.actions[0].recirc != Some(NO_TABLE))
  }

  lemma {:induction false} OneWireAction(actions: seq<Action>)
    requires |actions| == 1
    ensures actions == [actions[0]] && WireActions(actions) == WireAction(actions[0])
  {
    assert WireActions(actions[1..]) == [];
    NilConcat(WireAction(actions[0]));
  }

  /** Among flows of templates, the wire form tells any two apart. */
  lemma {:induction false} TemplateWireForms(f: Flow, g: Flow)
    requires Template([f, g]) && WireForm(f) == WireForm(g)
    ensures f == g
  {
    assert f in [f, g] && g in [f, g];
    OneWireAction(f.actions);
    OneWireAction(g.actions);
    assert WireForm(f).actions == WireAction(f.actions[0]) && WireForm(g).actions == WireAction(g.actions[0]);
    assert f.actions[0] == g.actions[0];
    assert f == WireForm(f).(actions := [f.actions[0]]) && g == WireForm(g).(actions := [g.actions[0]]);
  }

  /** The first flow of that wire form, or the number of flows. */
  function IndexOf(flows: seq<Flow>, wire: Flow): (i: nat)
    ensures i <= |flows| && (i < |flows| ==> WireForm(flows[i]) == wire)
    ensures i == |flows| ==> forall f :: f in flows ==> WireForm(f) != wire
    decreases |flows|
  {
    if flows == [] || WireForm(flows[0]) == wire then 0 else 1 + IndexOf(flows[1..], wire)
  }

  /**
   The hypothesis of `Serves` can be met although an encoder cannot tell all flows apart: one that sends the same bytes
   for all flows of one wire form, `[Drop]` and `[]` among them, is read back right on the flows of any template.
   */
  lemma {:induction false} LossyEncoderReadBack(flows: seq<Flow>)
      returns (encode: Flow -> seq<byte>, decode: seq<byte> -> Flow)
    requires Template(flows)
    ensures forall f, g :: WireForm(f) == WireForm(g) ==> encode(f) == encode(g)
    ensures forall f: Flow :: encode(f.(actions := [Drop])) == encode(f.(actions := []))
    ensures forall f :: f in flows ==> decode(encode(f)) == f
  {
    encode := f => Zeros(IndexOf(flows, WireForm(f)));
    decode := s => if |s| < |flows| then flows[|s|] else Flow(0, 0, ANY, []);
    assert WireActions([Drop]) == [] + WireActions([Drop][1..]) == [];
    forall f | f in flows
      ensures decode(encode(f)) == f
    {
      var i := IndexOf(flows, WireForm(f));
      assert flows[i] in flows;
      TemplateWireForms(f, flows[i]);
    }
  }

  /** The NAT templates are such, up to the last base table at which they forward. */
  lemma {:induction false} SnatIsTemplate(c: SnatConfig, base: nat, priority: nat)
    requires base <= 252
    ensures Template(SnatFlows(c, base, priority))
  {
    assert Template(SnatTracking(c, base, priority)) && Template(SnatOutput(c, base + 2, priority));
    assert Template(SnatFixed(c, base + 1, priority)) && Template(SnatNew(c, base + 1, priority));
    TemplateConcat(SnatFixed(c, base + 1, priority), SnatNew(c, base + 1, priority));
    TemplateConcat(SnatTracking(c, base, priority), SnatDeciding(c, base + 1, priority));
    TemplateConcat(SnatTracking(c, base, priority) + SnatDeciding(c, base + 1, priority),
      SnatOutput(c, base + 2, priority));
  }

  lemma {:induction false} TemplateConcat(a: seq<Flow>, b: seq<Flow>)
    requires Template(a) && Template(b)
    ensures Template(a + b)
  {
  }

  lemma {:induction false} DnatIsTemplate(c: DnatConfig, base: nat, priority: nat)
    requires base <= 252
    ensures Template(DnatFlows(c, base, priority))
  {
    assert Template(DnatTracking(c, base, priority)) && Template(DnatOutput(c, base + 2, priority));
    assert Template(DnatFixed(c, base + 1, priority)) && Template(RuleFlows(c.rules, c, base + 1, priority));
  }

  // ------------------------------------------------------------- flows read back

  /** The reply parser the connection uses; a body on which it stops the program counts as unreadable. */
  function ReadPart(body: seq<byte>): Option<(seq<C.FlowStatsEntry>, bool)> {
    match C.ParsedReply(body)
    case Returned(Ok(part)) => Some(part)
    case _ => None
  }

  function Flags(more: bool): u16 { if more then 1 else 0 }

  /** One part of an answer; all but the last announce more. */
  function PartBytes(es: seq<C.FlowStatsEntry>, more: bool): seq<byte> {
    [0, 1] + Be(Flags(more), 2) + Zeros(4) + C.EntriesBytes(es)
  }

  ghost predicate AllSendable(parts: seq<seq<C.FlowStatsEntry>>) {
    forall part, e :: part in parts && e in part ==> C.Sendable(e)
  }

  function Concatenated(parts: seq<seq<C.FlowStatsEntry>>): seq<C.FlowStatsEntry> {
    if parts == [] then [] else C.Normals(parts[0]) + Concatenated(parts[1..])
  }

  /** The messages of an answer, in order, as the switch encodes it. */
  ghost predicate IsAnswer(msgs: seq<V.Msg>, parts: seq<seq<C.FlowStatsEntry>>) {
    |msgs| == |parts| && forall i :: 0 <= i < |parts| ==> msgs[i].body == PartBytes(parts[i], i < |parts| - 1)
  }

  lemma {:induction false} PartReadBack(es: seq<C.FlowStatsEntry>, more: bool)
    requires forall e :: e in es ==> C.Sendable(e)
    ensures ReadPart(PartBytes(es, more)) == Some((C.Normals(es), more))
  {
    PartParsed(es, Flags(more), PartBytes(es, more));
    assert Flags(more) % 2 == 1 <==> more;
  }

  lemma {:induction false} PartParsed(es: seq<C.FlowStatsEntry>, flags: u16, body: seq<byte>)
    requires forall e :: e in es ==> C.Sendable(e)
    requires body == [0, 1] + Be(flags, 2) + Zeros(4) + C.EntriesBytes(es)
    ensures ReadPart(body) == Some((C.Normals(es), flags % 2 == 1))
  {
    C.ReplyRoundTrip(es, flags, []);
    NilConcat(body);
  }

  lemma {:induction false} EntriesOfAnswer(msgs: seq<V.Msg>, parts: seq<seq<C.FlowStatsEntry>>)
    requires IsAnswer(msgs, parts) && AllSendable(parts)
    ensures Entries(msgs, ReadPart) == Concatenated(parts)
    decreases |parts|
  {
    if parts != [] {
      assert parts[0] in parts;
      PartReadBack(parts[0], 0 < |parts| - 1);
      forall i | 0 <= i < |parts| - 1
        ensures msgs[1..][i].body == PartBytes(parts[1..][i], i < |parts[1..]| - 1)
      {
        assert msgs[i + 1].body == PartBytes(parts[i + 1], i + 1 < |parts| - 1);
      }
      EntriesOfAnswer(msgs[1..], parts[1..]);
    }
  }

  /**
   A dump, from bytes to entries: when the switch's flow entries arrive in any number of parts, interleaved with echo
   requests and asynchronous messages, the dump returns all entries in order, each with its match in normal form.
   */
  lemma {:induction false} DumpReturnsFlows(
      l: V.Link, mixed: seq<V.Msg>, rest: seq<V.Msg>, parts: seq<seq<C.FlowStatsEntry>>)
    requires l.incoming == mixed + rest
    requires mixed != [] && mixed[|mixed| - 1].kind == V.MultipartReply && OfKind(mixed, V.Error) == []
    requires IsAnswer(OfKind(mixed, V.MultipartReply), parts) && AllSendable(parts)
    ensures V.AwaitParts(l, ReadPart, []).1 == Ok(Concatenated(parts))
            && V.AwaitParts(l, ReadPart, []).0.incoming == rest
  {
    var msgs := OfKind(mixed, V.MultipartReply);
    LastIsLast(mixed);
    forall i | 0 <= i < |parts|
      ensures ReadPart(msgs[i].body) == Some((C.Normals(parts[i]), i < |parts| - 1))
    {
      assert parts[i] in parts;
      PartReadBack(parts[i], i < |parts| - 1);
    }
    var _ := DumpReturnsAnswer(l, ReadPart, [], mixed, rest);
    EntriesOfAnswer(msgs, parts);
    NilConcat(Concatenated(parts));
  }
}
