/**
 The NAT templates: the flows of an SNAT gateway and of a DNAT service, and what a switch that runs them
 does with every packet.
 */
module Nat {
  import opened Common
  import opened FlowTable

  /** Source or destination rewriting to `min`, or to the range up to `max`. */
  function NatTo(source: bool, eth: nat, min: nat, max: Option<nat>): NatConfig {
    if eth == ETH_IPV4 then NatConfig(source, false, Some(min), max, None, None, None, None)
    else NatConfig(source, false, None, None, Some(min), max, None, None)
  }

  function CtFlow(table: nat, priority: nat, eth: nat, zone: nat): Flow {
    Flow(table, priority, ANY.EthType(eth), [Ct(0, zone, Some(table + 1), None)])
  }

  function DropInvalid(table: nat, priority: nat): Flow {
    Flow(table, priority, ANY.CtStateMasked({Trk, Inv}, {Trk, Inv}), [Drop])
  }

  function Established(table: nat, priority: nat, from: nat, to: nat): Flow {
    Flow(table, priority, ANY.InPort(from).CtStateMasked({Trk, Est}, {Trk, Est}), [Output(to)])
  }

  function PortToPort(table: nat, priority: nat, from: nat, to: nat): Flow {
    Flow(table, priority, ANY.InPort(from), [Output(to)])
  }

  function When(b: bool, f: Flow): seq<Flow> { if b then [f] else [] }

  // -------------------------------------------------------------------- SNAT

  datatype SnatConfig = SnatConfig(
    externalIp: Option<nat>, externalIpMax: Option<nat>, externalIpV6: Option<nat>, externalIpV6Max: Option<nat>,
    internalPort: nat, externalPort: nat, zone: nat, portRange: Option<(nat, nat)>, randomPorts: bool)
  {
    predicate HasIpv4() { externalIp.Some? }
    predicate HasIpv6() { externalIpV6.Some? }
    predicate Serves(eth: nat) { (eth == ETH_IPV4 && HasIpv4()) || (eth == ETH_IPV6 && HasIpv6()) }
  }

  function WithPorts(c: SnatConfig, n: NatConfig): NatConfig {
    var ranged := if c.portRange.Some?
      then n.(portMin := Some(c.portRange.value.0), portMax := Some(c.portRange.value.1)) else n;
    if c.randomPorts then ranged.(random := true) else ranged
  }

  function BuildNatConfigV4(c: SnatConfig): Option<NatConfig> {
    if c.externalIp.None? then None
    else Some(WithPorts(c, NatTo(true, ETH_IPV4, c.externalIp.value, c.externalIpMax)))
  }

  function BuildNatConfigV6(c: SnatConfig): Option<NatConfig> {
    if c.externalIpV6.None? then None
    else Some(WithPorts(c, NatTo(true, ETH_IPV6, c.externalIpV6.value, c.externalIpV6Max)))
  }

  function NatFor(c: SnatConfig, eth: nat): NatConfig
    requires c.Serves(eth)
  {
    if eth == ETH_IPV4 then BuildNatConfigV4(c).value else BuildNatConfigV6(c).value
  }

  function NewOutbound(c: SnatConfig, table: nat, priority: nat, eth: nat): Flow
    requires c.Serves(eth)
  {
    Flow(table, priority, ANY.InPort(c.internalPort).EthType(eth).CtStateMasked({Trk, New}, {Trk, New}),
      [Ct(CT_COMMIT, c.zone, Some(table + 1), Some(NatFor(c, eth)))])
  }

  function SnatTracking(c: SnatConfig, base: nat, priority: nat): seq<Flow> {
    When(c.HasIpv4(), CtFlow(base, priority, ETH_IPV4, c.zone))
      + When(c.HasIpv6(), CtFlow(base, priority, ETH_IPV6, c.zone))
    + [Flow(base, priority, ANY.EthType(ETH_ARP), [Normal])]
  }

  function SnatFixed(c: SnatConfig, table: nat, priority: nat): seq<Flow> {
    [DropInvalid(table, priority + 10), Established(table, priority + 5, c.internalPort, c.externalPort),
     Established(table, priority + 5, c.externalPort, c.internalPort)]
  }

  function SnatNew(c: SnatConfig, table: nat, priority: nat): seq<Flow> {
    (if c.HasIpv4() then [NewOutbound(c, table, priority, ETH_IPV4)] else [])
    + (if c.HasIpv6() then [NewOutbound(c, table, priority, ETH_IPV6)] else [])
  }

  function SnatOutput(c: SnatConfig, table: nat, priority: nat): seq<Flow> {
    [PortToPort(table, priority, c.internalPort, c.externalPort),
      PortToPort(table, priority, c.externalPort, c.internalPort)]
  }

  function SnatDeciding(c: SnatConfig, table: nat, priority: nat): seq<Flow> {
    SnatFixed(c, table, priority) + SnatNew(c, table, priority)
  }

  function SnatFlows(c: SnatConfig, base: nat, priority: nat): seq<Flow> {
    SnatTracking(c, base, priority) + SnatDeciding(c, base + 1, priority) + SnatOutput(c, base + 2, priority)
  }

  /** A packet handed to a port, unless that is where it came from. */
  function Forward(p: Packet, port: nat): seq<Out> { if p.inPort == port then [] else [ToPort(port)] }

  /**
   What an SNAT gateway is for, said without flows: ARP passes, other traffic of a family without an external
   address is dropped, invalid packets are dropped, established connections cross between the two ports, and a new
   connection from inside is committed with the family's translation and leaves on the external port.
   */
  function SnatPolicy(c: SnatConfig, a: Arrival, ct: set<CtFlag>): Trace {
    var p := a.packet;
    if p.ethType == ETH_ARP then NOTHING.(outs := [ToNormal])
    else if !c.Serves(p.ethType) || Inv in ct then NOTHING
    else if Est in ct && p.inPort == c.externalPort then NOTHING.(outs := Forward(p, c.internalPort))
    else if Est in ct && p.inPort == c.internalPort then NOTHING.(outs := Forward(p, c.externalPort))
    else if New in ct && p.inPort == c.internalPort then
      Trace(Forward(p, c.externalPort), [Commit(c.zone, a.conn, Some(NatFor(c, p.ethType)), false)], false)
    else NOTHING
  }

  /**
   What the flows do with a packet when the output table is `base + 2`: the policy, except that new connections are
   committed and go nowhere when there is no such table.
   */
  function SentOn(policy: Trace, base: nat): Trace {
    if base + 2 == NO_TABLE && policy.commits != [] then policy.(outs := []) else policy
  }

  /** Installed over any tables that leave `base` to `base + 2` free, the flows treat every packet by the policy. */
  ghost predicate ImplementsSnat(flows: seq<Flow>, c: SnatConfig, base: nat) {
    forall tables: Tables, a: Arrival :: Unused(tables, base) ==>
      RunTable(Install(tables, flows), a, base, {}) == SnatPolicy(c, a, StateAt(a, c.zone, base + 1))
  }

  /** The same up to new connections that go nowhere. */
  ghost predicate ApproachesSnat(flows: seq<Flow>, c: SnatConfig, base: nat) {
    forall tables: Tables, a: Arrival :: Unused(tables, base) ==>
      RunTable(Install(tables, flows), a, base, {}) == SentOn(SnatPolicy(c, a, StateAt(a, c.zone, base + 1)), base)
  }

  method SnatAllFlows(c: SnatConfig, base: nat, priority: nat) returns (flows: seq<Flow>)
    requires base <= 253 && priority <= 65525
    ensures ApproachesSnat(flows, c, base)
    ensures ImplementsSnat(flows, c, base) <==>
            base <= 252 || c.internalPort == c.externalPort || !(c.HasIpv4() || c.HasIpv6())
    ensures forall f :: f in flows ==> base <= f.table <= base + 2 && f.priority < 65536
    ensures flows == SnatFlows(c, base, priority)
  {
    flows := [];
    var policy, output := base + 1, base + 2;
    if c.HasIpv4() {
      flows := flows + [Flow(base, priority, ANY.EthType(ETH_IPV4), [Ct(0, c.zone, Some(policy), None)])];
    }
    if c.HasIpv6() {
      flows := flows + [Flow(base, priority, ANY.EthType(ETH_IPV6), [Ct(0, c.zone, Some(policy), None)])];
    }
    flows := flows + [Flow(base, priority, ANY.EthType(ETH_ARP), [Normal])];
    assert flows == SnatTracking(c, base, priority);
    flows := flows + [Flow(policy, priority + 10, ANY.CtStateMasked({Trk, Inv}, {Trk, Inv}), [Drop])];
    flows := flows + [Flow(policy, priority + 5, ANY.InPort(c.internalPort).CtStateMasked({Trk, Est}, {Trk, Est}),
      [Output(c.externalPort)])];
    flows := flows + [Flow(policy, priority + 5, ANY.InPort(c.externalPort).CtStateMasked({Trk, Est}, {Trk, Est}),
      [Output(c.internalPort)])];
    assert flows == SnatTracking(c, base, priority) + SnatFixed(c, policy, priority);
    var v4 := BuildNatConfigV4(c);
    if v4.Some? {
      flows := flows + [Flow(policy, priority,
        ANY.InPort(c.internalPort).EthType(ETH_IPV4).CtStateMasked({Trk, New}, {Trk, New}),
        [Ct(CT_COMMIT, c.zone, Some(output), v4)])];
    }
    var v6 := BuildNatConfigV6(c);
    if v6.Some? {
      flows := flows + [Flow(policy, priority,
        ANY.InPort(c.internalPort).EthType(ETH_IPV6).CtStateMasked({Trk, New}, {Trk, New}),
        [Ct(CT_COMMIT, c.zone, Some(output), v6)])];
    }
    assert flows == SnatTracking(c, base, priority) + SnatDeciding(c, policy, priority);
    flows := flows + [Flow(output, priority, ANY.InPort(c.internalPort), [Output(c.externalPort)])];
    flows := flows + [Flow(output, priority, ANY.InPort(c.externalPort), [Output(c.internalPort)])];
    assert flows == SnatFlows(c, base, priority);
    SnatApproaches(c, base, priority);
    SnatRefinement(c, base, priority);
    SnatInRange(c, base, priority);
  }

  /** The flows fall into one section for each of the three tables. */
  lemma {:induction false} SnatTables(c: SnatConfig, base: nat, priority: nat)
    ensures var t, d := SnatTracking(c, base, priority), SnatDeciding(c, base + 1, priority);
            var o := SnatOutput(c, base + 2, priority);
            && Section(SnatFlows(c, base, priority), t, [], d + o, base)
            && Section(SnatFlows(c, base, priority), d, t, o, base + 1)
            && Section(SnatFlows(c, base, priority), o, t + d, [], base + 2)
  {
    assert AllIn(SnatTracking(c, base, priority), base);
    assert AllIn(SnatDeciding(c, base + 1, priority), base + 1);
    assert AllIn(SnatOutput(c, base + 2, priority), base + 2);
  }

  function SnatTrackEntry(c: SnatConfig, table: nat, p: Packet): Option<seq<Action>> {
    if p.ethType == ETH_ARP then Some([Normal])
    else if c.Serves(p.ethType) then Some([Ct(0, c.zone, Some(table + 1), None)])
    else None
  }

  lemma {:induction false} SnatTracks(c: SnatConfig, base: nat, priority: nat, p: Packet, ct: set<CtFlag>)
      returns (i: nat)
    ensures var f := SnatTracking(c, base, priority);
            if SnatTrackEntry(c, base, p).None? then MissedBy(f, p, ct)
            else Wins(f, i, p, ct) && SnatTrackEntry(c, base, p) == Some(f[i].actions)
  {
    var f := SnatTracking(c, base, priority);
    i := if p.ethType == ETH_ARP then |f| - 1
         else if p.ethType == ETH_IPV4 || !c.Serves(p.ethType) then 0
         else |f| - 2;
  }

  lemma {:induction false} SnatLookupTracking(
      c: SnatConfig, base: nat, priority: nat, tables: Tables, p: Packet, ct: set<CtFlag>)
    requires Unused(tables, base)
    ensures Unambiguous(Install(tables, SnatFlows(c, base, priority)), base, p, ct)
    ensures Lookup(Install(tables, SnatFlows(c, base, priority)), base, p, ct) == SnatTrackEntry(c, base, p)
  {
    var all := SnatFlows(c, base, priority);
    var f := SnatTracking(c, base, priority);
    var y := SnatDeciding(c, base + 1, priority) + SnatOutput(c, base + 2, priority);
    SnatTables(c, base, priority);
    var i := SnatTracks(c, base, priority, p, ct);
    if SnatTrackEntry(c, base, p).None? {
      LookupNone(tables, all, f, [], y, base, p, ct);
    } else {
      LookupWinner(tables, all, f, [], y, base, i, p, ct);
    }
  }

  /** Matching a tracked packet in a given state. */
  lemma {:induction false} StateMatch(m: Match, f: CtFlag, p: Packet, ct: set<CtFlag>)
    ensures Matches(m.CtStateMasked({Trk, f}, {Trk, f}), p, ct) <==>
            Matches(m.(ctState := None), p, ct) && Trk in ct && f in ct
  {
  }

  function SnatEntry(c: SnatConfig, table: nat, p: Packet, ct: set<CtFlag>): Option<seq<Action>> {
    if Trk !in ct then None
    else if Inv in ct then Some([Drop])
    else if Est in ct && p.inPort == c.externalPort then Some([Output(c.internalPort)])
    else if Est in ct && p.inPort == c.internalPort then Some([Output(c.externalPort)])
    else if New in ct && p.inPort == c.internalPort && c.Serves(p.ethType) then
      Some([Ct(CT_COMMIT, c.zone, Some(table + 1), Some(NatFor(c, p.ethType)))])
    else None
  }

  lemma {:induction false} SnatDecidingMatches(c: SnatConfig, table: nat, priority: nat, p: Packet, ct: set<CtFlag>)
    ensures var f := SnatDeciding(c, table, priority);
            && 3 <= |f| <= 5
            && f[0].actions == [Drop] && f[1].actions == [Output(c.externalPort)]
               && f[2].actions == [Output(c.internalPort)]
            && f[0].priority == priority + 10 && f[1].priority == f[2].priority == priority + 5
            && (c.internalPort == c.externalPort ==> KeyOf(f[1]) == KeyOf(f[2]))
            && (Matches(f[0].matching, p, ct) <==> Trk in ct && Inv in ct)
            && (Matches(f[1].matching, p, ct) <==> p.inPort == c.internalPort && Trk in ct && Est in ct)
            && (Matches(f[2].matching, p, ct) <==> p.inPort == c.externalPort && Trk in ct && Est in ct)
  {
  }

  lemma {:induction false} SnatNewMatches(c: SnatConfig, table: nat, priority: nat, p: Packet, ct: set<CtFlag>)
      returns (k: int)
    ensures var f := SnatDeciding(c, table, priority);
            && (forall j :: 3 <= j < |f| ==> f[j].priority == priority)
            && (forall j :: 3 <= j < |f| && Matches(f[j].matching, p, ct) ==>
                  j == k && p.inPort == c.internalPort && Trk in ct && New in ct && c.Serves(p.ethType))
            && (c.Serves(p.ethType) ==>
                  3 <= k < |f| && f[k] == NewOutbound(c, table, priority, p.ethType)
                  && (Matches(f[k].matching, p, ct) <==> p.inPort == c.internalPort && Trk in ct && New in ct))
  {
    StateMatch(ANY.InPort(c.internalPort).EthType(ETH_IPV4), New, p, ct);
    StateMatch(ANY.InPort(c.internalPort).EthType(ETH_IPV6), New, p, ct);
    var f := SnatDeciding(c, table, priority);
    k := if p.ethType == ETH_IPV4 then 3 else |f| - 1;
  }

  /** Which flow of the deciding table wins. */
  lemma {:induction false} SnatDecides(c: SnatConfig, table: nat, priority: nat, p: Packet, ct: set<CtFlag>)
      returns (i: nat)
    ensures var f := SnatDeciding(c, table, priority);
            if SnatEntry(c, table, p, ct).None? then MissedBy(f, p, ct)
            else Wins(f, i, p, ct) && SnatEntry(c, table, p, ct) == Some(f[i].actions)
  {
    SnatDecidingMatches(c, table, priority, p, ct);
    var k := SnatNewMatches(c, table, priority, p, ct);
    i := if Inv in ct then 0
         else if Est in ct && p.inPort == c.externalPort then 2
         else if Est in ct && p.inPort == c.internalPort then 1
         else if c.Serves(p.ethType) then k else 0;
  }

  lemma {:induction false} SnatLookupPolicy(
      c: SnatConfig, base: nat, priority: nat, tables: Tables, p: Packet, ct: set<CtFlag>)
    requires Unused(tables, base)
    ensures Unambiguous(Install(tables, SnatFlows(c, base, priority)), base + 1, p, ct)
    ensures Lookup(Install(tables, SnatFlows(c, base, priority)), base + 1, p, ct) == SnatEntry(c, base + 1, p, ct)
  {
    var all := SnatFlows(c, base, priority);
    var x, f := SnatTracking(c, base, priority), SnatDeciding(c, base + 1, priority);
    var y := SnatOutput(c, base + 2, priority);
    SnatTables(c, base, priority);
    var i := SnatDecides(c, base + 1, priority, p, ct);
    if SnatEntry(c, base + 1, p, ct).None? {
      LookupNone(tables, all, f, x, y, base + 1, p, ct);
    } else {
      LookupWinner(tables, all, f, x, y, base + 1, i, p, ct);
    }
  }

  function SnatOutEntry(c: SnatConfig, p: Packet): Option<seq<Action>> {
    if p.inPort == c.externalPort then Some([Output(c.internalPort)])
    else if p.inPort == c.internalPort then Some([Output(c.externalPort)])
    else None
  }

  lemma {:induction false} SnatSends(c: SnatConfig, table: nat, priority: nat, p: Packet, ct: set<CtFlag>)
      returns (i: nat)
    ensures var f := SnatOutput(c, table, priority);
            if SnatOutEntry(c, p).None? then MissedBy(f, p, ct)
            else Wins(f, i, p, ct) && SnatOutEntry(c, p) == Some(f[i].actions)
  {
    i := if p.inPort == c.externalPort then 1 else 0;
  }

  lemma {:induction false} SnatLookupOutput(
      c: SnatConfig, base: nat, priority: nat, tables: Tables, p: Packet, ct: set<CtFlag>)
    requires Unused(tables, base)
    ensures Unambiguous(Install(tables, SnatFlows(c, base, priority)), base + 2, p, ct)
    ensures Lookup(Install(tables, SnatFlows(c, base, priority)), base + 2, p, ct) == SnatOutEntry(c, p)
  {
    var all := SnatFlows(c, base, priority);
    var x := SnatTracking(c, base, priority) + SnatDeciding(c, base + 1, priority);
    var f := SnatOutput(c, base + 2, priority);
    SnatTables(c, base, priority);
    var i := SnatSends(c, base + 2, priority, p, ct);
    if SnatOutEntry(c, p).None? {
      LookupNone(tables, all, f, x, [], base + 2, p, ct);
    } else {
      LookupWinner(tables, all, f, x, [], base + 2, i, p, ct);
    }
  }

  /** No table of the pipeline ever leaves the switch a choice between entries. */
  lemma {:induction false} SnatUnambiguous(
      c: SnatConfig, base: nat, priority: nat, tables: Tables, table: nat, p: Packet, ct: set<CtFlag>)
    requires Unused(tables, base) && base <= table <= base + 2
    ensures Unambiguous(Install(tables, SnatFlows(c, base, priority)), table, p, ct)
  {
    SnatLookupTracking(c, base, priority, tables, p, ct);
    SnatLookupPolicy(c, base, priority, tables, p, ct);
    SnatLookupOutput(c, base, priority, tables, p, ct);
  }

  /** Table numbers and priorities fit the fields they are sent in. */
  lemma {:induction false} SnatInRange(c: SnatConfig, base: nat, priority: nat)
    ensures forall f :: f in SnatFlows(c, base, priority) ==> base <= f.table <= base + 2 && f.priority <= priority + 10
  {
    SnatTables(c, base, priority);
    var d := SnatDeciding(c, base + 1, priority);
    assert forall i :: 0 <= i < |d| ==> d[i].priority <= priority + 10;
  }

  lemma {:induction false} SnatApproaches(c: SnatConfig, base: nat, priority: nat)
    requires base <= 253
    ensures ApproachesSnat(SnatFlows(c, base, priority), c, base)
  {
    forall tables: Tables, a: Arrival | Unused(tables, base)
      ensures RunTable(Install(tables, SnatFlows(c, base, priority)), a, base, {})
           == SentOn(SnatPolicy(c, a, StateAt(a, c.zone, base + 1)), base)
    {
      SnatRun(c, base, priority, tables, a);
    }
  }

  /**
   The gateway's flows implement its policy exactly up to base table 252. At 253 the output table would be 255, which
   is no table: new connections are committed and lost. It makes no difference only when there is nothing to forward,
   because no family is configured or both ports are the same.
   */
  lemma {:induction false} SnatRefinement(c: SnatConfig, base: nat, priority: nat)
    requires base <= 253
    ensures ImplementsSnat(SnatFlows(c, base, priority), c, base) <==>
            base <= 252 || c.internalPort == c.externalPort || !(c.HasIpv4() || c.HasIpv6())
  {
    var flows := SnatFlows(c, base, priority);
    SnatApproaches(c, base, priority);
    if base == 253 && c.internalPort != c.externalPort && (c.HasIpv4() || c.HasIpv6()) {
      SnatLostAtLastBase(c, flows, if c.HasIpv4() then ETH_IPV4 else ETH_IPV6);
    }
  }

  /** A packet that shows it: new, from inside, of a configured family. */
  lemma {:induction false} SnatLostAtLastBase(c: SnatConfig, flows: seq<Flow>, eth: nat)
    requires ApproachesSnat(flows, c, 253) && c.Serves(eth) && c.internalPort != c.externalPort
    ensures var a := Arrival(Packet(c.internalPort, eth, 0, 0), 0, map[(c.zone, 254) := {New}]);
            && Unused(map[], 253) && |RunTable(Install(map[], flows), a, 253, {}).commits| == 1
            && RunTable(Install(map[], flows), a, 253, {}).outs == []
            && SnatPolicy(c, a, StateAt(a, c.zone, 254)).outs == [ToPort(c.externalPort)]
    ensures !ImplementsSnat(flows, c, 253)
  {
    var a := Arrival(Packet(c.internalPort, eth, 0, 0), 0, map[(c.zone, 254) := {New}]);
    assert StateAt(a, c.zone, 254) == {Trk, New};
    assert RunTable(Install(map[], flows), a, 253, {}) == SentOn(SnatPolicy(c, a, StateAt(a, c.zone, 254)), 253);
  }

  lemma {:induction false} SnatRun(c: SnatConfig, base: nat, priority: nat, tables: Tables, a: Arrival)
    requires base <= 253 && Unused(tables, base)
    ensures RunTable(Install(tables, SnatFlows(c, base, priority)), a, base, {})
         == SentOn(SnatPolicy(c, a, StateAt(a, c.zone, base + 1)), base)
  {
    SnatLookupTracking(c, base, priority, tables, a.packet, {});
    SnatLookupPolicy(c, base, priority, tables, a.packet, StateAt(a, c.zone, base + 1));
    SnatLookupOutput(c, base, priority, tables, a.packet, StateAt(a, c.zone, base + 2));
    SnatPipeline(c, base, Install(tables, SnatFlows(c, base, priority)), a);
  }

  lemma {:induction false} SnatPipeline(c: SnatConfig, base: nat, t: Tables, a: Arrival)
    requires base <= 253
    requires Lookup(t, base, a.packet, {}) == SnatTrackEntry(c, base, a.packet)
    requires var ct := StateAt(a, c.zone, base + 1);
             Lookup(t, base + 1, a.packet, ct) == SnatEntry(c, base + 1, a.packet, ct)
    requires Lookup(t, base + 2, a.packet, StateAt(a, c.zone, base + 2)) == SnatOutEntry(c, a.packet)
    ensures RunTable(t, a, base, {}) == SentOn(SnatPolicy(c, a, StateAt(a, c.zone, base + 1)), base)
  {
    var p, ct1, ct2 := a.packet, StateAt(a, c.zone, base + 1), StateAt(a, c.zone, base + 2);
    OneActionTable(t, a, base, {}, SnatTrackEntry(c, base, p), c.zone);
    OneActionTable(t, a, base + 1, ct1, SnatEntry(c, base + 1, p, ct1), c.zone);
    if base + 2 < NO_TABLE {
      OneActionTable(t, a, base + 2, ct2, SnatOutEntry(c, p), c.zone);
    }
    SnatEffect(c, base, a, ct1, RunTable(t, a, base + 2, ct2), RunTable(t, a, base + 3, StateAt(a, c.zone, base + 3)));
  }

  /** The three tables together do what the policy says. */
  lemma {:induction false} SnatEffect(c: SnatConfig, base: nat, a: Arrival, ct: set<CtFlag>, sent: Trace, after: Trace)
    requires base <= 253 && Trk in ct
    requires base + 2 < NO_TABLE ==> sent == Effect(a, SnatOutEntry(c, a.packet), after)
    ensures Effect(a, SnatTrackEntry(c, base, a.packet), Effect(a, SnatEntry(c, base + 1, a.packet, ct), sent))
         == SentOn(SnatPolicy(c, a, ct), base)
  {
  }

  /**
   Safety over whole runs: a packet other than ARP that enters the external port is output to the internal port only
   if it is tracked, established and not invalid, and so only if an earlier packet entered the internal port and had
   its connection committed, new and not invalid, in the gateway's zone.
   */
  lemma {:induction false} SnatSafety(
      c: SnatConfig, base: nat, flows: seq<Flow>, tables: Tables, arrivals: seq<Arrival>, i: nat)
      returns (j: nat)
    requires Unused(tables, base) && ApproachesSnat(flows, c, base)
    requires Honest(Install(tables, flows), base, c.zone, arrivals)
    requires i < |arrivals| && arrivals[i].packet.inPort == c.externalPort && arrivals[i].packet.ethType != ETH_ARP
    requires ToPort(c.internalPort) in RunTable(Install(tables, flows), arrivals[i], base, {}).outs
    ensures Est in StateAt(arrivals[i], c.zone, base + 1) && Inv !in StateAt(arrivals[i], c.zone, base + 1)
    ensures j < i && arrivals[j].packet.inPort == c.internalPort && arrivals[j].conn == arrivals[i].conn
    ensures New in StateAt(arrivals[j], c.zone, base + 1) && Inv !in StateAt(arrivals[j], c.zone, base + 1)
            && c.Serves(arrivals[j].packet.ethType)
  {
    var t := Install(tables, flows);
    assert RunTable(t, arrivals[i], base, {})
           == SentOn(SnatPolicy(c, arrivals[i], StateAt(arrivals[i], c.zone, base + 1)), base);
    var m :| m in Commits(t, base, arrivals[..i]) && m.zone == c.zone && m.conn == arrivals[i].conn;
    j := CommitterOf(t, base, arrivals[..i], m);
    assert RunTable(t, arrivals[j], base, {})
           == SentOn(SnatPolicy(c, arrivals[j], StateAt(arrivals[j], c.zone, base + 1)), base);
  }

  /** Liveness: with two distinct ports, what internal packets leave on the external port, and which are committed. */
  lemma {:induction false} SnatForwardsOutbound(c: SnatConfig, base: nat, flows: seq<Flow>, tables: Tables, a: Arrival)
    requires Unused(tables, base) && ImplementsSnat(flows, c, base)
    requires a.packet.inPort == c.internalPort != c.externalPort && a.packet.ethType != ETH_ARP
    ensures var ct := StateAt(a, c.zone, base + 1);
            var t := RunTable(Install(tables, flows), a, base, {});
            && (t.outs == [ToPort(c.externalPort)] <==>
               c.Serves(a.packet.ethType) && Inv !in ct && (New in ct || Est in ct))
            && (t.outs == [] <==> t.outs != [ToPort(c.externalPort)])
            && (t.commits != [] <==> c.Serves(a.packet.ethType) && Inv !in ct && New in ct && Est !in ct)
            && !t.looped
  {
  }

  /**
   The way back: what other than ARP enters on the external port and reaches the internal one, exactly. It is what the
   tracker calls established in the zone the gateway commits to, and nothing is committed for it.
   */
  lemma {:induction false} SnatDeliversInbound(c: SnatConfig, base: nat, flows: seq<Flow>, tables: Tables, a: Arrival)
    requires Unused(tables, base) && ApproachesSnat(flows, c, base)
    requires a.packet.inPort == c.externalPort != c.internalPort && a.packet.ethType != ETH_ARP
    ensures var ct := StateAt(a, c.zone, base + 1);
            var t := RunTable(Install(tables, flows), a, base, {});
            && t.commits == [] && !t.looped
            && (c.Serves(a.packet.ethType) && Inv !in ct && Est in ct ==> t.outs == [ToPort(c.internalPort)])
            && (!(c.Serves(a.packet.ethType) && Inv !in ct && Est in ct) ==> t.outs == [])
  {
  }

  // -------------------------------------------------------------------- DNAT

  datatype DnatTarget = V4(ip: nat) | V6(ip: nat)

  datatype DnatRule = DnatRule(externalPort: nat, protocol: nat, target: DnatTarget, internalPort: Option<nat>)
  {
    predicate IsIpv4() { target.V4? }
    predicate IsIpv6() { target.V6? }
  }

  datatype DnatConfig = DnatConfig(externalPort: nat, internalPort: nat, zone: nat, rules: seq<DnatRule>)
  {
    predicate HasIpv4Rules() { exists r :: r in rules && r.IsIpv4() }
    predicate HasIpv6Rules() { exists r :: r in rules && r.IsIpv6() }
    predicate Serves(eth: nat) { (eth == ETH_IPV4 && HasIpv4Rules()) || (eth == ETH_IPV6 && HasIpv6Rules()) }
  }

  function EthOf(r: DnatRule): nat { if r.IsIpv4() then ETH_IPV4 else ETH_IPV6 }

  /** The translation a rule asks for. */
  function TargetOf(r: DnatRule): NatConfig {
    NatTo(false, EthOf(r), r.target.ip, None).(portMin := r.internalPort)
  }

  /** A rule is for one family and one protocol; only TCP and UDP rules look at the port. */
  predicate RuleApplies(r: DnatRule, p: Packet) {
    p.ethType == EthOf(r) && p.ipProto == r.protocol
      && (r.protocol == TCP || r.protocol == UDP ==> p.dstPort == r.externalPort)
  }

  /** The last rule of the list that applies. */
  function LastRule(rules: seq<DnatRule>, p: Packet): Option<DnatRule> {
    if rules == [] then None
    else
      var n := |rules| - 1;
      if RuleApplies(rules[n], p) then Some(rules[n]) else LastRule(rules[..n], p)
  }

  function RuleMatch(r: DnatRule, port: nat): Match {
    var m := ANY.InPort(port).EthType(EthOf(r)).IpProto(r.protocol).CtStateMasked({Trk, New}, {Trk, New});
    if r.protocol == TCP then m.TcpDst(r.externalPort)
    else if r.protocol == UDP then m.UdpDst(r.externalPort)
    else m
  }

  function RuleFlow(r: DnatRule, c: DnatConfig, table: nat, priority: nat): Flow {
    Flow(table, priority, RuleMatch(r, c.externalPort), [Ct(CT_COMMIT, c.zone, Some(table + 1), Some(TargetOf(r)))])
  }

  function RuleFlows(rules: seq<DnatRule>, c: DnatConfig, table: nat, priority: nat): (flows: seq<Flow>)
    ensures |flows| == |rules|
    ensures forall i :: 0 <= i < |rules| ==> flows[i] == RuleFlow(rules[i], c, table, priority)
  {
    seq(|rules|, i requires 0 <= i < |rules| => RuleFlow(rules[i], c, table, priority))
  }

  function DnatTracking(c: DnatConfig, base: nat, priority: nat): seq<Flow> {
    When(c.HasIpv4Rules(), CtFlow(base, priority, ETH_IPV4, c.zone))
      + When(c.HasIpv6Rules(), CtFlow(base, priority, ETH_IPV6, c.zone))
  }

  function DnatFixed(c: DnatConfig, table: nat, priority: nat): seq<Flow> {
    [DropInvalid(table, priority + 10), Established(table, priority + 5, c.externalPort, c.internalPort),
     Established(table, priority + 5, c.internalPort, c.externalPort)]
  }

  function DnatOutput(c: DnatConfig, table: nat, priority: nat): seq<Flow> {
    [PortToPort(table, priority, c.externalPort, c.internalPort),
      PortToPort(table, priority, c.internalPort, c.externalPort)]
  }

  function DnatDeciding(c: DnatConfig, table: nat, priority: nat): seq<Flow> {
    DnatFixed(c, table, priority) + RuleFlows(c.rules, c, table, priority)
  }

  function DnatFlows(c: DnatConfig, base: nat, priority: nat): seq<Flow> {
    DnatTracking(c, base, priority) + DnatDeciding(c, base + 1, priority) + DnatOutput(c, base + 2, priority)
  }

  /**
   What a DNAT service is for: traffic of a family no rule mentions is dropped, as are invalid packets; established
   connections cross; a new connection from outside gets the target of the last rule that applies, or is dropped.
   */
  function DnatPolicy(c: DnatConfig, a: Arrival, ct: set<CtFlag>): Trace {
    var p := a.packet;
    if !c.Serves(p.ethType) || Inv in ct then NOTHING
    else if Est in ct && p.inPort == c.internalPort then NOTHING.(outs := Forward(p, c.externalPort))
    else if Est in ct && p.inPort == c.externalPort then NOTHING.(outs := Forward(p, c.internalPort))
    else if New in ct && p.inPort == c.externalPort then
      match LastRule(c.rules, p)
      case None => NOTHING
      case Some(r) => Trace(Forward(p, c.internalPort), [Commit(c.zone, a.conn, Some(TargetOf(r)), false)], false)
    else NOTHING
  }

  ghost predicate ImplementsDnat(flows: seq<Flow>, c: DnatConfig, base: nat) {
    forall tables: Tables, a: Arrival :: Unused(tables, base) ==>
      RunTable(Install(tables, flows), a, base, {}) == DnatPolicy(c, a, StateAt(a, c.zone, base + 1))
  }

  /** The flow for one rule, as the loop over the rules builds it. */
  method FlowForRule(rule: DnatRule, c: DnatConfig, table: nat, priority: nat) returns (flow: Flow)
    ensures flow.table == table && flow.priority == priority
    ensures forall p, ct :: Matches(flow.matching, p, ct) <==>
            p.inPort == c.externalPort && RuleApplies(rule, p) && Trk in ct && New in ct
    ensures |flow.actions| == 1 && flow.actions[0].Ct? && flow.actions[0].translation.Some?
    ensures forall p, address, port :: RuleApplies(rule, p) ==>
              (MayChoose(flow.actions[0].translation.value, p.ethType, p.dstPort, address, port) <==>
                Target(rule, p, address, port))
    ensures flow == RuleFlow(rule, c, table, priority)
  {
    var translation, ethType;
    match rule.target {
      case V4(ip) => translation, ethType := NatTo(false, ETH_IPV4, ip, None), ETH_IPV4;
      case V6(ip) => translation, ethType := NatTo(false, ETH_IPV6, ip, None), ETH_IPV6;
    }
    if rule.internalPort.Some? {
      translation := translation.(portMin := rule.internalPort);
    }
    var fields := ANY.InPort(c.externalPort).EthType(ethType).IpProto(rule.protocol);
    fields := fields.CtStateMasked({Trk, New}, {Trk, New});
    if rule.protocol == TCP {
      fields := fields.TcpDst(rule.externalPort);
    } else if rule.protocol == UDP {
      fields := fields.UdpDst(rule.externalPort);
    }
    flow := Flow(table, priority, fields, [Ct(CT_COMMIT, c.zone, Some(table + 1), Some(translation))]);
    forall p, ct
      ensures Matches(flow.matching, p, ct) <==>
              p.inPort == c.externalPort && RuleApplies(rule, p) && Trk in ct && New in ct
    {
      RuleMatches(rule, c.externalPort, p, ct);
    }
  }

  /** The flows before those of the rules. */
  method DnatFirstFlows(c: DnatConfig, base: nat, priority: nat) returns (flows: seq<Flow>)
    ensures flows == DnatTracking(c, base, priority) + DnatFixed(c, base + 1, priority)
  {
    flows := [];
    var policy := base + 1;
    if c.HasIpv4Rules() {
      flows := flows + [Flow(base, priority, ANY.EthType(ETH_IPV4), [Ct(0, c.zone, Some(policy), None)])];
    }
    if c.HasIpv6Rules() {
      flows := flows + [Flow(base, priority, ANY.EthType(ETH_IPV6), [Ct(0, c.zone, Some(policy), None)])];
    }
    assert flows == DnatTracking(c, base, priority);
    flows := flows + [Flow(policy, priority + 10, ANY.CtStateMasked({Trk, Inv}, {Trk, Inv}), [Drop])];
    flows := flows + [Flow(policy, priority + 5, ANY.InPort(c.externalPort).CtStateMasked({Trk, Est}, {Trk, Est}),
      [Output(c.internalPort)])];
    flows := flows + [Flow(policy, priority + 5, ANY.InPort(c.internalPort).CtStateMasked({Trk, Est}, {Trk, Est}),
      [Output(c.externalPort)])];
  }

  ghost predicate ApproachesDnat(flows: seq<Flow>, c: DnatConfig, base: nat) {
    forall tables: Tables, a: Arrival :: Unused(tables, base) ==>
      RunTable(Install(tables, flows), a, base, {}) == SentOn(DnatPolicy(c, a, StateAt(a, c.zone, base + 1)), base)
  }

  method DnatAllFlows(c: DnatConfig, base: nat, priority: nat) returns (flows: seq<Flow>)
    requires base <= 253 && priority <= 65525
    ensures ApproachesDnat(flows, c, base)
    ensures ImplementsDnat(flows, c, base) <==> base <= 252 || c.internalPort == c.externalPort || c.rules == []
    ensures forall f :: f in flows ==> base <= f.table <= base + 2 && f.priority < 65536
    ensures flows == DnatFlows(c, base, priority)
  {
    var policy, output := base + 1, base + 2;
    flows := DnatFirstFlows(c, base, priority);
    ghost var head := flows;
    for n := 0 to |c.rules|
      invariant flows == head + RuleFlows(c.rules[..n], c, policy, priority)
    {
      var flow := FlowForRule(c.rules[n], c, policy, priority);
      flows := flows + [flow];
    }
    assert c.rules[..|c.rules|] == c.rules;
    assert flows == DnatTracking(c, base, priority) + DnatDeciding(c, policy, priority);
    flows := flows + [Flow(output, priority, ANY.InPort(c.externalPort), [Output(c.internalPort)])];
    flows := flows + [Flow(output, priority, ANY.InPort(c.internalPort), [Output(c.externalPort)])];
    assert flows == DnatFlows(c, base, priority);
    DnatApproaches(c, base, priority);
    DnatRefinement(c, base, priority);
    DnatInRange(c, base, priority);
  }

  /** The flows fall into one section for each of the three tables. */
  lemma {:induction false} DnatTables(c: DnatConfig, base: nat, priority: nat)
    ensures var t, d := DnatTracking(c, base, priority), DnatDeciding(c, base + 1, priority);
            var o := DnatOutput(c, base + 2, priority);
            && Section(DnatFlows(c, base, priority), t, [], d + o, base)
            && Section(DnatFlows(c, base, priority), d, t, o, base + 1)
            && Section(DnatFlows(c, base, priority), o, t + d, [], base + 2)
  {
    assert AllIn(DnatTracking(c, base, priority), base);
    assert AllIn(DnatDeciding(c, base + 1, priority), base + 1);
    assert AllIn(DnatOutput(c, base + 2, priority), base + 2);
  }

  function DnatTrackEntry(c: DnatConfig, table: nat, p: Packet): Option<seq<Action>> {
    if c.Serves(p.ethType) then Some([Ct(0, c.zone, Some(table + 1), None)]) else None
  }

  lemma {:induction false} DnatTracks(c: DnatConfig, base: nat, priority: nat, p: Packet, ct: set<CtFlag>)
      returns (i: nat)
    ensures var f := DnatTracking(c, base, priority);
            if DnatTrackEntry(c, base, p).None? then MissedBy(f, p, ct)
            else Wins(f, i, p, ct) && DnatTrackEntry(c, base, p) == Some(f[i].actions)
  {
    var f := DnatTracking(c, base, priority);
    i := if p.ethType == ETH_IPV4 || f == [] then 0 else |f| - 1;
  }

  lemma {:induction false} DnatLookupTracking(
      c: DnatConfig, base: nat, priority: nat, tables: Tables, p: Packet, ct: set<CtFlag>)
    requires Unused(tables, base)
    ensures Unambiguous(Install(tables, DnatFlows(c, base, priority)), base, p, ct)
    ensures Lookup(Install(tables, DnatFlows(c, base, priority)), base, p, ct) == DnatTrackEntry(c, base, p)
  {
    var all := DnatFlows(c, base, priority);
    var f := DnatTracking(c, base, priority);
    var y := DnatDeciding(c, base + 1, priority) + DnatOutput(c, base + 2, priority);
    DnatTables(c, base, priority);
    var i := DnatTracks(c, base, priority, p, ct);
    if DnatTrackEntry(c, base, p).None? {
      LookupNone(tables, all, f, [], y, base, p, ct);
    } else {
      LookupWinner(tables, all, f, [], y, base, i, p, ct);
    }
  }

  /** Where the last rule that applies stands, or that no rule applies. */
  lemma {:induction false} LastRuleIndex(rules: seq<DnatRule>, p: Packet) returns (k: int)
    ensures -1 <= k < |rules|
    ensures LastRule(rules, p) == if k == -1 then None else Some(rules[k])
    ensures k >= 0 ==> RuleApplies(rules[k], p)
    ensures forall i :: k < i < |rules| ==> !RuleApplies(rules[i], p)
  {
    k := |rules| - 1;
    if rules != [] && !RuleApplies(rules[k], p) {
      var last := k;
      k := LastRuleIndex(rules[..last], p);
    }
  }

  /** Two rules that apply to the same packet have the same match: equal priority never competes. */
  lemma {:induction false} SameMatch(r: DnatRule, s: DnatRule, port: nat, p: Packet)
    requires RuleApplies(r, p) && RuleApplies(s, p)
    ensures RuleMatch(r, port) == RuleMatch(s, port)
  {
  }

  function DnatEntry(c: DnatConfig, table: nat, p: Packet, ct: set<CtFlag>): Option<seq<Action>> {
    if Trk !in ct then None
    else if Inv in ct then Some([Drop])
    else if Est in ct && p.inPort == c.internalPort then Some([Output(c.externalPort)])
    else if Est in ct && p.inPort == c.externalPort then Some([Output(c.internalPort)])
    else if New in ct && p.inPort == c.externalPort && LastRule(c.rules, p).Some? then
      Some([Ct(CT_COMMIT, c.zone, Some(table + 1), Some(TargetOf(LastRule(c.rules, p).value)))])
    else None
  }

  /** The flow of a rule matches the new packets from outside to which the rule applies. */
  lemma {:induction false} RuleMatches(r: DnatRule, port: nat, p: Packet, ct: set<CtFlag>)
    ensures Matches(RuleMatch(r, port), p, ct) <==> p.inPort == port && RuleApplies(r, p) && Trk in ct && New in ct
  {
  }

  /** Which flows of the deciding table match, and with what priority. */
  ghost predicate DnatShape(f: seq<Flow>, c: DnatConfig, table: nat, priority: nat, p: Packet, ct: set<CtFlag>) {
    && |f| == 3 + |c.rules|
    && f[0].actions == [Drop] && f[1].actions == [Output(c.internalPort)] && f[2].actions == [Output(c.externalPort)]
    && f[0].priority == priority + 10 && f[1].priority == f[2].priority == priority + 5
    && (c.internalPort == c.externalPort ==> KeyOf(f[1]) == KeyOf(f[2]))
    && (Matches(f[0].matching, p, ct) <==> Trk in ct && Inv in ct)
    && (Matches(f[1].matching, p, ct) <==> p.inPort == c.externalPort && Trk in ct && Est in ct)
    && (Matches(f[2].matching, p, ct) <==> p.inPort == c.internalPort && Trk in ct && Est in ct)
    && (forall j :: 3 <= j < |f| ==> f[j] == RuleFlow(c.rules[j - 3], c, table, priority))
    && (forall j :: 3 <= j < |f| ==>
          (Matches(f[j].matching, p, ct) <==>
            p.inPort == c.externalPort && RuleApplies(c.rules[j - 3], p) && Trk in ct && New in ct))
  }

  lemma {:induction false} DnatDecidingMatches(c: DnatConfig, table: nat, priority: nat, p: Packet, ct: set<CtFlag>)
    ensures DnatShape(DnatDeciding(c, table, priority), c, table, priority, p, ct)
  {
    var f := DnatDeciding(c, table, priority);
    StateMatch(ANY, Inv, p, ct);
    StateMatch(ANY.InPort(c.internalPort), Est, p, ct);
    StateMatch(ANY.InPort(c.externalPort), Est, p, ct);
    forall j | 3 <= j < |f|
      ensures f[j] == RuleFlow(c.rules[j - 3], c, table, priority)
      ensures Matches(f[j].matching, p, ct) <==>
              p.inPort == c.externalPort && RuleApplies(c.rules[j - 3], p) && Trk in ct && New in ct
    {
      RuleMatches(c.rules[j - 3], c.externalPort, p, ct);
    }
  }

  lemma {:induction false} DnatDecides(
      f: seq<Flow>, c: DnatConfig, table: nat, priority: nat, p: Packet, ct: set<CtFlag>) returns (i: nat)
    requires DnatShape(f, c, table, priority, p, ct)
    ensures if DnatEntry(c, table, p, ct).None? then MissedBy(f, p, ct)
            else Wins(f, i, p, ct) && DnatEntry(c, table, p, ct) == Some(f[i].actions)
  {
    var k := LastRuleIndex(c.rules, p);
    i := if Inv in ct then 0
         else if Est in ct && p.inPort == c.internalPort then 2
         else if Est in ct && p.inPort == c.externalPort then 1
         else if k >= 0 then 3 + k else 0;
    if i >= 3 {
      forall j | 3 <= j < i && Matches(f[j].matching, p, ct)
        ensures KeyOf(f[j]) == KeyOf(f[i])
      {
        SameMatch(c.rules[j - 3], c.rules[k], c.externalPort, p);
      }
    }
  }

  lemma {:induction false} DnatLookupPolicy(
      c: DnatConfig, base: nat, priority: nat, tables: Tables, p: Packet, ct: set<CtFlag>)
    requires Unused(tables, base)
    ensures Unambiguous(Install(tables, DnatFlows(c, base, priority)), base + 1, p, ct)
    ensures Lookup(Install(tables, DnatFlows(c, base, priority)), base + 1, p, ct) == DnatEntry(c, base + 1, p, ct)
  {
    var all := DnatFlows(c, base, priority);
    var x, f := DnatTracking(c, base, priority), DnatDeciding(c, base + 1, priority);
    var y := DnatOutput(c, base + 2, priority);
    DnatTables(c, base, priority);
    DnatDecidingMatches(c, base + 1, priority, p, ct);
    var i := DnatDecides(f, c, base + 1, priority, p, ct);
    if DnatEntry(c, base + 1, p, ct).None? {
      LookupNone(tables, all, f, x, y, base + 1, p, ct);
    } else {
      LookupWinner(tables, all, f, x, y, base + 1, i, p, ct);
    }
  }

  function DnatOutEntry(c: DnatConfig, p: Packet): Option<seq<Action>> {
    if p.inPort == c.internalPort then Some([Output(c.externalPort)])
    else if p.inPort == c.externalPort then Some([Output(c.internalPort)])
    else None
  }

  lemma {:induction false} DnatSends(c: DnatConfig, table: nat, priority: nat, p: Packet, ct: set<CtFlag>)
      returns (i: nat)
    ensures var f := DnatOutput(c, table, priority);
            if DnatOutEntry(c, p).None? then MissedBy(f, p, ct)
            else Wins(f, i, p, ct) && DnatOutEntry(c, p) == Some(f[i].actions)
  {
    i := if p.inPort == c.internalPort then 1 else 0;
  }

  lemma {:induction false} DnatLookupOutput(
      c: DnatConfig, base: nat, priority: nat, tables: Tables, p: Packet, ct: set<CtFlag>)
    requires Unused(tables, base)
    ensures Unambiguous(Install(tables, DnatFlows(c, base, priority)), base + 2, p, ct)
    ensures Lookup(Install(tables, DnatFlows(c, base, priority)), base + 2, p, ct) == DnatOutEntry(c, p)
  {
    var all := DnatFlows(c, base, priority);
    var x := DnatTracking(c, base, priority) + DnatDeciding(c, base + 1, priority);
    var f := DnatOutput(c, base + 2, priority);
    DnatTables(c, base, priority);
    var i := DnatSends(c, base + 2, priority, p, ct);
    if DnatOutEntry(c, p).None? {
      LookupNone(tables, all, f, x, [], base + 2, p, ct);
    } else {
      LookupWinner(tables, all, f, x, [], base + 2, i, p, ct);
    }
  }

  lemma {:induction false} DnatUnambiguous(
      c: DnatConfig, base: nat, priority: nat, tables: Tables, table: nat, p: Packet, ct: set<CtFlag>)
    requires Unused(tables, base) && base <= table <= base + 2
    ensures Unambiguous(Install(tables, DnatFlows(c, base, priority)), table, p, ct)
  {
    DnatLookupTracking(c, base, priority, tables, p, ct);
    DnatLookupPolicy(c, base, priority, tables, p, ct);
    DnatLookupOutput(c, base, priority, tables, p, ct);
  }

  /** Table numbers and priorities fit the fields they are sent in. */
  lemma {:induction false} DnatInRange(c: DnatConfig, base: nat, priority: nat)
    ensures forall f :: f in DnatFlows(c, base, priority) ==> base <= f.table <= base + 2 && f.priority <= priority + 10
  {
    DnatTables(c, base, priority);
    var d := DnatDeciding(c, base + 1, priority);
    assert forall i :: 0 <= i < |d| ==> d[i].priority <= priority + 10;
  }

  lemma {:induction false} DnatApproaches(c: DnatConfig, base: nat, priority: nat)
    requires base <= 253
    ensures ApproachesDnat(DnatFlows(c, base, priority), c, base)
  {
    forall tables: Tables, a: Arrival | Unused(tables, base)
      ensures RunTable(Install(tables, DnatFlows(c, base, priority)), a, base, {})
           == SentOn(DnatPolicy(c, a, StateAt(a, c.zone, base + 1)), base)
    {
      DnatRun(c, base, priority, tables, a);
    }
  }

  /** The service's flows implement its policy exactly up to base table 252, unless there is nothing to forward. */
  lemma {:induction false} DnatRefinement(c: DnatConfig, base: nat, priority: nat)
    requires base <= 253
    ensures ImplementsDnat(DnatFlows(c, base, priority), c, base) <==>
            base <= 252 || c.internalPort == c.externalPort || c.rules == []
  {
    DnatApproaches(c, base, priority);
    if c.rules == [] {
      NothingForwarded(c);
    } else if base == 253 && c.internalPort != c.externalPort {
      DnatLostAtLastBase(c, DnatFlows(c, base, priority));
    }
  }

  lemma {:induction false} NothingForwarded(c: DnatConfig)
    requires c.rules == []
    ensures forall a, ct :: DnatPolicy(c, a, ct) == NOTHING
  {
  }

  /** A packet that shows it: new, from outside, to which the last rule applies. */
  lemma {:induction false} DnatLostAtLastBase(c: DnatConfig, flows: seq<Flow>)
    requires ApproachesDnat(flows, c, 253) && c.rules != [] && c.internalPort != c.externalPort
    ensures var r := c.rules[|c.rules| - 1];
            var a := Arrival(Packet(c.externalPort, EthOf(r), r.protocol, r.externalPort), 0,
              map[(c.zone, 254) := {New}]);
            && Unused(map[], 253) && |RunTable(Install(map[], flows), a, 253, {}).commits| == 1
            && RunTable(Install(map[], flows), a, 253, {}).outs == []
            && DnatPolicy(c, a, StateAt(a, c.zone, 254)).outs == [ToPort(c.internalPort)]
    ensures !ImplementsDnat(flows, c, 253)
  {
    var r := c.rules[|c.rules| - 1];
    var a := Arrival(Packet(c.externalPort, EthOf(r), r.protocol, r.externalPort), 0, map[(c.zone, 254) := {New}]);
    assert r in c.rules && StateAt(a, c.zone, 254) == {Trk, New};
    assert LastRule(c.rules, a.packet) == Some(r);
    assert RunTable(Install(map[], flows), a, 253, {}) == SentOn(DnatPolicy(c, a, StateAt(a, c.zone, 254)), 253);
  }

  lemma {:induction false} DnatRun(c: DnatConfig, base: nat, priority: nat, tables: Tables, a: Arrival)
    requires base <= 253 && Unused(tables, base)
    ensures RunTable(Install(tables, DnatFlows(c, base, priority)), a, base, {})
         == SentOn(DnatPolicy(c, a, StateAt(a, c.zone, base + 1)), base)
  {
    DnatLookupTracking(c, base, priority, tables, a.packet, {});
    DnatLookupPolicy(c, base, priority, tables, a.packet, StateAt(a, c.zone, base + 1));
    DnatLookupOutput(c, base, priority, tables, a.packet, StateAt(a, c.zone, base + 2));
    DnatPipeline(c, base, Install(tables, DnatFlows(c, base, priority)), a);
  }

  lemma {:induction false} DnatPipeline(c: DnatConfig, base: nat, t: Tables, a: Arrival)
    requires base <= 253
    requires Lookup(t, base, a.packet, {}) == DnatTrackEntry(c, base, a.packet)
    requires var ct := StateAt(a, c.zone, base + 1);
             Lookup(t, base + 1, a.packet, ct) == DnatEntry(c, base + 1, a.packet, ct)
    requires Lookup(t, base + 2, a.packet, StateAt(a, c.zone, base + 2)) == DnatOutEntry(c, a.packet)
    ensures RunTable(t, a, base, {}) == SentOn(DnatPolicy(c, a, StateAt(a, c.zone, base + 1)), base)
  {
    var p, ct1, ct2 := a.packet, StateAt(a, c.zone, base + 1), StateAt(a, c.zone, base + 2);
    OneActionTable(t, a, base, {}, DnatTrackEntry(c, base, p), c.zone);
    OneActionTable(t, a, base + 1, ct1, DnatEntry(c, base + 1, p, ct1), c.zone);
    if base + 2 < NO_TABLE {
      OneActionTable(t, a, base + 2, ct2, DnatOutEntry(c, p), c.zone);
    }
    DnatEffect(c, base, a, ct1, RunTable(t, a, base + 2, ct2), RunTable(t, a, base + 3, StateAt(a, c.zone, base + 3)));
  }

  lemma {:induction false} DnatEffect(c: DnatConfig, base: nat, a: Arrival, ct: set<CtFlag>, sent: Trace, after: Trace)
    requires base <= 253 && Trk in ct
    requires base + 2 < NO_TABLE ==> sent == Effect(a, DnatOutEntry(c, a.packet), after)
    ensures Effect(a, DnatTrackEntry(c, base, a.packet), Effect(a, DnatEntry(c, base + 1, a.packet, ct), sent))
         == SentOn(DnatPolicy(c, a, ct), base)
  {
  }

  /**
   Port forwarding over whole runs: a packet from outside reaches the inside only on an established connection, and
   then an earlier packet from outside was translated by the last rule that applied to it, or as a new connection to
   which a rule applies.
   */
  lemma {:induction false} DnatSafety(
      c: DnatConfig, base: nat, flows: seq<Flow>, tables: Tables, arrivals: seq<Arrival>, i: nat)
      returns (j: nat)
    requires Unused(tables, base) && ApproachesDnat(flows, c, base)
    requires Honest(Install(tables, flows), base, c.zone, arrivals)
    requires i < |arrivals| && arrivals[i].packet.inPort == c.externalPort
    requires ToPort(c.internalPort) in RunTable(Install(tables, flows), arrivals[i], base, {}).outs
    ensures j <= i && arrivals[j].packet.inPort == c.externalPort && arrivals[j].conn == arrivals[i].conn
    ensures j < i <==> Est in StateAt(arrivals[i], c.zone, base + 1)
    ensures LastRule(c.rules, arrivals[j].packet).Some?
    ensures RunTable(Install(tables, flows), arrivals[j], base, {}).commits
         == [Commit(c.zone, arrivals[i].conn, Some(TargetOf(LastRule(c.rules, arrivals[j].packet).value)), false)]
  {
    var t := Install(tables, flows);
    assert RunTable(t, arrivals[i], base, {})
           == SentOn(DnatPolicy(c, arrivals[i], StateAt(arrivals[i], c.zone, base + 1)), base);
    j := i;
    if Est in StateAt(arrivals[i], c.zone, base + 1) {
      var m :| m in Commits(t, base, arrivals[..i]) && m.zone == c.zone && m.conn == arrivals[i].conn;
      j := CommitterOf(t, base, arrivals[..i], m);
      assert RunTable(t, arrivals[j], base, {})
             == SentOn(DnatPolicy(c, arrivals[j], StateAt(arrivals[j], c.zone, base + 1)), base);
    }
  }

  /**
   Both ways through port forwarding, exactly: from outside established packets and new ones to which a rule applies,
   from inside established ones, as the tracker calls them in the zone of the service.
   */
  lemma {:induction false} DnatForwards(c: DnatConfig, base: nat, flows: seq<Flow>, tables: Tables, a: Arrival)
    requires Unused(tables, base) && ImplementsDnat(flows, c, base) && c.internalPort != c.externalPort
    ensures var p, ct := a.packet, StateAt(a, c.zone, base + 1);
            var t := RunTable(Install(tables, flows), a, base, {});
            var lets := c.Serves(p.ethType) && Inv !in ct;
            && !t.looped
            && (p.inPort == c.externalPort ==>
                  if lets && (Est in ct || (New in ct && LastRule(c.rules, p).Some?))
                  then t.outs == [ToPort(c.internalPort)] else t.outs == [])
            && (p.inPort == c.internalPort ==>
                  if lets && Est in ct then t.outs == [ToPort(c.externalPort)] else t.outs == [])
            && (p.inPort != c.externalPort && p.inPort != c.internalPort ==> t.outs == [])
  {
  }

  // ------------------------------------------------------------ what is chosen

  /** A bound without an upper end is a single value. */
  predicate Within(x: nat, low: Option<nat>, high: Option<nat>) {
    low.Some? && (if high.Some? then low.value <= x <= high.value else x == low.value)
  }

  /**
   The addresses and ports a switch may give a packet of a family with port `was` under a translation. Without a port
   bound a destination keeps its port, and a source may get any.
   */
  predicate MayChoose(t: NatConfig, eth: nat, was: nat, address: nat, port: nat) {
    && (if eth == ETH_IPV4 then Within(address, t.ipv4Min, t.ipv4Max)
       else eth == ETH_IPV6 && Within(address, t.ipv6Min, t.ipv6Max))
    && (if t.portMin.Some? then Within(port, t.portMin, t.portMax) else t.source || port == was)
  }

  /** Where a rule sends: its target, at its internal port, or at the external one when it names none. */
  predicate Target(r: DnatRule, p: Packet, address: nat, port: nat) {
    address == r.target.ip && port == if r.internalPort.Some? then r.internalPort.value else p.dstPort
  }

  /** A rule's translation leaves the switch one choice for the packets it applies to, and none for other families. */
  lemma {:induction false} RuleTranslation(r: DnatRule, p: Packet, address: nat, port: nat)
    requires p.ethType == ETH_IPV4 || p.ethType == ETH_IPV6
    ensures MayChoose(TargetOf(r), p.ethType, p.dstPort, address, port) <==>
            p.ethType == EthOf(r) && Target(r, p, address, port)
  {
  }

  /** The gateway's addresses of a family. */
  predicate Masquerades(c: SnatConfig, eth: nat, address: nat, port: nat) {
    && c.Serves(eth)
    && (if eth == ETH_IPV4 then Within(address, c.externalIp, c.externalIpMax)
       else Within(address, c.externalIpV6, c.externalIpV6Max))
    && (c.portRange.Some? ==> c.portRange.value.0 <= port <= c.portRange.value.1)
  }

  /** The gateway's translation of a family chooses among its addresses and ports, and never for the other family. */
  lemma {:induction false} GatewayTranslation(
      c: SnatConfig, eth: nat, packetEth: nat, was: nat, address: nat, port: nat)
    requires c.Serves(eth) && (packetEth == ETH_IPV4 || packetEth == ETH_IPV6)
    ensures MayChoose(NatFor(c, eth), packetEth, was, address, port) <==>
            packetEth == eth && Masquerades(c, eth, address, port)
  {
  }

  /**
   What port forwarding is for: a new connection from outside is committed once, under a translation that sends it to
   the target of the last rule that applies and nowhere else.
   */
  lemma {:induction false} DnatReachesTarget(
      c: DnatConfig, base: nat, flows: seq<Flow>, tables: Tables, a: Arrival, r: DnatRule)
    requires Unused(tables, base) && ApproachesDnat(flows, c, base)
    requires a.packet.inPort == c.externalPort && LastRule(c.rules, a.packet) == Some(r)
    requires New in StateAt(a, c.zone, base + 1) && Est !in StateAt(a, c.zone, base + 1)
             && Inv !in StateAt(a, c.zone, base + 1)
    ensures var commits := RunTable(Install(tables, flows), a, base, {}).commits;
            && |commits| == 1 && commits[0].conn == a.conn && commits[0].zone == c.zone && commits[0].translation.Some?
            && !commits[0].forced && !commits[0].translation.value.source && !commits[0].translation.value.random
            && forall address, port ::
                 MayChoose(commits[0].translation.value, a.packet.ethType, a.packet.dstPort, address, port)
                 <==> Target(r, a.packet, address, port)
  {
    var k := LastRuleIndex(c.rules, a.packet);
    assert r == c.rules[k] && r in c.rules;
    assert RunTable(Install(tables, flows), a, base, {})
           == SentOn(DnatPolicy(c, a, StateAt(a, c.zone, base + 1)), base);
    forall address, port
      ensures MayChoose(TargetOf(r), a.packet.ethType, a.packet.dstPort, address, port) <==>
              Target(r, a.packet, address, port)
    {
      RuleTranslation(r, a.packet, address, port);
    }
  }

  /**
   What masquerading is for: a new connection from inside is committed once, under a translation to the configured
   addresses of its family and the configured ports.
   */
  lemma {:induction false} SnatMasquerades(c: SnatConfig, base: nat, flows: seq<Flow>, tables: Tables, a: Arrival)
    requires Unused(tables, base) && ApproachesSnat(flows, c, base)
    requires a.packet.inPort == c.internalPort && c.Serves(a.packet.ethType)
    requires New in StateAt(a, c.zone, base + 1) && Est !in StateAt(a, c.zone, base + 1)
             && Inv !in StateAt(a, c.zone, base + 1)
    ensures var commits := RunTable(Install(tables, flows), a, base, {}).commits;
            && |commits| == 1 && commits[0].conn == a.conn && commits[0].zone == c.zone && commits[0].translation.Some?
            && !commits[0].forced && commits[0].translation.value.source
            && (commits[0].translation.value.random <==> c.randomPorts)
            && forall was, address, port ::
                 MayChoose(commits[0].translation.value, a.packet.ethType, was, address, port)
                 <==> Masquerades(c, a.packet.ethType, address, port)
  {
    assert RunTable(Install(tables, flows), a, base, {})
           == SentOn(SnatPolicy(c, a, StateAt(a, c.zone, base + 1)), base);
    forall was, address, port
      ensures MayChoose(NatFor(c, a.packet.ethType), a.packet.ethType, was, address, port)
         <==> Masquerades(c, a.packet.ethType, address, port)
    {
      GatewayTranslation(c, a.packet.ethType, a.packet.ethType, was, address, port);
    }
  }

  /**
   Packets the tracker calls neither new nor established are lost, whatever else it says of them: connections that are
   only related to an established one are not forwarded.
   */
  lemma {:induction false} RelatedOnlyDropped(s: SnatConfig, d: DnatConfig, a: Arrival, ct: set<CtFlag>)
    requires New !in ct && Est !in ct && a.packet.ethType != ETH_ARP
    ensures SnatPolicy(s, a, ct) == NOTHING && DnatPolicy(d, a, ct) == NOTHING
  {
  }

  /** A later rule for the same family, protocol and port overrides an earlier one; other rules do not matter. */
  lemma {:induction false} LastRuleOverrides(rules: seq<DnatRule>, more: seq<DnatRule>, p: Packet)
    ensures LastRule(rules + more, p) == if LastRule(more, p).Some? then LastRule(more, p) else LastRule(rules, p)
    decreases |more|
  {
    if more == [] {
      assert rules + more == rules;
    } else {
      var n := |more| - 1;
      assert (rules + more)[..|rules| + n] == rules + more[..n];
      LastRuleOverrides(rules, more[..n], p);
    }
  }
}
