/**
 An OpenFlow 1.3 pipeline: priority lookup, table miss = drop, identical match and priority replaces,
 and conntrack recirculation that keeps the ingress port.
 */
module FlowTable {
  import opened Common
  import opened Seqs

  const ETH_IPV4 := 0x0800
  const ETH_IPV6 := 0x86dd
  const ETH_ARP := 0x0806
  const TCP := 6
  const UDP := 17
  const CT_COMMIT := 1

  /** As the target of a recirculation this number means none; as a table to add flows to, it does not exist. */
  const NO_TABLE := 255

  datatype CtFlag = New | Est | Rel | Rpl | Inv | Trk

  /** The header fields the templates look at. `dstPort` is the TCP or UDP destination port. */
  datatype Packet = Packet(inPort: nat, ethType: nat, ipProto: nat, dstPort: nat)

  /** A connection-state match: the flags under `mask` must be exactly `value`. */
  datatype CtMatch = CtMatch(value: set<CtFlag>, mask: set<CtFlag>)

  datatype Match = Match(
    inPort: Option<nat>, ethType: Option<nat>, ipProto: Option<nat>,
    tcpDst: Option<nat>, udpDst: Option<nat>, ctState: Option<CtMatch>)
  {
    function InPort(port: nat): Match { this.(inPort := Some(port)) }
    function EthType(t: nat): Match { this.(ethType := Some(t)) }
    function IpProto(p: nat): Match { this.(ipProto := Some(p)) }
    function TcpDst(port: nat): Match { this.(ipProto := Some(TCP), tcpDst := Some(port)) }
    function UdpDst(port: nat): Match { this.(ipProto := Some(UDP), udpDst := Some(port)) }
    function CtStateMasked(value: set<CtFlag>, mask: set<CtFlag>): Match {
      this.(ctState := Some(CtMatch(value, mask)))
    }
  }

  const ANY := Match(None, None, None, None, None, None)

  datatype NatConfig = NatConfig(
    source: bool, random: bool, ipv4Min: Option<nat>, ipv4Max: Option<nat>, ipv6Min: Option<nat>, ipv6Max: Option<nat>,
    portMin: Option<nat>, portMax: Option<nat>)

  datatype Action =
    | Output(port: nat)
    | Normal
    | Drop
    | Ct(flags: nat, zone: nat, recirc: Option<nat>, translation: Option<NatConfig>)

  datatype Flow = Flow(table: nat, priority: nat, matching: Match, actions: seq<Action>)

  predicate Agrees<T(==)>(wanted: Option<T>, got: T) { wanted.None? || wanted.value == got }

  predicate Matches(m: Match, p: Packet, ct: set<CtFlag>) {
    && Agrees(m.inPort, p.inPort) && Agrees(m.ethType, p.ethType) && Agrees(m.ipProto, p.ipProto)
    && (m.tcpDst.Some? ==> p.ipProto == TCP && p.dstPort == m.tcpDst.value)
    && (m.udpDst.Some? ==> p.ipProto == UDP && p.dstPort == m.udpDst.value)
    && (m.ctState.Some? ==> ct * m.ctState.value.mask == m.ctState.value.value)
  }

  // ------------------------------------------------------------- flow tables

  /** Flow entries are identified by table, priority and match. */
  datatype Key = Key(table: nat, priority: nat, matching: Match)

  type Tables = map<Key, seq<Action>>

  function KeyOf(f: Flow): Key { Key(f.table, f.priority, f.matching) }

  /** Adding flows in order; a flow with an existing key replaces the entry (OpenFlow 1.3, section 6.4). */
  function Install(tables: Tables, flows: seq<Flow>): Tables
    decreases |flows|
  {
    if flows == [] then tables else Install(tables[KeyOf(flows[0]) := flows[0].actions], flows[1..])
  }

  predicate Candidate(k: Key, table: nat, p: Packet, ct: set<CtFlag>) {
    k.table == table && Matches(k.matching, p, ct)
  }

  ghost predicate Best(tables: Tables, table: nat, p: Packet, ct: set<CtFlag>, k: Key) {
    && k in tables && Candidate(k, table, p, ct)
    && forall k' :: k' in tables && Candidate(k', table, p, ct) ==> k'.priority <= k.priority
  }

  /** No two entries of the highest matching priority: the switch has no choice to make. */
  ghost predicate Unambiguous(tables: Tables, table: nat, p: Packet, ct: set<CtFlag>) {
    forall k1, k2 :: Best(tables, table, p, ct, k1) && Best(tables, table, p, ct, k2) ==> k1 == k2
  }

  /** The actions of a highest-priority matching entry, if any entry matches. */
  ghost function Lookup(tables: Tables, table: nat, p: Packet, ct: set<CtFlag>): Option<seq<Action>> {
    if k :| Best(tables, table, p, ct, k) then Some(tables[k]) else None
  }

  lemma {:induction false} LookupHit(tables: Tables, table: nat, p: Packet, ct: set<CtFlag>, k: Key)
    requires k in tables && Candidate(k, table, p, ct)
    requires forall k' :: k' in tables && Candidate(k', table, p, ct) && k' != k ==> k'.priority < k.priority
    ensures Unambiguous(tables, table, p, ct) && Lookup(tables, table, p, ct) == Some(tables[k])
  {
    assert Best(tables, table, p, ct, k);
  }

  lemma {:induction false} LookupMiss(tables: Tables, table: nat, p: Packet, ct: set<CtFlag>)
    requires forall k :: k in tables ==> !Candidate(k, table, p, ct)
    ensures Unambiguous(tables, table, p, ct) && Lookup(tables, table, p, ct) == None
  {
  }

  lemma {:induction false} InstallConcat(tables: Tables, a: seq<Flow>, b: seq<Flow>)
    ensures Install(tables, a + b) == Install(Install(tables, a), b)
    decreases |a|
  {
    if a == [] {
      assert a + b == b;
    } else {
      ConsConcat(a, b);
      InstallConcat(tables[KeyOf(a[0]) := a[0].actions], a[1..], b);
    }
  }

  /** An installed table holds an entry for exactly the keys of its flows. */
  lemma {:induction false} InstalledKeys(tables: Tables, flows: seq<Flow>, k: Key)
    ensures k in Install(tables, flows) <==> k in tables || exists f :: f in flows && KeyOf(f) == k
    decreases |flows|
  {
    if flows != [] {
      InstalledKeys(tables[KeyOf(flows[0]) := flows[0].actions], flows[1..], k);
      assert forall f :: f in flows <==> f == flows[0] || f in flows[1..];
    }
  }

  /** The entry for a key holds the actions of the last flow with that key. */
  lemma {:induction false} LastInstalled(tables: Tables, flows: seq<Flow>, i: nat)
    requires i < |flows|
    requires forall j :: i < j < |flows| ==> KeyOf(flows[j]) != KeyOf(flows[i])
    ensures KeyOf(flows[i]) in Install(tables, flows)
    ensures Install(tables, flows)[KeyOf(flows[i])] == flows[i].actions
  {
    assert flows == flows[..i] + ([flows[i]] + flows[i + 1..]);
    InstallConcat(tables, flows[..i], [flows[i]] + flows[i + 1..]);
    var before := Install(tables, flows[..i])[KeyOf(flows[i]) := flows[i].actions];
    assert ([flows[i]] + flows[i + 1..])[1..] == flows[i + 1..];
    Untouched(before, flows[i + 1..], KeyOf(flows[i]));
  }

  /** Tables without entries in the three tables of a pipeline that starts at `base`. */
  predicate Unused(tables: Tables, base: nat) {
    forall k :: k in tables ==> k.table < base || base + 2 < k.table
  }

  predicate AllIn(flows: seq<Flow>, table: nat) { forall f :: f in flows ==> f.table == table }
  predicate NoneIn(flows: seq<Flow>, table: nat) { forall f :: f in flows ==> f.table != table }

  predicate MissedBy(flows: seq<Flow>, p: Packet, ct: set<CtFlag>) {
    forall i :: 0 <= i < |flows| ==> !Matches(flows[i].matching, p, ct)
  }

  /** Of the matching flows, number `i` has the highest priority, shared at most by earlier flows that it replaces. */
  predicate Wins(flows: seq<Flow>, i: nat, p: Packet, ct: set<CtFlag>) {
    && i < |flows| && Matches(flows[i].matching, p, ct)
    && (forall j :: 0 <= j < i && Matches(flows[j].matching, p, ct) ==>
       flows[j].priority < flows[i].priority || KeyOf(flows[j]) == KeyOf(flows[i]))
    && (forall j :: i < j < |flows| && Matches(flows[j].matching, p, ct) ==> flows[j].priority < flows[i].priority)
  }

  /** `flows` are all the flows of `all` in `table`. */
  predicate Section(all: seq<Flow>, flows: seq<Flow>, x: seq<Flow>, y: seq<Flow>, table: nat) {
    all == x + flows + y && NoneIn(x, table) && AllIn(flows, table) && NoneIn(y, table)
  }

  /** The winner among the flows of its table is what the switch finds, whatever is installed in other tables. */
  lemma {:induction false} LookupWinner(
      tables: Tables, all: seq<Flow>, flows: seq<Flow>, x: seq<Flow>, y: seq<Flow>, table: nat, i: nat, p: Packet,
        ct: set<CtFlag>)
    requires forall k :: k in tables ==> k.table != table
    requires Section(all, flows, x, y, table) && Wins(flows, i, p, ct)
    ensures Unambiguous(Install(tables, all), table, p, ct)
    ensures Lookup(Install(tables, all), table, p, ct) == Some(flows[i].actions)
  {
    var n := |x| + i;
    assert all[n] == flows[i];
    assert flows[i] in flows;
    forall j | n < j < |all|
      ensures KeyOf(all[j]) != KeyOf(flows[i])
    {
      assert j < |x + flows| ==> all[j] == flows[j - |x|];
      assert j >= |x + flows| ==> all[j] in y;
    }
    LastInstalled(tables, all, n);
    var t := Install(tables, all);
    forall k | k in t && Candidate(k, table, p, ct) && k != KeyOf(flows[i])
      ensures k.priority < flows[i].priority
    {
      InstalledKeys(tables, all, k);
      var g :| g in all && KeyOf(g) == k;
      assert g in x || g in flows || g in y;
      var j :| 0 <= j < |flows| && flows[j] == g;
    }
    LookupHit(t, table, p, ct, KeyOf(flows[i]));
  }

  lemma {:induction false} LookupNone(
      tables: Tables, all: seq<Flow>, flows: seq<Flow>, x: seq<Flow>, y: seq<Flow>, table: nat, p: Packet,
        ct: set<CtFlag>)
    requires forall k :: k in tables ==> k.table != table
    requires Section(all, flows, x, y, table) && MissedBy(flows, p, ct)
    ensures Unambiguous(Install(tables, all), table, p, ct)
    ensures Lookup(Install(tables, all), table, p, ct) == None
  {
    forall k | k in Install(tables, all)
      ensures !Candidate(k, table, p, ct)
    {
      InstalledKeys(tables, all, k);
      if k !in tables {
        var g :| g in all && KeyOf(g) == k;
        assert g in x || g in flows || g in y;
      }
    }
    LookupMiss(Install(tables, all), table, p, ct);
  }

  lemma {:induction false} Untouched(tables: Tables, flows: seq<Flow>, k: Key)
    requires forall f :: f in flows ==> KeyOf(f) != k
    ensures k in Install(tables, flows) <==> k in tables
    ensures k in tables ==> Install(tables, flows)[k] == tables[k]
    decreases |flows|
  {
    if flows != [] {
      assert flows[0] in flows;
      Untouched(tables[KeyOf(flows[0]) := flows[0].actions], flows[1..], k);
    }
  }

  // ---------------------------------------------------------------- pipeline

  /**
   A packet with the connection it belongs to and what the connection tracker says of it: `verdicts[(z, t)]` are the
   flags, besides `Trk`, it carries when a ct action has looked it up in zone `z` and recirculates it to table `t`.
   */
  datatype Arrival = Arrival(packet: Packet, conn: nat, verdicts: map<(nat, nat), set<CtFlag>>)

  function StateAt(a: Arrival, zone: nat, table: nat): set<CtFlag> {
    {Trk} + if (zone, table) in a.verdicts then a.verdicts[(zone, table)] else {}
  }

  datatype Out = ToPort(port: nat) | ToNormal

  /** `forced` (bit 1 of the flags) makes the tracker forget what it knew of the connection. */
  datatype Commit = Commit(zone: nat, conn: nat, translation: Option<NatConfig>, forced: bool)

  function CommitsOf(a: Arrival, flags: nat, zone: nat, translation: Option<NatConfig>): seq<Commit> {
    if flags % 2 == CT_COMMIT then [Commit(zone, a.conn, translation, flags / 2 % 2 == 1)] else []
  }

  /** What became of a packet. `looped` records a recirculation that does not go to a later table. */
  datatype Trace = Trace(outs: seq<Out>, commits: seq<Commit>, looped: bool)

  const NOTHING := Trace([], [], false)

  function Then(a: Trace, b: Trace): Trace {
    Trace(a.outs + b.outs, a.commits + b.commits, a.looped || b.looped)
  }

  /** Processing in `table`; a miss drops the packet. Tables are numbered 0 to 254. */
  ghost function RunTable(tables: Tables, a: Arrival, table: nat, ct: set<CtFlag>): Trace
    decreases 256 - table, 1, 0
  {
    match Lookup(tables, table, a.packet, ct)
    case None => NOTHING
    case Some(actions) => RunActions(tables, a, table, ct, actions)
  }

  ghost function RunActions(tables: Tables, a: Arrival, table: nat, ct: set<CtFlag>, actions: seq<Action>): Trace
    decreases 256 - table, 0, |actions|
  {
    if actions == [] then NOTHING
    else Then(RunAction(tables, a, table, actions[0]), RunActions(tables, a, table, ct, actions[1..]))
  }

  /**
   A packet is never sent back out of its ingress port (OpenFlow 1.3, section A.2.1), and recirculation to `NO_TABLE`
   is sent as no recirculation.
   */
  ghost function RunAction(tables: Tables, a: Arrival, table: nat, action: Action): Trace
    decreases 256 - table, 0, 0
  {
    match action
    case Output(port) => NOTHING.(outs := if port == a.packet.inPort then [] else [ToPort(port)])
    case Normal => NOTHING.(outs := [ToNormal])
    case Drop => NOTHING
    case Ct(flags, zone, recirc, translation) =>
      var committed := NOTHING.(commits := CommitsOf(a, flags, zone, translation));
      if recirc.None? || recirc.value == NO_TABLE then committed
      else if table < recirc.value < NO_TABLE then
        Then(committed, RunTable(tables, a, recirc.value, StateAt(a, zone, recirc.value)))
      else committed.(looped := true)
  }

  /** What an entry of a single action does, when the next table does `next` with the packet. */
  function Effect(a: Arrival, entry: Option<seq<Action>>, next: Trace): Trace
    requires entry.Some? ==> |entry.value| == 1
  {
    if entry.None? then NOTHING
    else
      match entry.value[0]
      case Output(port) => NOTHING.(outs := if port == a.packet.inPort then [] else [ToPort(port)])
      case Normal => NOTHING.(outs := [ToNormal])
      case Drop => NOTHING
      case Ct(flags, zone, recirc, translation) =>
        var commits := CommitsOf(a, flags, zone, translation);
        if recirc.None? || recirc.value == NO_TABLE then NOTHING.(commits := commits)
        else next.(commits := commits + next.commits)
  }

  /** A table whose entry holds a single action, and recirculates at most to the next table, looked up in one zone. */
  lemma {:induction false} OneActionTable(
      tables: Tables, a: Arrival, table: nat, ct: set<CtFlag>, entry: Option<seq<Action>>, zone: nat)
    requires Lookup(tables, table, a.packet, ct) == entry
    requires entry.Some? ==> |entry.value| == 1
    requires entry.Some? && entry.value[0].Ct? ==>
               entry.value[0].recirc == Some(table + 1) && entry.value[0].zone == zone
    requires table < NO_TABLE
    ensures RunTable(tables, a, table, ct)
         == Effect(a, entry, RunTable(tables, a, table + 1, StateAt(a, zone, table + 1)))
  {
    if entry.Some? {
      var rest := RunActions(tables, a, table, ct, entry.value[1..]);
      assert rest == NOTHING;
      ThenNothing(RunAction(tables, a, table, entry.value[0]));
    }
  }

  lemma {:induction false} ThenNothing(t: Trace)
    ensures Then(t, NOTHING) == t
  {
  }

  // -------------------------------------------------------------------- runs

  /** Packets processed one after the other: all connections committed so far. */
  ghost function Commits(tables: Tables, base: nat, arrivals: seq<Arrival>): seq<Commit> {
    if arrivals == [] then []
    else
      var n := |arrivals| - 1;
      Commits(tables, base, arrivals[..n]) + RunTable(tables, arrivals[n], base, {}).commits
  }

  /**
   An honest tracker, starting empty, calls a connection established in a zone only after it was committed in that zone.
   */
  ghost predicate Honest(tables: Tables, base: nat, zone: nat, arrivals: seq<Arrival>) {
    forall i :: 0 <= i < |arrivals| && Est in StateAt(arrivals[i], zone, base + 1) ==>
                  exists c :: c in Commits(tables, base, arrivals[..i]) && c.zone == zone && c.conn == arrivals[i].conn
  }

  /** A commit was made by some packet. */
  lemma {:induction false} CommitterOf(tables: Tables, base: nat, arrivals: seq<Arrival>, c: Commit) returns (j: nat)
    requires c in Commits(tables, base, arrivals)
    ensures j < |arrivals| && c in RunTable(tables, arrivals[j], base, {}).commits
  {
    var n := |arrivals| - 1;
    if c in RunTable(tables, arrivals[n], base, {}).commits {
      j := n;
    } else {
      j := CommitterOf(tables, base, arrivals[..n], c);
    }
  }
}
