/**
 Building an OVSDB transaction: operations, the names of inserted rows, the topology calls that expand to operations,
 and what is learnt from the server's result.
 */
module Transactions {
  import opened Common
  import opened Rpc
  import opened Replica
  import opened Seqs

  /** An existing row, or a row inserted by the same transaction. */
  datatype RowRef = Existing(uuid: Uuid) | Named(name: string)

  datatype TableName = OpenVSwitch | Bridge | Port | Interface | Controller

  datatype Column =
    | Name | Type | Options | Interfaces | Tag | VlanMode | Trunks | Ports | Bridges | Controllers | FailMode | Target

  datatype Atom = Text(s: string) | Num(n: nat) | Link(row: RowRef)

  /** A column value as sent: a single atom, a set, or a map. */
  datatype Datum = One(atom: Atom) | Many(atoms: seq<Atom>) | Pairs(pairs: seq<(string, string)>)

  type Columns = map<Column, Datum>

  datatype Condition = AnyRow | IsRow(uuid: Uuid) | NameIs(name: string)

  datatype Mutation = Mutation(column: Column, add: bool, value: Datum)

  datatype Op =
    | Insert(table: TableName, row: Columns, uuidName: string)
    | Update(table: TableName, condition: Condition, row: Columns)
    | Mutate(table: TableName, condition: Condition, mutations: seq<Mutation>)
    | Delete(table: TableName, condition: Condition)
    | Comment(text: string)

  datatype Status = Uncommitted | Unchanged | Incomplete | Aborted | Success | TryAgain | NotLocked | Failed

  // ------------------------------------------------------------------- names

  function Digit(n: nat): (c: char)
    requires n < 10
  {
    "0123456789"[n]
  }

  function Decimal(n: nat): (s: string)
    ensures s != []
  {
    if n < 10 then [Digit(n)] else Decimal(n / 10) + [Digit(n % 10)]
  }

  /** The name of the `n`-th inserted row, and the key of the `n`-th result: `row{n}`. */
  function RowName(n: nat): string { "row" + Decimal(n) }

  lemma {:induction false} DecimalInjective(a: nat, b: nat)
    ensures Decimal(a) == Decimal(b) ==> a == b
  {
    var s, t := Decimal(a), Decimal(b);
    if s == t {
      assert s[|s| - 1] == Digit(a % 10) && t[|t| - 1] == Digit(b % 10);
      if a >= 10 && b >= 10 {
        assert Decimal(a / 10) == s[..|s| - 1] && Decimal(b / 10) == t[..|t| - 1];
        DecimalInjective(a / 10, b / 10);
      }
    }
  }

  lemma {:induction false} RowNameInjective(a: nat, b: nat)
    ensures RowName(a) == RowName(b) <==> a == b
  {
    assert RowName(a)[3..] == Decimal(a) && RowName(b)[3..] == Decimal(b);
    DecimalInjective(a, b);
  }

  /** The number a string of decimal digits denotes. */
  function Read(s: string): int {
    if s == [] then 0 else Read(s[..|s| - 1]) * 10 + (s[|s| - 1] as int - '0' as int)
  }

  /** A name is the word "row" and the number, without leading zeros. */
  lemma {:induction false} RowNameReads(n: nat)
    ensures var s := RowName(n);
            s[..3] == "row" && Read(s[3..]) == n && (n > 0 ==> s[3] != '0')
  {
    assert RowName(n)[..3] == "row" && RowName(n)[3..] == Decimal(n);
    DecimalReads(n);
  }

  lemma {:induction false} DecimalReads(n: nat)
    ensures Read(Decimal(n)) == n && (n > 0 ==> Decimal(n)[0] != '0')
  {
    DigitReads(n % 10);
    if n >= 10 {
      DecimalReads(n / 10);
      var s := Decimal(n);
      assert s[..|s| - 1] == Decimal(n / 10);
    } else {
      assert Decimal(n)[..0] == "";
    }
  }

  lemma {:induction false} DigitReads(d: nat)
    requires d < 10
    ensures Digit(d) as int - '0' as int == d
  {
  }

  function InsertCount(ops: seq<Op>): (n: nat)
    ensures n <= |ops|
  {
    if ops == [] then 0 else InsertCount(ops[..|ops| - 1]) + if ops[|ops| - 1].Insert? then 1 else 0
  }

  lemma {:induction false} InsertCountConcat(a: seq<Op>, b: seq<Op>)
    ensures InsertCount(a + b) == InsertCount(a) + InsertCount(b)
    decreases |b|
  {
    if b == [] {
      assert a + b == a;
    } else {
      SnocConcat(a, b);
      InsertCountConcat(a, b[..|b| - 1]);
    }
  }

  /** Every insert is named by the number of inserts before it. */
  ghost predicate WellNamed(ops: seq<Op>) {
    forall i :: 0 <= i < |ops| && ops[i].Insert? ==> ops[i].uuidName == RowName(InsertCount(ops[..i]))
  }

  /** The names of a transaction's inserts are pairwise distinct. */
  lemma {:induction false} NamesDistinct(ops: seq<Op>, i: nat, j: nat)
    requires WellNamed(ops) && i < j < |ops| && ops[i].Insert? && ops[j].Insert?
    ensures ops[i].uuidName != ops[j].uuidName
  {
    assert ops[..j] == ops[..i] + ops[i..j] && ops[i..j] == [ops[i]] + ops[i + 1..j];
    InsertCountConcat(ops[..i], ops[i..j]);
    InsertCountConcat([ops[i]], ops[i + 1..j]);
    assert [ops[i]][..0] == [];
    RowNameInjective(InsertCount(ops[..i]), InsertCount(ops[..j]));
  }

  // ----------------------------------------------------------------- results

  function Member(j: Json, key: string): Option<Json> {
    if j.Object? && key in j.members then Some(j.members[key]) else None
  }

  /** The uuid in an operation's result, if it is there and can be read. */
  function ResultUuid(parse: UuidParser, r: Json): Option<Uuid> {
    match Member(r, "uuid")
    case Some(Array(items)) =>
      if |items| == 2 && items[0] == String("uuid") && items[1].String? then parse(items[1].s) else None
    case _ => None
  }

  predicate HasError(r: Json) { Member(r, "error").Some? && Member(r, "error").value != Null }

  /** The first failed operation, or the number of results. */
  function FirstError(results: seq<Json>): (n: nat)
    ensures n <= |results|
    ensures n < |results| ==> HasError(results[n])
    ensures forall i :: 0 <= i < n ==> !HasError(results[i])
    decreases |results|
  {
    if results == [] || HasError(results[0]) then 0 else 1 + FirstError(results[1..])
  }

  /** The map after the first `n` results: result `i` is stored under `row{i}`. */
  function StoredUuids(parse: UuidParser, results: seq<Json>, n: nat, uuids: map<string, Uuid>): map<string, Uuid>
    requires n <= |results|
  {
    if n == 0 then uuids
    else
      var before := StoredUuids(parse, results, n - 1, uuids);
      match ResultUuid(parse, results[n - 1])
      case None => before
      case Some(u) => before[RowName(n - 1) := u]
  }

  // -------------------------------------------------------------------- steps

  /** The steps topology calls are made of. */
  datatype Piece =
    | NewBridge(name: string)
    | NewPort(bridge: string, iface: Columns, port: Columns)
    | NewController(bridge: string, target: string)
    | SetFailMode(bridge: string, mode: string)

  function Inserted(p: Piece): nat {
    match p
    case NewBridge(_) => 3
    case NewPort(_, _, _) => 2
    case NewController(_, _) => 1
    case SetFailMode(_, _) => 0
  }

  function LinkTo(n: nat): Datum { One(Link(Named(RowName(n)))) }

  /** The operations of one piece, its rows numbered from `c`. */
  function PieceOps(p: Piece, c: nat): seq<Op> {
    match p
    case NewBridge(name) =>
      [Insert(Interface, map[Name := One(Text(name)), Type := One(Text("internal"))], RowName(c)),
       Insert(Port, map[Name := One(Text(name)), Interfaces := LinkTo(c)], RowName(c + 1)),
       Insert(Bridge, map[Name := One(Text(name)), Ports := LinkTo(c + 1)], RowName(c + 2)),
       Mutate(OpenVSwitch, AnyRow, [Mutation(Bridges, true, LinkTo(c + 2))])]
    case NewPort(bridge, iface, port) =>
      [Insert(Interface, iface, RowName(c)),
       Insert(Port, port[Interfaces := LinkTo(c)], RowName(c + 1)),
       Mutate(Bridge, NameIs(bridge), [Mutation(Ports, true, LinkTo(c + 1))])]
    case NewController(bridge, target) =>
      [Insert(Controller, map[Target := One(Text(target))], RowName(c)),
       Update(Bridge, NameIs(bridge), map[Controllers := LinkTo(c)])]
    case SetFailMode(bridge, mode) =>
      [Update(Bridge, NameIs(bridge), map[FailMode := One(Text(mode))])]
  }

  function TotalInserted(ps: seq<Piece>): nat {
    if ps == [] then 0 else TotalInserted(ps[..|ps| - 1]) + Inserted(ps[|ps| - 1])
  }

  function Compile(ps: seq<Piece>, c: nat): seq<Op> {
    if ps == [] then []
    else Compile(ps[..|ps| - 1], c) + PieceOps(ps[|ps| - 1], c + TotalInserted(ps[..|ps| - 1]))
  }

  lemma {:induction false} CompileSnoc(ps: seq<Piece>, p: Piece, c: nat)
    ensures Compile(ps + [p], c) == Compile(ps, c) + PieceOps(p, c + TotalInserted(ps))
    ensures TotalInserted(ps + [p]) == TotalInserted(ps) + Inserted(p)
  {
    assert (ps + [p])[..|ps|] == ps;
  }

  lemma {:induction false} FourPushed<T>(s: seq<T>, ops: seq<T>)
    requires |ops| == 4
    ensures s + [ops[0]] + [ops[1]] + [ops[2]] + [ops[3]] == s + ops
  {
  }

  function PlainPort(bridge: string, name: string, ifaceType: string): Piece {
    NewPort(bridge, map[Name := One(Text(name)), Type := One(Text(ifaceType))], map[Name := One(Text(name))])
  }

  function VlanPort(bridge: string, name: string, ifaceType: string, vlan: nat): Piece {
    NewPort(bridge, map[Name := One(Text(name)), Type := One(Text(ifaceType))],
      map[Name := One(Text(name)), Tag := One(Num(vlan))])
  }

  function PatchInterface(name: string, peer: string): Columns {
    map[Name := One(Text(name)), Type := One(Text("patch")), Options := Pairs([("peer", peer)])]
  }

  function PatchPort(bridge: string, name: string, peer: string): Piece {
    NewPort(bridge, PatchInterface(name, peer), map[Name := One(Text(name))])
  }

  /** A single VLAN is sent without the set around it. */
  function VlanSet(vlans: seq<nat>): Datum {
    if |vlans| == 1 then One(Num(vlans[0])) else Many(seq(|vlans|, i requires 0 <= i < |vlans| => Num(vlans[i])))
  }

  function TrunkPatchPort(bridge: string, name: string, peer: string, vlans: seq<nat>): Piece {
    NewPort(bridge, PatchInterface(name, peer),
      map[Name := One(Text(name)), VlanMode := One(Text("trunk")), Trunks := VlanSet(vlans)])
  }

  function PatchName(given: Option<string>, from: string, to: string): string {
    match given
    case Some(name) => name
    case None => "patch-" + from + "-to-" + to
  }

  function DeleteOps(table: TableName, uuids: seq<Uuid>): seq<Op> {
    seq(|uuids|, i requires 0 <= i < |uuids| => Delete(table, IsRow(uuids[i])))
  }

  function DeleteBridgeOps(bridge: Uuid, ports: seq<Uuid>, ifaces: seq<Uuid>): seq<Op> {
    [Mutate(OpenVSwitch, AnyRow, [Mutation(Bridges, false, Many([Link(Existing(bridge))]))])]
    + DeleteOps(Interface, ifaces) + DeleteOps(Port, ports) + [Delete(Bridge, IsRow(bridge))]
  }

  function DeletePortOps(bridge: Uuid, port: Uuid, iface: Uuid): seq<Op> {
    [Mutate(Bridge, IsRow(bridge), [Mutation(Ports, false, Many([Link(Existing(port))]))]),
     Delete(Interface, IsRow(iface)), Delete(Port, IsRow(port))]
  }

  class Transaction {
    const dbName: string
    var operations: seq<Op>
    var status: Status
    var uuidMap: map<string, Uuid>
    var uuidCounter: nat

    /** The counter is the number of inserts, and each insert is named by the count before it. */
    ghost predicate Valid()
      reads this
    {
      WellNamed(operations) && uuidCounter == InsertCount(operations)
    }

    constructor (dbName: string)
      ensures Valid() && this.dbName == dbName && operations == [] && status == Uncommitted && uuidMap == map[]
    {
      this.dbName := dbName;
      operations := [];
      status := Uncommitted;
      uuidMap := map[];
      uuidCounter := 0;
    }

    predicate IsEmpty()
      reads this
    {
      operations == []
    }

    method NextTempUuid() returns (name: string)
      modifies this`uuidCounter
      ensures name == RowName(old(uuidCounter)) && uuidCounter == old(uuidCounter) + 1
    {
      name := RowName(uuidCounter);
      uuidCounter := uuidCounter + 1;
    }

    method Insert(table: TableName, row: Columns) returns (r: RowRef)
      requires Valid()
      modifies this`operations, this`uuidCounter
      ensures Valid() && uuidCounter == old(uuidCounter) + 1 && r == Named(RowName(old(uuidCounter)))
      ensures operations == old(operations) + [Op.Insert(table, row, RowName(old(uuidCounter)))]
    {
      var uuidName := NextTempUuid();
      Pushed(operations, Op.Insert(table, row, uuidName));
      operations := operations + [Op.Insert(table, row, uuidName)];
      r := Named(uuidName);
    }

    /** Operations other than inserts only add themselves. */
    method Push(op: Op)
      requires Valid() && !op.Insert?
      modifies this`operations
      ensures Valid() && operations == old(operations) + [op]
    {
      Pushed(operations, op);
      operations := operations + [op];
    }

    method Mutate(table: TableName, uuid: Uuid, mutations: seq<Mutation>)
      requires Valid()
      modifies this`operations
      ensures Valid() && operations == old(operations) + [Op.Mutate(table, IsRow(uuid), mutations)]
    {
      Push(Op.Mutate(table, IsRow(uuid), mutations));
    }

    method MutateByName(table: TableName, name: string, mutations: seq<Mutation>)
      requires Valid()
      modifies this`operations
      ensures Valid() && operations == old(operations) + [Op.Mutate(table, NameIs(name), mutations)]
    {
      Push(Op.Mutate(table, NameIs(name), mutations));
    }

    method MutateWhere(table: TableName, condition: Condition, mutations: seq<Mutation>)
      requires Valid()
      modifies this`operations
      ensures Valid() && operations == old(operations) + [Op.Mutate(table, condition, mutations)]
    {
      Push(Op.Mutate(table, condition, mutations));
    }

    method UpdateByName(table: TableName, name: string, row: Columns)
      requires Valid()
      modifies this`operations
      ensures Valid() && operations == old(operations) + [Op.Update(table, NameIs(name), row)]
    {
      Push(Op.Update(table, NameIs(name), row));
    }

    method Delete(table: TableName, uuid: Uuid)
      requires Valid()
      modifies this`operations
      ensures Valid() && operations == old(operations) + [Op.Delete(table, IsRow(uuid))]
    {
      Push(Op.Delete(table, IsRow(uuid)));
    }

    method CreateBridge(name: string) returns (bridge: RowRef, port: RowRef, iface: RowRef)
      requires Valid()
      modifies this`operations, this`uuidCounter
      ensures Valid() && uuidCounter == old(uuidCounter) + 3
      ensures operations == old(operations) + PieceOps(NewBridge(name), old(uuidCounter))
      ensures iface == Named(RowName(old(uuidCounter))) && port == Named(RowName(old(uuidCounter) + 1))
      ensures bridge == Named(RowName(old(uuidCounter) + 2))
    {
      iface := Insert(Interface, map[Name := One(Text(name)), Type := One(Text("internal"))]);
      port := Insert(Port, map[Name := One(Text(name)), Interfaces := One(Link(iface))]);
      bridge := RegisterBridge(name, port);
      FourPushed(old(operations), PieceOps(NewBridge(name), old(uuidCounter)));
    }

    /** The last two operations of creating a bridge. */
    method RegisterBridge(name: string, port: RowRef) returns (bridge: RowRef)
      requires Valid()
      modifies this`operations, this`uuidCounter
      ensures Valid() && uuidCounter == old(uuidCounter) + 1 && bridge == Named(RowName(old(uuidCounter)))
      ensures operations == old(operations)
        + [Op.Insert(Bridge, map[Name := One(Text(name)), Ports := One(Link(port))], RowName(old(uuidCounter)))]
        + [Op.Mutate(OpenVSwitch, AnyRow, [Mutation(Bridges, true, One(Link(bridge)))])]
    {
      bridge := Insert(Bridge, map[Name := One(Text(name)), Ports := One(Link(port))]);
      MutateWhere(OpenVSwitch, AnyRow, [Mutation(Bridges, true, One(Link(bridge)))]);
    }

    /** The three operations every way of adding a port comes down to. */
    method AttachPort(bridge: string, ifaceRow: Columns, portRow: Columns) returns (port: RowRef, iface: RowRef)
      requires Valid()
      modifies this`operations, this`uuidCounter
      ensures Valid() && uuidCounter == old(uuidCounter) + 2
      ensures operations == old(operations) + PieceOps(NewPort(bridge, ifaceRow, portRow), old(uuidCounter))
      ensures iface == Named(RowName(old(uuidCounter))) && port == Named(RowName(old(uuidCounter) + 1))
    {
      iface := Insert(Interface, ifaceRow);
      port := Insert(Port, portRow[Interfaces := One(Link(iface))]);
      MutateByName(Bridge, bridge, [Mutation(Ports, true, One(Link(port)))]);
    }

    method AddPort(bridge: string, name: string, ifaceType: string) returns (port: RowRef, iface: RowRef)
      requires Valid()
      modifies this`operations, this`uuidCounter
      ensures Valid() && uuidCounter == old(uuidCounter) + 2
      ensures operations == old(operations) + PieceOps(PlainPort(bridge, name, ifaceType), old(uuidCounter))
      ensures iface == Named(RowName(old(uuidCounter))) && port == Named(RowName(old(uuidCounter) + 1))
    {
      port, iface := AttachPort(bridge, map[Name := One(Text(name)), Type := One(Text(ifaceType))],
        map[Name := One(Text(name))]);
    }

    method AddVlanPort(bridge: string, name: string, vlan: nat) returns (port: RowRef, iface: RowRef)
      requires Valid()
      modifies this`operations, this`uuidCounter
      ensures Valid() && uuidCounter == old(uuidCounter) + 2
      ensures operations == old(operations) + PieceOps(VlanPort(bridge, name, "internal", vlan), old(uuidCounter))
      ensures iface == Named(RowName(old(uuidCounter))) && port == Named(RowName(old(uuidCounter) + 1))
    {
      port, iface := AttachPort(bridge, map[Name := One(Text(name)), Type := One(Text("internal"))],
        map[Name := One(Text(name)), Tag := One(Num(vlan))]);
    }

    method AddPatchPorts(bridge1: string, bridge2: string, name1: Option<string>, name2: Option<string>)
        returns (port1: RowRef, iface1: RowRef, port2: RowRef, iface2: RowRef)
      requires Valid()
      modifies this`operations, this`uuidCounter
      ensures Valid() && uuidCounter == old(uuidCounter) + 4
      ensures var p1, p2 := PatchName(name1, bridge1, bridge2), PatchName(name2, bridge2, bridge1);
              operations == old(operations) + PieceOps(PatchPort(bridge1, p1, p2), old(uuidCounter))
                            + PieceOps(PatchPort(bridge2, p2, p1), old(uuidCounter) + 2)
      ensures iface1 == Named(RowName(old(uuidCounter))) && port1 == Named(RowName(old(uuidCounter) + 1))
      ensures iface2 == Named(RowName(old(uuidCounter) + 2)) && port2 == Named(RowName(old(uuidCounter) + 3))
    {
      var p1, p2 := PatchName(name1, bridge1, bridge2), PatchName(name2, bridge2, bridge1);
      port1, iface1 := AttachPort(bridge1, PatchInterface(p1, p2), map[Name := One(Text(p1))]);
      port2, iface2 := AttachPort(bridge2, PatchInterface(p2, p1), map[Name := One(Text(p2))]);
    }

    method AddTrunkPatchPorts(
        bridge1: string, bridge2: string, vlans: seq<nat>, name1: Option<string>, name2: Option<string>)
        returns (port1: RowRef, iface1: RowRef, port2: RowRef, iface2: RowRef)
      requires Valid()
      modifies this`operations, this`uuidCounter
      ensures Valid() && uuidCounter == old(uuidCounter) + 4
      ensures var p1, p2 := PatchName(name1, bridge1, bridge2), PatchName(name2, bridge2, bridge1);
              operations == old(operations) + PieceOps(TrunkPatchPort(bridge1, p1, p2, vlans), old(uuidCounter))
                            + PieceOps(TrunkPatchPort(bridge2, p2, p1, vlans), old(uuidCounter) + 2)
      ensures iface1 == Named(RowName(old(uuidCounter))) && port1 == Named(RowName(old(uuidCounter) + 1))
      ensures iface2 == Named(RowName(old(uuidCounter) + 2)) && port2 == Named(RowName(old(uuidCounter) + 3))
    {
      var p1, p2 := PatchName(name1, bridge1, bridge2), PatchName(name2, bridge2, bridge1);
      var vlanSet := VlanSet(vlans);
      port1, iface1 := AttachPort(bridge1, PatchInterface(p1, p2),
        map[Name := One(Text(p1)), VlanMode := One(Text("trunk")), Trunks := vlanSet]);
      port2, iface2 := AttachPort(bridge2, PatchInterface(p2, p1),
        map[Name := One(Text(p2)), VlanMode := One(Text("trunk")), Trunks := vlanSet]);
    }

    method SetController(bridge: string, target: string) returns (controller: RowRef)
      requires Valid()
      modifies this`operations, this`uuidCounter
      ensures Valid() && uuidCounter == old(uuidCounter) + 1 && controller == Named(RowName(old(uuidCounter)))
      ensures operations == old(operations) + PieceOps(NewController(bridge, target), old(uuidCounter))
    {
      controller := Insert(Controller, map[Target := One(Text(target))]);
      UpdateByName(Bridge, bridge, map[Controllers := One(Link(controller))]);
    }

    method DeleteAll(table: TableName, uuids: seq<Uuid>)
      requires Valid()
      modifies this`operations
      ensures Valid() && operations == old(operations) + DeleteOps(table, uuids)
    {
      for i := 0 to |uuids|
        invariant Valid() && operations == old(operations) + DeleteOps(table, uuids)[..i]
      {
        Delete(table, uuids[i]);
      }
    }

    method DeleteBridgeUuid(bridge: Uuid, ports: seq<Uuid>, ifaces: seq<Uuid>)
      requires Valid()
      modifies this`operations
      ensures Valid() && operations == old(operations) + DeleteBridgeOps(bridge, ports, ifaces)
    {
      MutateWhere(OpenVSwitch, AnyRow, [Mutation(Bridges, false, Many([Link(Existing(bridge))]))]);
      DeleteAll(Interface, ifaces);
      DeleteAll(Port, ports);
      Delete(Bridge, bridge);
    }

    method DeletePortUuid(bridge: Uuid, port: Uuid, iface: Uuid)
      requires Valid()
      modifies this`operations
      ensures Valid() && operations == old(operations) + DeletePortOps(bridge, port, iface)
    {
      Mutate(Bridge, bridge, [Mutation(Ports, false, Many([Link(Existing(port))]))]);
      Delete(Interface, iface);
      Delete(Port, port);
    }

    /** Results are read in order; the uuids before a failed operation are kept. */
    method ProcessResult(parse: UuidParser, result: Json) returns (ok: bool)
      modifies this`status, this`uuidMap
      ensures ok <==> result.Array? && FirstError(result.items) == |result.items|
      ensures status == if ok then Success else Failed
      ensures uuidMap == if result.Array? then StoredUuids(parse, result.items, FirstError(result.items), old(uuidMap))
              else old(uuidMap)
    {
      if !result.Array? {
        status := Failed;
        return false;
      }
      var results := result.items;
      for i := 0 to |results|
        invariant i <= FirstError(results)
        invariant uuidMap == StoredUuids(parse, results, i, old(uuidMap))
      {
        var r := results[i];
        var error := Member(r, "error");
        if error.Some? && error.value != Null {
          status := Failed;
          return false;
        }
        var uuid := ResultUuid(parse, r);
        if uuid.Some? {
          uuidMap := uuidMap[RowName(i) := uuid.value];
        }
      }
      status := Success;
      ok := true;
    }
  }

  lemma {:induction false} Pushed(ops: seq<Op>, op: Op)
    requires WellNamed(ops) && (op.Insert? ==> op.uuidName == RowName(InsertCount(ops)))
    ensures WellNamed(ops + [op]) && InsertCount(ops + [op]) == InsertCount(ops) + if op.Insert? then 1 else 0
  {
    var all := ops + [op];
    assert all[..|ops|] == ops;
    forall i | 0 <= i < |all| && all[i].Insert?
      ensures all[i].uuidName == RowName(InsertCount(all[..i]))
    {
      assert i < |ops| ==> all[..i] == ops[..i];
    }
  }

  // ------------------------------------------------------------ uuids by name

  /**
   A reply to `ops` in which all succeed: a uuid for each insert, none for other operations (RFC 7047, section 5.2).
   */
  ghost predicate Answers(parse: UuidParser, ops: seq<Op>, results: seq<Json>, uuids: seq<Uuid>) {
    && |results| == |ops| == |uuids|
    && (forall i :: 0 <= i < |ops| ==> !HasError(results[i]))
    && (forall i :: 0 <= i < |ops| ==> ResultUuid(parse, results[i]) == if ops[i].Insert? then Some(uuids[i]) else None)
  }

  lemma {:induction false} StoredUnder(parse: UuidParser, results: seq<Json>, n: nat, k: nat)
    requires n <= |results|
    ensures var m := StoredUuids(parse, results, n, map[]);
            && (RowName(k) in m <==> k < n && ResultUuid(parse, results[k]).Some?)
            && (RowName(k) in m ==> m[RowName(k)] == ResultUuid(parse, results[k]).value)
  {
    if n > 0 {
      StoredUnder(parse, results, n - 1, k);
      RowNameInjective(n - 1, k);
    }
  }

  /**
   After a successful result with distinct uuids, the name `insert` returned leads to the row it inserted if and only
   if nothing but inserts precedes that insert: names count inserts, results are stored by operation.
   */
  lemma {:induction false} UuidByNameIff(parse: UuidParser, ops: seq<Op>, results: seq<Json>, uuids: seq<Uuid>, i: nat)
    requires WellNamed(ops) && Answers(parse, ops, results, uuids)
    requires forall j, k :: 0 <= j < k < |ops| && ops[j].Insert? && ops[k].Insert? ==> uuids[j] != uuids[k]
    requires i < |ops| && ops[i].Insert?
    ensures var m := StoredUuids(parse, results, FirstError(results), map[]);
            (ops[i].uuidName in m && m[ops[i].uuidName] == uuids[i]) <==> forall j :: 0 <= j < i ==> ops[j].Insert?
  {
    var n := InsertCount(ops[..i]);
    FoundUnder(parse, ops, results, uuids, n);
    AllInserts(ops[..i]);
    assert forall j :: 0 <= j < i ==> ops[..i][j] == ops[j];
  }

  lemma {:induction false} FoundUnder(parse: UuidParser, ops: seq<Op>, results: seq<Json>, uuids: seq<Uuid>, n: nat)
    requires Answers(parse, ops, results, uuids)
    ensures var m := StoredUuids(parse, results, FirstError(results), map[]);
            && (RowName(n) in m <==> n < |ops| && ops[n].Insert?)
            && (RowName(n) in m ==> m[RowName(n)] == uuids[n])
  {
    assert FirstError(results) == |results|;
    StoredUnder(parse, results, |results|, n);
  }

  lemma {:induction false} AllInserts(ops: seq<Op>)
    ensures InsertCount(ops) == |ops| <==> forall j :: 0 <= j < |ops| ==> ops[j].Insert?
  {
    if ops != [] {
      var n := |ops| - 1;
      AllInserts(ops[..n]);
      assert forall j :: 0 <= j < n ==> ops[..n][j] == ops[j];
    }
  }

  /** A server's result for an operation that succeeded (RFC 7047, section 5.2): an insert names its new row. */
  predicate ResultFor(op: Op, result: Json, text: string) {
    if op.Insert? then result == Object(map["uuid" := Array([String("uuid"), String(text)])])
    else result.Object? && "uuid" !in result.members && "error" !in result.members
  }

  /** The same for results as the server writes them, with the rows' uuids as text. */
  lemma {:induction false} UuidByNameOfReply(
      parse: UuidParser, ops: seq<Op>, results: seq<Json>, texts: seq<string>, i: nat)
    requires WellNamed(ops) && |results| == |ops| == |texts|
    requires forall j :: 0 <= j < |ops| ==> ResultFor(ops[j], results[j], texts[j])
    requires forall j :: 0 <= j < |ops| && ops[j].Insert? ==> parse(texts[j]).Some?
    requires forall j, k :: 0 <= j < k < |ops| && ops[j].Insert? && ops[k].Insert? ==>
             parse(texts[j]) != parse(texts[k])
    requires i < |ops| && ops[i].Insert?
    ensures var m := StoredUuids(parse, results, FirstError(results), map[]);
            (ops[i].uuidName in m && m[ops[i].uuidName] == parse(texts[i]).value)
            <==> forall j :: 0 <= j < i ==> ops[j].Insert?
  {
    var uuids := seq(|ops|, j requires 0 <= j < |ops| => parse(texts[if ops[j].Insert? then j else i]).value);
    forall j | 0 <= j < |ops|
      ensures !HasError(results[j])
      ensures ResultUuid(parse, results[j]) == if ops[j].Insert? then Some(uuids[j]) else None
    {
      ResultRead(parse, ops[j], results[j], texts[j]);
    }
    UuidByNameIff(parse, ops, results, uuids, i);
  }

  lemma {:induction false} ResultRead(parse: UuidParser, op: Op, result: Json, text: string)
    requires ResultFor(op, result, text)
    ensures !HasError(result) && ResultUuid(parse, result) == if op.Insert? then parse(text) else None
  {
  }

  /** The first result with an error makes the whole result a failure, and nothing after it is looked at. */
  lemma {:induction false} ErrorFails(results: seq<Json>, n: nat, members: map<string, Json>)
    requires n < |results| && results[n] == Object(members) && "error" in members && members["error"] != Null
    requires forall i :: 0 <= i < n && results[i].Object? ==> "error" !in results[i].members
    ensures FirstError(results) == n
  {
  }

  /**
   So the documented lookup fails for the second bridge of a transaction: its interface is not found, and the name of
   its port leads to its interface.
   */
  lemma {:induction false} SecondBridgeMisread(
      parse: UuidParser, first: string, second: string, ops: seq<Op>, results: seq<Json>, uuids: seq<Uuid>)
    requires ops == Compile([NewBridge(first), NewBridge(second)], 0) && Answers(parse, ops, results, uuids)
    ensures var m := StoredUuids(parse, results, FirstError(results), map[]);
            && |ops| == 8
            && ops[4].Insert? && ops[4].uuidName !in m
            && ops[5].Insert? && ops[5].uuidName in m && m[ops[5].uuidName] == uuids[4]
  {
    TwoPieces(NewBridge(first), NewBridge(second), 0);
    FoundUnder(parse, ops, results, uuids, 3);
    FoundUnder(parse, ops, results, uuids, 4);
  }

  lemma {:induction false} TwoPieces(p: Piece, q: Piece, c: nat)
    ensures Compile([p, q], c) == PieceOps(p, c) + PieceOps(q, c + Inserted(p))
    ensures TotalInserted([p, q]) == Inserted(p) + Inserted(q)
  {
    OnePiece(p, c);
    assert [p, q][..1] == [p];
  }

  lemma {:induction false} OnePiece(p: Piece, c: nat)
    ensures Compile([p], c) == PieceOps(p, c) && TotalInserted([p]) == Inserted(p)
  {
  }
}
