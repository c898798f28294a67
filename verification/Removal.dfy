/** Deleting bridges and ports by uuid, and exactly which lists of rows keep integrity. */
module Removal {
  import opened Common
  import opened Replica
  import opened Transactions
  import opened Ovsdb

  /**
   `after` is `before` without the rows `gone` and without the dropped references. Only bridges, ports and interfaces
   are gone.
   */
  ghost predicate Prunes(before: Database, after: Database, gone: set<Uuid>, dropped: (Uuid, Column, Uuid) -> bool) {
    && after.Keys == before.Keys - gone
    && (forall u :: u in after ==> after[u].table == before[u].table)
    && (forall u :: u in gone && u in before ==> Owned(before[u].table))
    && (forall u, c, v :: Refs(after, u, c, v) <==> u in after && Refs(before, u, c, v) && !dropped(u, c, v))
  }

  /** A row is gone exactly when the row that refers to it is gone or drops the reference. */
  ghost predicate GoneWithOwner(before: Database, gone: set<Uuid>, dropped: (Uuid, Column, Uuid) -> bool) {
    forall u, c, v :: Refs(before, u, c, v) && v in before && Owned(before[v].table) ==>
      (v in gone <==> u in gone || dropped(u, c, v))
  }

  lemma {:induction false} PrunedKeeps(
      before: Database, after: Database, gone: set<Uuid>, dropped: (Uuid, Column, Uuid) -> bool)
    requires Inv(before) && Prunes(before, after, gone, dropped) && GoneWithOwner(before, gone, dropped)
    ensures Inv(after)
  {
    var r :| IsRoot(before, r) && forall u :: IsRoot(before, u) ==> u == r;
    assert IsRoot(after, r);
    forall u | IsRoot(after, u)
      ensures u == r
    {
      assert IsRoot(before, u);
    }
    forall u, c, v | Refs(after, u, c, v)
      ensures Home(c) == Some(after[u].table) && v in after && TargetTable(c) == Some(after[v].table)
    {
      assert Refs(before, u, c, v);
    }
    forall v | v in after && Owned(after[v].table)
      ensures exists u, c :: Refs(after, u, c, v)
    {
      var u, c :| Refs(before, u, c, v);
      assert Refs(after, u, c, v);
    }
  }

  lemma {:induction false} KeptPrunes(
      before: Database, after: Database, gone: set<Uuid>, dropped: (Uuid, Column, Uuid) -> bool)
    requires Inv(before) && Prunes(before, after, gone, dropped) && Inv(after)
    ensures GoneWithOwner(before, gone, dropped)
  {
  }

  // ---------------------------------------------------------------- deleting

  /** The database without the rows of a table that a list names. */
  function Without(db: Database, table: TableName, uuids: seq<Uuid>): Database {
    map u | u in db && !(db[u].table == table && u in uuids) :: db[u]
  }

  lemma {:induction false} DeletesRun(s: Exec, table: TableName, uuids: seq<Uuid>, ids: seq<Uuid>)
    ensures Run(s, DeleteOps(table, uuids), ids) == Some(s.(db := Without(s.db, table, uuids)))
    decreases |uuids|
  {
    if uuids == [] {
      assert Without(s.db, table, uuids) == s.db;
    } else {
      var n := |uuids| - 1;
      DeletesRun(s, table, uuids[..n], ids);
      assert DeleteOps(table, uuids) == DeleteOps(table, uuids[..n]) + [Delete(table, IsRow(uuids[n]))];
      RunSnoc(s, DeleteOps(table, uuids[..n]), Delete(table, IsRow(uuids[n])), ids);
      OneDelete(s.(db := Without(s.db, table, uuids[..n])), table, uuids[n], ids);
      WithoutOneMore(s.db, table, uuids);
    }
  }

  lemma {:induction false} WithoutOneMore(db: Database, table: TableName, uuids: seq<Uuid>)
    requires uuids != []
    ensures Without(Without(db, table, uuids[..|uuids| - 1]), table, [uuids[|uuids| - 1]]) == Without(db, table, uuids)
  {
  }

  lemma {:induction false} OneDelete(s: Exec, table: TableName, u: Uuid, ids: seq<Uuid>)
    ensures Step(s, Delete(table, IsRow(u)), ids) == Some(s.(db := Without(s.db, table, [u])))
  {
    assert Step(s, Delete(table, IsRow(u)), ids).value.db == Without(s.db, table, [u]);
  }

  /** Taking a reference out of a set. */
  function Unlinked(db: Database, table: TableName, condition: Condition, column: Column, x: Uuid): Database {
    OnRows(db, table, condition, r => Mutated(r, column, false, {Id(x)}))
  }

  lemma {:induction false} UnlinkStep(
      s: Exec, table: TableName, condition: Condition, column: Column, x: Uuid, ids: seq<Uuid>)
    ensures Step(s, Mutate(table, condition, [Mutation(column, false, Many([Link(Existing(x))]))]), ids)
         == Some(s.(db := Unlinked(s.db, table, condition, column, x)))
  {
    var ms := [Mutation(column, false, Many([Link(Existing(x))]))];
    var atoms := [Link(Existing(x))];
    assert ms[0].value == Many(atoms) && ms[1..] == [];
    assert Values(Many(atoms), s.env) == {Id(x)} by {
      assert ValueOf(atoms[0], s.env).value == Id(x);
      assert forall v :: v in Values(Many(atoms), s.env) <==> v == Id(x);
    }
    forall r: DbRow
      ensures MutatedAll(r, ms, s.env) == Mutated(r, column, false, {Id(x)})
    {
    }
    SameOnRows(s.db, table, condition, r => MutatedAll(r, ms, s.env), r => Mutated(r, column, false, {Id(x)}));
  }

  lemma {:induction false} UnlinkedRefs(
      db: Database, table: TableName, condition: Condition, column: Column, x: Uuid, u: Uuid, c: Column, v: Uuid)
    ensures Refs(Unlinked(db, table, condition, column, x), u, c, v)
       <==> Refs(db, u, c, v) && !(db[u].table == table && Selects(condition, u, db[u]) && c == column && v == x)
  {
    var after := Unlinked(db, table, condition, column, x);
    if u in db && db[u].table == table && Selects(condition, u, db[u]) {
      assert after[u] == Mutated(db[u], column, false, {Id(x)});
      UnlinkedHolds(db[u], column, x, c, v);
    } else if u in db {
      assert after[u] == db[u];
    }
  }

  lemma {:induction false} UnlinkedHolds(row: DbRow, column: Column, x: Uuid, c: Column, v: Uuid)
    ensures var m := Mutated(row, column, false, {Id(x)});
            (c in m.cols && Id(v) in m.cols[c]) <==> (c in row.cols && Id(v) in row.cols[c]) && !(c == column && v == x)
  {
  }

  function AfterDeleteBridge(db: Database, bridge: Uuid, ports: seq<Uuid>, ifaces: seq<Uuid>): Database {
    var unlinked := Unlinked(db, OpenVSwitch, AnyRow, Bridges, bridge);
    Without(Without(Without(unlinked, Interface, ifaces), Port, ports), Bridge, [bridge])
  }

  lemma {:induction false} DeleteBridgeRuns(s: Exec, bridge: Uuid, ports: seq<Uuid>, ifaces: seq<Uuid>, ids: seq<Uuid>)
    ensures Run(s, DeleteBridgeOps(bridge, ports, ifaces), ids)
            == Some(s.(db := AfterDeleteBridge(s.db, bridge, ports, ifaces)))
  {
    var first := [Mutate(OpenVSwitch, AnyRow, [Mutation(Bridges, false, Many([Link(Existing(bridge))]))])];
    var last := Delete(Bridge, IsRow(bridge));
    var one := s.(db := Unlinked(s.db, OpenVSwitch, AnyRow, Bridges, bridge));
    var two := one.(db := Without(one.db, Interface, ifaces));
    var three := two.(db := Without(two.db, Port, ports));
    UnlinkStep(s, OpenVSwitch, AnyRow, Bridges, bridge, ids);
    RunSnoc(s, [], first[0], ids);
    assert [] + [first[0]] == first;
    DeletesRun(one, Interface, ifaces, ids);
    RunConcat(s, first, DeleteOps(Interface, ifaces), ids);
    DeletesRun(two, Port, ports, ids);
    RunConcat(s, first + DeleteOps(Interface, ifaces), DeleteOps(Port, ports), ids);
    OneDelete(three, Bridge, bridge, ids);
    RunSnoc(s, first + DeleteOps(Interface, ifaces) + DeleteOps(Port, ports), last, ids);
  }

  /** The rows of a database that a deletion names. */
  function Gone(db: Database, bridges: seq<Uuid>, ports: seq<Uuid>, ifaces: seq<Uuid>): set<Uuid> {
    set u | u in db && (
      || (db[u].table == Interface && u in ifaces)
      || (db[u].table == Port && u in ports)
      || (db[u].table == Bridge && u in bridges))
  }

  /** The dropped reference to a bridge. */
  function ToBridge(bridge: Uuid): (Uuid, Column, Uuid) -> bool { (u, c, v) => c == Bridges && v == bridge }

  /** The lists name exactly the rows the bridge owns. */
  ghost predicate OwnsExactly(db: Database, bridge: Uuid, ports: seq<Uuid>, ifaces: seq<Uuid>) {
    && (forall u, v :: Refs(db, u, Ports, v) ==> (v in ports <==> u == bridge))
    && (forall u, v :: Refs(db, u, Interfaces, v) ==> (v in ifaces <==> u in ports))
  }

  /**
   Deleting a bridge by uuid keeps integrity if and only if the lists name exactly the rows it owns: a port is listed
   when the bridge refers to it, an interface when a listed port does. Uuids of no port or interface are harmless.
   */
  lemma {:induction false} DeleteBridgeKeepsInvIff(db: Database, bridge: Uuid, ports: seq<Uuid>, ifaces: seq<Uuid>)
    requires Inv(db)
    ensures Inv(AfterDeleteBridge(db, bridge, ports, ifaces)) <==> OwnsExactly(db, bridge, ports, ifaces)
  {
    var after, gone, dropped := AfterDeleteBridge(db, bridge, ports, ifaces), Gone(db, [bridge], ports, ifaces),
      ToBridge(bridge);
    DeleteBridgePrunes(db, bridge, ports, ifaces);
    GoneIffOwned(db, bridge, ports, ifaces);
    if GoneWithOwner(db, gone, dropped) {
      PrunedKeeps(db, after, gone, dropped);
    }
    if Inv(after) {
      KeptPrunes(db, after, gone, dropped);
    }
  }

  lemma {:induction false} DeleteBridgePrunes(db: Database, bridge: Uuid, ports: seq<Uuid>, ifaces: seq<Uuid>)
    requires Inv(db)
    ensures Prunes(db, AfterDeleteBridge(db, bridge, ports, ifaces), Gone(db, [bridge], ports, ifaces),
            ToBridge(bridge))
  {
    var mid, after := Unlinked(db, OpenVSwitch, AnyRow, Bridges, bridge), AfterDeleteBridge(db, bridge, ports, ifaces);
    WithoutAll(mid, [bridge], ports, ifaces);
    UnlinkedRows(db, OpenVSwitch, AnyRow, Bridges, bridge, [bridge], ports, ifaces);
    BridgeUnlinked(db, bridge);
    PrunesFrom(db, mid, after, Gone(db, [bridge], ports, ifaces), ToBridge(bridge));
  }

  lemma {:induction false} BridgeUnlinked(db: Database, bridge: Uuid)
    requires Resolved(db)
    ensures forall u, c, v :: Refs(Unlinked(db, OpenVSwitch, AnyRow, Bridges, bridge), u, c, v)
                         <==> Refs(db, u, c, v) && !ToBridge(bridge)(u, c, v)
  {
    forall u, c, v
      ensures Refs(Unlinked(db, OpenVSwitch, AnyRow, Bridges, bridge), u, c, v) <==>
              Refs(db, u, c, v) && !(c == Bridges && v == bridge)
    {
      UnlinkedRefs(db, OpenVSwitch, AnyRow, Bridges, bridge, u, c, v);
      if c == Bridges && Refs(db, u, c, v) {
        assert Home(c) == Some(db[u].table);
      }
    }
  }

  /** Deleting table by table leaves the rows no list names. */
  lemma {:induction false} WithoutAll(db: Database, bridges: seq<Uuid>, ports: seq<Uuid>, ifaces: seq<Uuid>)
    ensures var after := Without(Without(Without(db, Interface, ifaces), Port, ports), Bridge, bridges);
            after.Keys == db.Keys - Gone(db, bridges, ports, ifaces) && forall u :: u in after ==> after[u] == db[u]
  {
  }

  lemma {:induction false} WithoutTwo(db: Database, ports: seq<Uuid>, ifaces: seq<Uuid>)
    ensures var after := Without(Without(db, Interface, ifaces), Port, ports);
            after.Keys == db.Keys - Gone(db, [], ports, ifaces) && forall u :: u in after ==> after[u] == db[u]
  {
  }

  lemma {:induction false} GoneIffOwned(db: Database, bridge: Uuid, ports: seq<Uuid>, ifaces: seq<Uuid>)
    requires Inv(db)
    ensures GoneWithOwner(db, Gone(db, [bridge], ports, ifaces), ToBridge(bridge)) <==>
            OwnsExactly(db, bridge, ports, ifaces)
  {
    if GoneWithOwner(db, Gone(db, [bridge], ports, ifaces), ToBridge(bridge)) {
      GoneThenOwned(db, bridge, ports, ifaces);
    }
    if OwnsExactly(db, bridge, ports, ifaces) {
      OwnedThenGone(db, bridge, ports, ifaces);
    }
  }

  lemma {:induction false} GoneThenOwned(db: Database, bridge: Uuid, ports: seq<Uuid>, ifaces: seq<Uuid>)
    requires Inv(db) && GoneWithOwner(db, Gone(db, [bridge], ports, ifaces), ToBridge(bridge))
    ensures OwnsExactly(db, bridge, ports, ifaces)
  {
    var gone, dropped := Gone(db, [bridge], ports, ifaces), ToBridge(bridge);
    forall u, v | Refs(db, u, Ports, v)
      ensures v in ports <==> u == bridge
    {
      assert !dropped(u, Ports, v);
      assert u in gone <==> u in [bridge];
    }
    forall u, v | Refs(db, u, Interfaces, v)
      ensures v in ifaces <==> u in ports
    {
      assert !dropped(u, Interfaces, v);
      assert u in gone <==> u in ports;
    }
  }

  lemma {:induction false} OwnedThenGone(db: Database, bridge: Uuid, ports: seq<Uuid>, ifaces: seq<Uuid>)
    requires Inv(db) && OwnsExactly(db, bridge, ports, ifaces)
    ensures GoneWithOwner(db, Gone(db, [bridge], ports, ifaces), ToBridge(bridge))
  {
    var gone, dropped := Gone(db, [bridge], ports, ifaces), ToBridge(bridge);
    forall u, c, v | Refs(db, u, c, v) && v in db && Owned(db[v].table)
      ensures v in gone <==> u in gone || dropped(u, c, v)
    {
      assert u in gone ==> u in db && Owned(db[u].table);
      assert u in [bridge] <==> u == bridge;
    }
  }

  // ------------------------------------------------------------ deleting ports

  function AfterDeletePort(db: Database, bridge: Uuid, port: Uuid, iface: Uuid): Database {
    Without(Without(Unlinked(db, Bridge, IsRow(bridge), Ports, port), Interface, [iface]), Port, [port])
  }

  lemma {:induction false} DeletePortRuns(s: Exec, bridge: Uuid, port: Uuid, iface: Uuid, ids: seq<Uuid>)
    ensures Run(s, DeletePortOps(bridge, port, iface), ids)
            == Some(s.(db := AfterDeletePort(s.db, bridge, port, iface)))
  {
    var ops := DeletePortOps(bridge, port, iface);
    var one := s.(db := Unlinked(s.db, Bridge, IsRow(bridge), Ports, port));
    var two := one.(db := Without(one.db, Interface, [iface]));
    UnlinkStep(s, Bridge, IsRow(bridge), Ports, port, ids);
    OneDelete(one, Interface, iface, ids);
    OneDelete(two, Port, port, ids);
    RunSnoc(s, [], ops[0], ids);
    RunSnoc(s, [] + [ops[0]], ops[1], ids);
    RunSnoc(s, [] + [ops[0]] + [ops[1]], ops[2], ids);
    assert ops == [] + [ops[0]] + [ops[1]] + [ops[2]];
  }

  /** The dropped reference of a bridge to a port. */
  function BridgeToPort(bridge: Uuid, port: Uuid): (Uuid, Column, Uuid) -> bool {
    (u, c, v) => u == bridge && c == Ports && v == port
  }

  /** The port is the bridge's, and the interface is the port's only one; or none of the uuids is of such a row. */
  ghost predicate PortOwnsExactly(db: Database, bridge: Uuid, port: Uuid, iface: Uuid) {
    && (forall u :: Refs(db, u, Ports, port) ==> u == bridge)
    && (forall u, v :: Refs(db, u, Interfaces, v) ==> (v == iface <==> u == port))
  }

  /** Deleting a port by uuid keeps integrity if and only if the uuids name the bridge's port and its one interface. */
  lemma {:induction false} DeletePortKeepsInvIff(db: Database, bridge: Uuid, port: Uuid, iface: Uuid)
    requires Inv(db)
    ensures Inv(AfterDeletePort(db, bridge, port, iface)) <==> PortOwnsExactly(db, bridge, port, iface)
  {
    var after, gone, dropped := AfterDeletePort(db, bridge, port, iface), Gone(db, [], [port], [iface]),
      BridgeToPort(bridge, port);
    DeletePortPrunes(db, bridge, port, iface);
    PortGoneIffOwned(db, bridge, port, iface);
    if GoneWithOwner(db, gone, dropped) {
      PrunedKeeps(db, after, gone, dropped);
    }
    if Inv(after) {
      KeptPrunes(db, after, gone, dropped);
    }
  }

  lemma {:induction false} DeletePortPrunes(db: Database, bridge: Uuid, port: Uuid, iface: Uuid)
    requires Inv(db)
    ensures Prunes(db, AfterDeletePort(db, bridge, port, iface), Gone(db, [], [port], [iface]),
            BridgeToPort(bridge, port))
  {
    var mid, after := Unlinked(db, Bridge, IsRow(bridge), Ports, port), AfterDeletePort(db, bridge, port, iface);
    WithoutTwo(mid, [port], [iface]);
    UnlinkedRows(db, Bridge, IsRow(bridge), Ports, port, [], [port], [iface]);
    PortUnlinked(db, bridge, port);
    PrunesFrom(db, mid, after, Gone(db, [], [port], [iface]), BridgeToPort(bridge, port));
  }

  lemma {:induction false} PortUnlinked(db: Database, bridge: Uuid, port: Uuid)
    requires Resolved(db)
    ensures forall u, c, v :: Refs(Unlinked(db, Bridge, IsRow(bridge), Ports, port), u, c, v)
                         <==> Refs(db, u, c, v) && !BridgeToPort(bridge, port)(u, c, v)
  {
    forall u, c, v
      ensures Refs(Unlinked(db, Bridge, IsRow(bridge), Ports, port), u, c, v)
         <==> Refs(db, u, c, v) && !(u == bridge && c == Ports && v == port)
    {
      UnlinkedRefs(db, Bridge, IsRow(bridge), Ports, port, u, c, v);
      if c == Ports && Refs(db, u, c, v) {
        assert Home(c) == Some(db[u].table);
      }
    }
  }

  lemma {:induction false} PrunesFrom(
      before: Database, mid: Database, after: Database, gone: set<Uuid>, dropped: (Uuid, Column, Uuid) -> bool)
    requires mid.Keys == before.Keys && after.Keys == before.Keys - gone
    requires forall u :: u in after ==> after[u] == mid[u] && mid[u].table == before[u].table
    requires forall u :: u in gone && u in before ==> Owned(before[u].table)
    requires forall u, c, v :: Refs(mid, u, c, v) <==> Refs(before, u, c, v) && !dropped(u, c, v)
    ensures Prunes(before, after, gone, dropped)
  {
  }

  /** Unlinking changes no row's table, so the same rows are named. */
  lemma {:induction false} UnlinkedRows(db: Database, table: TableName, condition: Condition, column: Column, x: Uuid,
      bridges: seq<Uuid>, ports: seq<Uuid>, ifaces: seq<Uuid>)
    ensures var mid := Unlinked(db, table, condition, column, x);
            && mid.Keys == db.Keys && (forall u :: u in db ==> mid[u].table == db[u].table)
            && Gone(mid, bridges, ports, ifaces) == Gone(db, bridges, ports, ifaces)
  {
  }

  lemma {:induction false} PortGoneIffOwned(db: Database, bridge: Uuid, port: Uuid, iface: Uuid)
    requires Inv(db)
    ensures GoneWithOwner(db, Gone(db, [], [port], [iface]), BridgeToPort(bridge, port)) <==>
            PortOwnsExactly(db, bridge, port, iface)
  {
    if GoneWithOwner(db, Gone(db, [], [port], [iface]), BridgeToPort(bridge, port)) {
      PortGoneThenOwned(db, bridge, port, iface);
    }
    if PortOwnsExactly(db, bridge, port, iface) {
      PortOwnedThenGone(db, bridge, port, iface);
    }
  }

  lemma {:induction false} PortGoneThenOwned(db: Database, bridge: Uuid, port: Uuid, iface: Uuid)
    requires Inv(db) && GoneWithOwner(db, Gone(db, [], [port], [iface]), BridgeToPort(bridge, port))
    ensures PortOwnsExactly(db, bridge, port, iface)
  {
    var gone, dropped := Gone(db, [], [port], [iface]), BridgeToPort(bridge, port);
    assert forall u :: (u in [port] <==> u == port) && (u in [iface] <==> u == iface);
    forall u | Refs(db, u, Ports, port)
      ensures u == bridge
    {
      assert port in gone && u !in gone;
    }
    forall u, v | Refs(db, u, Interfaces, v)
      ensures v == iface <==> u == port
    {
      assert !dropped(u, Interfaces, v);
    }
  }

  lemma {:induction false} PortOwnedThenGone(db: Database, bridge: Uuid, port: Uuid, iface: Uuid)
    requires Inv(db) && PortOwnsExactly(db, bridge, port, iface)
    ensures GoneWithOwner(db, Gone(db, [], [port], [iface]), BridgeToPort(bridge, port))
  {
    var gone, dropped := Gone(db, [], [port], [iface]), BridgeToPort(bridge, port);
    assert forall u :: (u in [port] <==> u == port) && (u in [iface] <==> u == iface);
    forall u, c, v | Refs(db, u, c, v) && v in db && Owned(db[v].table)
      ensures v in gone <==> u in gone || dropped(u, c, v)
    {
      assert Home(c) == Some(db[u].table) && TargetTable(c) == Some(db[v].table);
    }
  }
}
