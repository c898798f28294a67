/** What executing topology calls does to the database, and that references keep their integrity. */
module Topology {
  import opened Common
  import opened Replica
  import opened Transactions
  import opened Ovsdb

  // ------------------------------------------------------------- change of db

  /** A relation between rows: `u` refers to `v` in a column. */
  type Relation = (Uuid, Column, Uuid) -> bool

  /**
   `after` is `before` with new rows, some references added, and some controller references dropped.
   */
  ghost predicate Extends(before: Database, after: Database, rows: map<Uuid, TableName>, added: Relation,
        dropped: Relation) {
    && rows.Keys !! before.Keys && after.Keys == before.Keys + rows.Keys
    && (forall u :: u in before ==> after[u].table == before[u].table)
    && (forall u :: u in rows ==> after[u].table == rows[u] && rows[u] != OpenVSwitch)
    && (forall u, c, v :: Refs(after, u, c, v) <==> (Refs(before, u, c, v) && !dropped(u, c, v)) || added(u, c, v))
    && (forall u, c, v :: dropped(u, c, v) ==> c == Controllers)
    && (forall u, c, v :: added(u, c, v) ==>
       u in after && v in rows && Home(c) == Some(after[u].table) && TargetTable(c) == Some(rows[v]))
  }

  /** Each new bridge, port or interface is the target of exactly one added reference. */
  ghost predicate AdoptedOnce(rows: map<Uuid, TableName>, added: Relation) {
    && (forall v :: v in rows && Owned(rows[v]) ==> exists u, c :: added(u, c, v))
    && (forall u1, c1, u2, c2, v :: added(u1, c1, v) && added(u2, c2, v) && v in rows && Owned(rows[v]) ==>
       u1 == u2 && c1 == c2)
  }

  lemma {:induction false} ExtendsSingleton(
      before: Database, after: Database, rows: map<Uuid, TableName>, added: Relation, dropped: Relation)
    requires Singleton(before) && Extends(before, after, rows, added, dropped)
    ensures Singleton(after)
  {
    var r :| IsRoot(before, r) && forall u :: IsRoot(before, u) ==> u == r;
    assert IsRoot(after, r);
    forall u | IsRoot(after, u)
      ensures u == r
    {
      assert u !in rows;
      assert IsRoot(before, u);
    }
  }

  lemma {:induction false} ExtendsResolved(
      before: Database, after: Database, rows: map<Uuid, TableName>, added: Relation, dropped: Relation)
    requires Resolved(before) && Extends(before, after, rows, added, dropped)
    ensures Resolved(after)
  {
  }

  lemma {:induction false} ExtendsOwned(
      before: Database, after: Database, rows: map<Uuid, TableName>, added: Relation, dropped: Relation)
    requires Resolved(before) && OwnedOnce(before) && Extends(before, after, rows, added, dropped)
    requires AdoptedOnce(rows, added)
    ensures OwnedOnce(after)
  {
    forall v | v in after && Owned(after[v].table)
      ensures exists u, c :: Refs(after, u, c, v)
    {
      if v in rows {
        var u, c :| added(u, c, v);
        assert Refs(after, u, c, v);
      } else {
        var u, c :| Refs(before, u, c, v);
        assert !dropped(u, c, v);
        assert Refs(after, u, c, v);
      }
    }
    forall u1, c1, u2, c2, v | Refs(after, u1, c1, v) && Refs(after, u2, c2, v) && v in after && Owned(after[v].table)
      ensures u1 == u2 && c1 == c2
    {
      if v in rows {
        assert !Refs(before, u1, c1, v) && !Refs(before, u2, c2, v);
      } else {
        assert !added(u1, c1, v) && !added(u2, c2, v);
      }
    }
  }

  lemma {:induction false} OwnedAdopted(
      before: Database, after: Database, rows: map<Uuid, TableName>, added: Relation, dropped: Relation)
    requires Resolved(before) && Extends(before, after, rows, added, dropped) && OwnedOnce(after)
    ensures AdoptedOnce(rows, added)
  {
  }

  /** An extension keeps integrity exactly when it adopts each of its rows once. */
  lemma {:induction false} ExtendsInvIff(
      before: Database, after: Database, rows: map<Uuid, TableName>, added: Relation, dropped: Relation)
    requires Inv(before) && Extends(before, after, rows, added, dropped)
    ensures Inv(after) <==> AdoptedOnce(rows, added)
  {
    ExtendsSingleton(before, after, rows, added, dropped);
    ExtendsResolved(before, after, rows, added, dropped);
    if AdoptedOnce(rows, added) {
      ExtendsOwned(before, after, rows, added, dropped);
    }
    if Inv(after) {
      OwnedAdopted(before, after, rows, added, dropped);
    }
  }

  // ---------------------------------------------------------- effect of pieces

  predicate NoLinks(d: Datum) {
    match d
    case One(a) => !a.Link?
    case Many(atoms) => forall i :: 0 <= i < |atoms| ==> !atoms[i].Link?
    case Pairs(_) => true
  }

  /** Columns that hold no references. */
  predicate Plain(row: Columns) { forall c :: c in row ==> NoLinks(row[c]) }

  function PlainValues(row: Columns): map<Column, set<Value>>
    requires Plain(row)
  {
    ColumnsOf(row, map[])
  }

  predicate PlainPiece(p: Piece) { p.NewPort? ==> Plain(p.iface) && Plain(p.port) }

  /** The database after a piece whose rows are `ids[c]`, `ids[c + 1]`, and so on. */
  function PieceDb(p: Piece, db: Database, ids: seq<Uuid>, c: nat): Database
    requires PlainPiece(p) && c + Inserted(p) <= |ids|
  {
    match p
    case NewBridge(name) =>
      var named := map[Name := {TextV(name)}];
      OnRows(
        db[ids[c] := DbRow(Interface, named[Type := {TextV("internal")}])]
          [ids[c + 1] := DbRow(Port, named[Interfaces := {Id(ids[c])}])]
          [ids[c + 2] := DbRow(Bridge, named[Ports := {Id(ids[c + 1])}])],
        OpenVSwitch, AnyRow, r => Mutated(r, Bridges, true, {Id(ids[c + 2])}))
    case NewPort(bridge, iface, port) =>
      OnRows(
        db[ids[c] := DbRow(Interface, PlainValues(iface))]
          [ids[c + 1] := DbRow(Port, PlainValues(port)[Interfaces := {Id(ids[c])}])],
        Bridge, NameIs(bridge), r => Mutated(r, Ports, true, {Id(ids[c + 1])}))
    case NewController(bridge, target) =>
      OnRows(db[ids[c] := DbRow(Controller, map[Target := {TextV(target)}])],
        Bridge, NameIs(bridge), r => Overwritten(r, map[Controllers := {Id(ids[c])}]))
    case SetFailMode(bridge, mode) =>
      OnRows(db, Bridge, NameIs(bridge), r => Overwritten(r, map[FailMode := {TextV(mode)}]))
  }

  /** The names known so far are those of the rows inserted so far. */
  ghost predicate Tracks(s: Exec, ids: seq<Uuid>) {
    && s.next <= |ids|
    && (forall j :: 0 <= j < s.next ==> RowName(j) in s.env && s.env[RowName(j)] == ids[j])
    && (forall j :: s.next <= j ==> RowName(j) !in s.env)
  }

  /** The uuids the server is going to use are new and distinct. */
  ghost predicate FreshIds(db: Database, ids: seq<Uuid>, c: nat) {
    && (forall i, j :: 0 <= i < j < |ids| ==> ids[i] != ids[j])
    && (forall j :: c <= j < |ids| ==> ids[j] !in db)
  }

  lemma {:induction false} Tracked(s: Exec, ids: seq<Uuid>, row: DbRow)
    requires Tracks(s, ids) && s.next < |ids|
    ensures Tracks(Exec(s.db[ids[s.next] := row], s.env[RowName(s.next) := ids[s.next]], s.next + 1), ids)
  {
    forall j | 0 <= j
      ensures RowName(j) == RowName(s.next) <==> j == s.next
    {
      RowNameInjective(j, s.next);
    }
  }

  /** Columns without references do not depend on the names in use. */
  lemma {:induction false} PlainColumns(row: Columns, env: map<string, Uuid>)
    requires Plain(row)
    ensures RowResolves(row, env) && RowResolves(row, map[]) && ColumnsOf(row, env) == PlainValues(row)
  {
    forall c | c in row
      ensures Resolves(row[c], env) && Resolves(row[c], map[]) && Values(row[c], env) == Values(row[c], map[])
    {
      PlainDatum(row[c], env);
    }
  }

  lemma {:induction false} PlainDatum(d: Datum, env: map<string, Uuid>)
    requires NoLinks(d)
    ensures Resolves(d, env) && Resolves(d, map[]) && Values(d, env) == Values(d, map[])
    ensures forall v :: v in Values(d, map[]) ==> !v.Id?
  {
  }

  /** Executing one insert: it succeeds, and the row gets the next uuid. */
  lemma {:induction false} InsertStep(
      s: Exec, table: TableName, row: Columns, cols: map<Column, set<Value>>, ids: seq<Uuid>)
    requires Tracks(s, ids) && s.next < |ids|
    requires RowResolves(row, s.env) && ColumnsOf(row, s.env) == cols
    ensures var t := Exec(s.db[ids[s.next] := DbRow(table, cols)], s.env[RowName(s.next) := ids[s.next]], s.next + 1);
            Step(s, Insert(table, row, RowName(s.next)), ids) == Some(t) && Tracks(t, ids)
  {
    Tracked(s, ids, DbRow(table, cols));
  }

  /** Executing the mutation that links a row just inserted. */
  lemma {:induction false} LinkStep(
      s: Exec, table: TableName, condition: Condition, column: Column, n: nat, ids: seq<Uuid>)
    requires Tracks(s, ids) && n < s.next
    ensures Step(s, Mutate(table, condition, [Mutation(column, true, LinkTo(n))]), ids)
         == Some(s.(db := OnRows(s.db, table, condition, r => Mutated(r, column, true, {Id(ids[n])}))))
  {
    var ms := [Mutation(column, true, LinkTo(n))];
    assert Resolves(ms[0].value, s.env) && Values(ms[0].value, s.env) == {Id(ids[n])};
    forall r: DbRow
      ensures MutatedAll(r, ms, s.env) == Mutated(r, column, true, {Id(ids[n])})
    {
      assert ms[1..] == [];
    }
    SameOnRows(s.db, table, condition, r => MutatedAll(r, ms, s.env), r => Mutated(r, column, true, {Id(ids[n])}));
  }

  /** Executing operations one after the other. */
  lemma {:induction false} RunFirst(s: Exec, op: Op, rest: seq<Op>, ids: seq<Uuid>)
    ensures Run(s, [op] + rest, ids) == match Step(s, op, ids) case None => None case Some(t) => Run(t, rest, ids)
  {
    RunConcat(s, [op], rest, ids);
    assert [op][..0] == [];
    assert Run(s, [op][..0], ids) == Some(s);
  }

  /** The result of a piece, in database, names and count. */
  ghost predicate Did(p: Piece, s: Exec, r: Option<Exec>, ids: seq<Uuid>)
    requires PlainPiece(p) && s.next + Inserted(p) <= |ids|
  {
    r.Some? && r.value.db == PieceDb(p, s.db, ids, s.next) && r.value.next == s.next + Inserted(p)
      && Tracks(r.value, ids)
  }

  function LinkedRow(row: Columns, column: Column, n: nat): Columns { row[column := LinkTo(n)] }

  /** The columns of a row that refers to a row inserted before. */
  lemma {:induction false} LinkedColumns(row: Columns, column: Column, n: nat, s: Exec, ids: seq<Uuid>)
    requires Plain(row) && Tracks(s, ids) && n < s.next
    ensures RowResolves(LinkedRow(row, column, n), s.env)
    ensures ColumnsOf(LinkedRow(row, column, n), s.env) == PlainValues(row)[column := {Id(ids[n])}]
  {
    PlainColumns(row, s.env);
    assert Resolves(LinkTo(n), s.env) && Values(LinkTo(n), s.env) == {Id(ids[n])};
    forall c | c in LinkedRow(row, column, n)
      ensures Resolves(LinkedRow(row, column, n)[c], s.env)
      ensures Values(LinkedRow(row, column, n)[c], s.env) == PlainValues(row)[column := {Id(ids[n])}][c]
    {
      if c != column {
        assert ColumnsOf(row, s.env)[c] == PlainValues(row)[c];
      }
    }
  }

  lemma {:induction false} NewPortRuns(s: Exec, bridge: string, iface: Columns, port: Columns, ids: seq<Uuid>)
    requires Tracks(s, ids) && Plain(iface) && Plain(port) && s.next + 2 <= |ids|
    ensures Did(NewPort(bridge, iface, port), s, Run(s, PieceOps(NewPort(bridge, iface, port), s.next), ids), ids)
  {
    var c, ops := s.next, PieceOps(NewPort(bridge, iface, port), s.next);
    PlainColumns(iface, s.env);
    InsertStep(s, Interface, iface, PlainValues(iface), ids);
    var s1 := Step(s, ops[0], ids).value;
    LinkedColumns(port, Interfaces, c, s1, ids);
    InsertStep(s1, Port, LinkedRow(port, Interfaces, c), PlainValues(port)[Interfaces := {Id(ids[c])}], ids);
    var s2 := Step(s1, ops[1], ids).value;
    LinkStep(s2, Bridge, NameIs(bridge), Ports, c + 1, ids);
    assert ops == [ops[0]] + ([ops[1]] + ([ops[2]] + []));
    RunFirst(s, ops[0], [ops[1]] + ([ops[2]] + []), ids);
    RunFirst(s1, ops[1], [ops[2]] + [], ids);
    RunFirst(s2, ops[2], [], ids);
  }

  lemma {:induction false} NamedValues(name: string, env: map<string, Uuid>)
    ensures var named: Columns := map[Name := One(Text(name))];
            var iface: Columns := named[Type := One(Text("internal"))];
            && Plain(named) && PlainValues(named) == map[Name := {TextV(name)}]
            && RowResolves(iface, env)
               && ColumnsOf(iface, env) == map[Name := {TextV(name)}][Type := {TextV("internal")}]
  {
  }

  lemma {:induction false} NewBridgeRuns(s: Exec, name: string, ids: seq<Uuid>)
    requires Tracks(s, ids) && s.next + 3 <= |ids|
    ensures Did(NewBridge(name), s, Run(s, PieceOps(NewBridge(name), s.next), ids), ids)
  {
    var c, ops := s.next, PieceOps(NewBridge(name), s.next);
    var named: Columns := map[Name := One(Text(name))];
    var iface: Columns := named[Type := One(Text("internal"))];
    var values := map[Name := {TextV(name)}];
    NamedValues(name, s.env);
    InsertStep(s, Interface, iface, values[Type := {TextV("internal")}], ids);
    var s1 := Step(s, ops[0], ids).value;
    LinkedColumns(named, Interfaces, c, s1, ids);
    InsertStep(s1, Port, LinkedRow(named, Interfaces, c), values[Interfaces := {Id(ids[c])}], ids);
    var s2 := Step(s1, ops[1], ids).value;
    LinkedColumns(named, Ports, c + 1, s2, ids);
    InsertStep(s2, Bridge, LinkedRow(named, Ports, c + 1), values[Ports := {Id(ids[c + 1])}], ids);
    var s3 := Step(s2, ops[2], ids).value;
    LinkStep(s3, OpenVSwitch, AnyRow, Bridges, c + 2, ids);
    assert ops == [ops[0]] + ([ops[1]] + ([ops[2]] + ([ops[3]] + [])));
    RunFirst(s, ops[0], [ops[1]] + ([ops[2]] + ([ops[3]] + [])), ids);
    RunFirst(s1, ops[1], [ops[2]] + ([ops[3]] + []), ids);
    RunFirst(s2, ops[2], [ops[3]] + [], ids);
    RunFirst(s3, ops[3], [], ids);
  }

  lemma {:induction false} UpdateStep(
      s: Exec, bridge: string, row: Columns, cols: map<Column, set<Value>>, ids: seq<Uuid>)
    requires RowResolves(row, s.env) && ColumnsOf(row, s.env) == cols
    ensures Step(s, Update(Bridge, NameIs(bridge), row), ids)
         == Some(s.(db := OnRows(s.db, Bridge, NameIs(bridge), r => Overwritten(r, cols))))
  {
  }

  lemma {:induction false} NewControllerRuns(s: Exec, bridge: string, target: string, ids: seq<Uuid>)
    requires Tracks(s, ids) && s.next + 1 <= |ids|
    ensures Did(NewController(bridge, target), s, Run(s, PieceOps(NewController(bridge, target), s.next), ids), ids)
  {
    var c, ops := s.next, PieceOps(NewController(bridge, target), s.next);
    var row: Columns := map[Target := One(Text(target))];
    assert PlainValues(row) == map[Target := {TextV(target)}];
    PlainColumns(row, s.env);
    InsertStep(s, Controller, row, map[Target := {TextV(target)}], ids);
    var s1 := Step(s, ops[0], ids).value;
    var link: Columns := map[Controllers := LinkTo(c)];
    assert Resolves(LinkTo(c), s1.env) && Values(LinkTo(c), s1.env) == {Id(ids[c])};
    assert ColumnsOf(link, s1.env) == map[Controllers := {Id(ids[c])}];
    UpdateStep(s1, bridge, link, map[Controllers := {Id(ids[c])}], ids);
    assert ops == [ops[0]] + ([ops[1]] + []);
    RunFirst(s, ops[0], [ops[1]] + [], ids);
    RunFirst(s1, ops[1], [], ids);
  }

  lemma {:induction false} SetFailModeRuns(s: Exec, bridge: string, mode: string, ids: seq<Uuid>)
    requires Tracks(s, ids)
    ensures Did(SetFailMode(bridge, mode), s, Run(s, PieceOps(SetFailMode(bridge, mode), s.next), ids), ids)
  {
    var ops := PieceOps(SetFailMode(bridge, mode), s.next);
    var row: Columns := map[FailMode := One(Text(mode))];
    assert ColumnsOf(row, s.env) == map[FailMode := {TextV(mode)}];
    UpdateStep(s, bridge, row, map[FailMode := {TextV(mode)}], ids);
    assert ops == [ops[0]] + [];
    RunFirst(s, ops[0], [], ids);
  }

  /** Executing a piece succeeds, every name it uses being that of an earlier insert, and has the piece's effect. */
  lemma {:induction false} PieceRuns(s: Exec, p: Piece, ids: seq<Uuid>)
    requires Tracks(s, ids) && PlainPiece(p) && s.next + Inserted(p) <= |ids|
    ensures Did(p, s, Run(s, PieceOps(p, s.next), ids), ids)
  {
    match p
    case NewBridge(name) => NewBridgeRuns(s, name, ids);
    case NewPort(bridge, iface, port) => NewPortRuns(s, bridge, iface, port, ids);
    case NewController(bridge, target) => NewControllerRuns(s, bridge, target, ids);
    case SetFailMode(bridge, mode) => SetFailModeRuns(s, bridge, mode, ids);
  }

  // ------------------------------------------------- integrity piece by piece

  function RowsOf(p: Piece, ids: seq<Uuid>, c: nat): map<Uuid, TableName>
    requires c + Inserted(p) <= |ids|
  {
    match p
    case NewBridge(_) => map[ids[c] := Interface, ids[c + 1] := Port, ids[c + 2] := Bridge]
    case NewPort(_, _, _) => map[ids[c] := Interface, ids[c + 1] := Port]
    case NewController(_, _) => map[ids[c] := Controller]
    case SetFailMode(_, _) => map[]
  }

  /** The references a piece adds. */
  predicate Adds(p: Piece, db: Database, ids: seq<Uuid>, c: nat, u: Uuid, col: Column, v: Uuid)
    requires c + Inserted(p) <= |ids|
  {
    match p
    case NewBridge(_) =>
      || (u == ids[c + 1] && col == Interfaces && v == ids[c])
      || (u == ids[c + 2] && col == Ports && v == ids[c + 1])
      || (IsRoot(db, u) && col == Bridges && v == ids[c + 2])
    case NewPort(bridge, _, _) =>
      || (u == ids[c + 1] && col == Interfaces && v == ids[c])
      || (HasName(db, u, Bridge, bridge) && col == Ports && v == ids[c + 1])
    case NewController(bridge, _) => HasName(db, u, Bridge, bridge) && col == Controllers && v == ids[c]
    case SetFailMode(_, _) => false
  }

  /** The references a piece drops. */
  predicate Drops(p: Piece, db: Database, u: Uuid, col: Column) {
    p.NewController? && HasName(db, u, Bridge, p.bridge) && col == Controllers
  }

  function Added(p: Piece, db: Database, ids: seq<Uuid>, c: nat): Relation
    requires c + Inserted(p) <= |ids|
  {
    (u, col, v) => Adds(p, db, ids, c, u, col, v)
  }

  function Dropped(p: Piece, db: Database): Relation { (u, col, v) => Drops(p, db, u, col) }

  /** The bridge a piece attaches its port to must be exactly one. */
  ghost predicate Attaches(p: Piece, db: Database) { p.NewPort? ==> OneBridge(db, p.bridge) }

  lemma {:induction false} PlainHoldsNoIds(row: Columns)
    requires Plain(row)
    ensures forall c, v :: c in PlainValues(row) && v in PlainValues(row)[c] ==> !v.Id?
  {
  }

  predicate RowRefs(row: DbRow, col: Column, v: Uuid) { col in row.cols && Id(v) in row.cols[col] }

  /** References after a row is inserted. */
  lemma {:induction false} InsertedRefs(db: Database, i: Uuid, row: DbRow, u: Uuid, col: Column, v: Uuid)
    requires i !in db
    ensures Refs(db[i := row], u, col, v) <==> Refs(db, u, col, v) || (u == i && RowRefs(row, col, v))
  {
  }

  /** References after a link to `x` is added to the selected rows. */
  lemma {:induction false} LinkedRefs(
      db: Database, table: TableName, condition: Condition, column: Column, x: Uuid, u: Uuid, col: Column, v: Uuid)
    ensures Refs(OnRows(db, table, condition, r => Mutated(r, column, true, {Id(x)})), u, col, v)
       <==> Refs(db, u, col, v)
            || (u in db && db[u].table == table && Selects(condition, u, db[u]) && col == column && v == x)
  {
    var after := OnRows(db, table, condition, r => Mutated(r, column, true, {Id(x)}));
    if u in db && db[u].table == table && Selects(condition, u, db[u]) {
      assert after[u] == Mutated(db[u], column, true, {Id(x)});
      MutatedHolds(db[u], column, x, col, v);
    } else if u in db {
      assert after[u] == db[u];
    }
  }

  lemma {:induction false} MutatedHolds(row: DbRow, column: Column, x: Uuid, col: Column, v: Uuid)
    ensures RowRefs(Mutated(row, column, true, {Id(x)}), col, v) <==> RowRefs(row, col, v) || (col == column && v == x)
  {
  }

  /** References after a column of the selected rows is overwritten. */
  lemma {:induction false} OverwrittenRefs(
      db: Database, name: string, column: Column, values: set<Value>, u: Uuid, col: Column, v: Uuid)
    ensures Refs(OnRows(db, Bridge, NameIs(name), r => Overwritten(r, map[column := values])), u, col, v)
       <==> if HasName(db, u, Bridge, name) && col == column then Id(v) in values else Refs(db, u, col, v)
  {
  }

  lemma {:induction false} NewPortExtends(p: Piece, db: Database, ids: seq<Uuid>, c: nat)
    requires p.NewPort? && PlainPiece(p) && FreshIds(db, ids, c) && c + 2 <= |ids|
    ensures Extends(db, PieceDb(p, db, ids, c), RowsOf(p, ids, c), Added(p, db, ids, c), Dropped(p, db))
  {
    var after := PieceDb(p, db, ids, c);
    var iface := DbRow(Interface, PlainValues(p.iface));
    var port := DbRow(Port, PlainValues(p.port)[Interfaces := {Id(ids[c])}]);
    assert ids[c] != ids[c + 1];
    forall u, col, v
      ensures Refs(after, u, col, v) <==> Refs(db, u, col, v) || Adds(p, db, ids, c, u, col, v)
    {
      PlainHoldsNoIds(p.iface);
      PlainHoldsNoIds(p.port);
      assert !RowRefs(iface, col, v) && (RowRefs(port, col, v) <==> col == Interfaces && v == ids[c]);
      InsertedRefs(db, ids[c], iface, u, col, v);
      InsertedRefs(db[ids[c] := iface], ids[c + 1], port, u, col, v);
      LinkedRefs(db[ids[c] := iface][ids[c + 1] := port], Bridge, NameIs(p.bridge), Ports, ids[c + 1], u, col, v);
    }
    ExtendsByRefs(p, db, ids, c);
  }

  /** The rest of what an extension is, once its references are known. */
  lemma {:induction false} ExtendsByRefs(p: Piece, db: Database, ids: seq<Uuid>, c: nat)
    requires PlainPiece(p) && FreshIds(db, ids, c) && c + Inserted(p) <= |ids|
    requires forall u, col, v :: Refs(PieceDb(p, db, ids, c), u, col, v) <==>
               (Refs(db, u, col, v) && !Drops(p, db, u, col)) || Adds(p, db, ids, c, u, col, v)
    ensures Extends(db, PieceDb(p, db, ids, c), RowsOf(p, ids, c), Added(p, db, ids, c), Dropped(p, db))
  {
    RowsAfter(p, db, ids, c);
    AddedFits(p, db, ids, c);
  }

  /** A piece adds its rows and changes no table. */
  lemma {:induction false} RowsAfter(p: Piece, db: Database, ids: seq<Uuid>, c: nat)
    requires PlainPiece(p) && FreshIds(db, ids, c) && c + Inserted(p) <= |ids|
    ensures var (after, rows) := (PieceDb(p, db, ids, c), RowsOf(p, ids, c));
            && rows.Keys !! db.Keys && after.Keys == db.Keys + rows.Keys
            && (forall u :: u in db ==> after[u].table == db[u].table)
            && (forall u :: u in rows ==> after[u].table == rows[u] && rows[u] != OpenVSwitch)
  {
    match p
    case NewBridge(_) => BridgeRowsAfter(p, db, ids, c);
    case NewPort(_, _, _) =>
      assert ids[c] != ids[c + 1];
    case _ =>
  }

  lemma {:induction false} BridgeRowsAfter(p: Piece, db: Database, ids: seq<Uuid>, c: nat)
    requires p.NewBridge? && FreshIds(db, ids, c) && c + 3 <= |ids|
    ensures var (after, rows) := (PieceDb(p, db, ids, c), RowsOf(p, ids, c));
            && rows.Keys !! db.Keys && after.Keys == db.Keys + rows.Keys
            && (forall u :: u in db ==> after[u].table == db[u].table)
            && (forall u :: u in rows ==> after[u].table == rows[u] && rows[u] != OpenVSwitch)
  {
    assert ids[c] != ids[c + 1] && ids[c] != ids[c + 2] && ids[c + 1] != ids[c + 2];
    assert RowsOf(p, ids, c).Keys == {ids[c], ids[c + 1], ids[c + 2]};
  }

  lemma {:induction false} AddedByPort(p: Piece, db: Database, ids: seq<Uuid>, c: nat)
    requires p.NewPort? && PlainPiece(p) && FreshIds(db, ids, c) && c + 2 <= |ids|
    ensures var (after, rows) := (PieceDb(p, db, ids, c), RowsOf(p, ids, c));
            forall u, col, v :: Adds(p, db, ids, c, u, col, v) ==>
              u in after && v in rows && Home(col) == Some(after[u].table) && TargetTable(col) == Some(rows[v])
  {
  }

  lemma {:induction false} AddedByBridge(p: Piece, db: Database, ids: seq<Uuid>, c: nat)
    requires p.NewBridge? && FreshIds(db, ids, c) && c + 3 <= |ids|
    ensures var (after, rows) := (PieceDb(p, db, ids, c), RowsOf(p, ids, c));
            forall u, col, v :: Adds(p, db, ids, c, u, col, v) ==>
              u in after && v in rows && Home(col) == Some(after[u].table) && TargetTable(col) == Some(rows[v])
  {
    BridgeRowsAfter(p, db, ids, c);
    var after, rows := PieceDb(p, db, ids, c), RowsOf(p, ids, c);
    assert ids[c] != ids[c + 1] && ids[c] != ids[c + 2] && ids[c + 1] != ids[c + 2];
    assert rows[ids[c]] == Interface && rows[ids[c + 1]] == Port && rows[ids[c + 2]] == Bridge;
    forall u, col, v | Adds(p, db, ids, c, u, col, v)
      ensures u in after && v in rows && Home(col) == Some(after[u].table) && TargetTable(col) == Some(rows[v])
    {
      if v == ids[c] {
        assert u == ids[c + 1] && col == Interfaces;
      } else if v == ids[c + 1] {
        assert u == ids[c + 2] && col == Ports;
      }
    }
  }

  lemma {:induction false} AddedFits(p: Piece, db: Database, ids: seq<Uuid>, c: nat)
    requires PlainPiece(p) && FreshIds(db, ids, c) && c + Inserted(p) <= |ids|
    ensures var (after, rows) := (PieceDb(p, db, ids, c), RowsOf(p, ids, c));
            forall u, col, v :: Adds(p, db, ids, c, u, col, v) ==>
              u in after && v in rows && Home(col) == Some(after[u].table) && TargetTable(col) == Some(rows[v])
  {
    match p
    case NewBridge(_) => AddedByBridge(p, db, ids, c);
    case NewPort(_, _, _) => AddedByPort(p, db, ids, c);
    case NewController(_, _) => AddedByController(p, db, ids, c);
    case SetFailMode(_, _) =>
  }

  lemma {:induction false} AddedByController(p: Piece, db: Database, ids: seq<Uuid>, c: nat)
    requires p.NewController? && FreshIds(db, ids, c) && c + 1 <= |ids|
    ensures var (after, rows) := (PieceDb(p, db, ids, c), RowsOf(p, ids, c));
            forall u, col, v :: Adds(p, db, ids, c, u, col, v) ==>
              u in after && v in rows && Home(col) == Some(after[u].table) && TargetTable(col) == Some(rows[v])
  {
    RowsAfter(p, db, ids, c);
    assert RowsOf(p, ids, c)[ids[c]] == Controller;
  }

  lemma {:induction false} NewBridgeExtends(p: Piece, db: Database, ids: seq<Uuid>, c: nat)
    requires p.NewBridge? && FreshIds(db, ids, c) && c + 3 <= |ids|
    ensures Extends(db, PieceDb(p, db, ids, c), RowsOf(p, ids, c), Added(p, db, ids, c), Dropped(p, db))
  {
    var after := PieceDb(p, db, ids, c);
    var named := map[Name := {TextV(p.name)}];
    var iface, port, bridge := DbRow(Interface, named[Type := {TextV("internal")}]),
      DbRow(Port, named[Interfaces := {Id(ids[c])}]),
      DbRow(Bridge, named[Ports := {Id(ids[c + 1])}]);
    assert ids[c] != ids[c + 1] && ids[c] != ids[c + 2] && ids[c + 1] != ids[c + 2];
    var one := db[ids[c] := iface];
    var two := one[ids[c + 1] := port];
    forall u, col, v
      ensures Refs(after, u, col, v) <==> Refs(db, u, col, v) || Adds(p, db, ids, c, u, col, v)
    {
      assert !RowRefs(iface, col, v) && (RowRefs(port, col, v) <==> col == Interfaces && v == ids[c]);
      assert RowRefs(bridge, col, v) <==> col == Ports && v == ids[c + 1];
      InsertedRefs(db, ids[c], iface, u, col, v);
      InsertedRefs(one, ids[c + 1], port, u, col, v);
      InsertedRefs(two, ids[c + 2], bridge, u, col, v);
      LinkedRefs(two[ids[c + 2] := bridge], OpenVSwitch, AnyRow, Bridges, ids[c + 2], u, col, v);
    }
    ExtendsByRefs(p, db, ids, c);
  }

  lemma {:induction false} NewControllerExtends(p: Piece, db: Database, ids: seq<Uuid>, c: nat)
    requires p.NewController? && FreshIds(db, ids, c) && c + 1 <= |ids|
    ensures Extends(db, PieceDb(p, db, ids, c), RowsOf(p, ids, c), Added(p, db, ids, c), Dropped(p, db))
  {
    var row := DbRow(Controller, map[Target := {TextV(p.target)}]);
    forall u, col, v
      ensures Refs(PieceDb(p, db, ids, c), u, col, v)
         <==> (Refs(db, u, col, v) && !Drops(p, db, u, col)) || Adds(p, db, ids, c, u, col, v)
    {
      assert !RowRefs(row, col, v);
      InsertedRefs(db, ids[c], row, u, col, v);
      OverwrittenRefs(db[ids[c] := row], p.bridge, Controllers, {Id(ids[c])}, u, col, v);
      assert HasName(db[ids[c] := row], u, Bridge, p.bridge) <==> HasName(db, u, Bridge, p.bridge);
    }
    ExtendsByRefs(p, db, ids, c);
  }

  lemma {:induction false} SetFailModeExtends(p: Piece, db: Database, ids: seq<Uuid>, c: nat)
    requires p.SetFailMode? && Resolved(db) && FreshIds(db, ids, c) && c <= |ids|
    ensures Extends(db, PieceDb(p, db, ids, c), RowsOf(p, ids, c), Added(p, db, ids, c), Dropped(p, db))
  {
    forall u, col, v
      ensures Refs(PieceDb(p, db, ids, c), u, col, v) <==> Refs(db, u, col, v)
    {
      OverwrittenRefs(db, p.bridge, FailMode, {TextV(p.mode)}, u, col, v);
      assert Refs(db, u, FailMode, v) ==> Home(FailMode).Some?;
    }
    ExtendsByRefs(p, db, ids, c);
  }

  /** The references of the database after a piece. */
  lemma {:induction false} PieceExtends(p: Piece, db: Database, ids: seq<Uuid>, c: nat)
    requires PlainPiece(p) && Resolved(db) && FreshIds(db, ids, c) && c + Inserted(p) <= |ids|
    ensures Extends(db, PieceDb(p, db, ids, c), RowsOf(p, ids, c), Added(p, db, ids, c), Dropped(p, db))
  {
    match p
    case NewBridge(_) => NewBridgeExtends(p, db, ids, c);
    case NewPort(_, _, _) => NewPortExtends(p, db, ids, c);
    case NewController(_, _) => NewControllerExtends(p, db, ids, c);
    case SetFailMode(_, _) => SetFailModeExtends(p, db, ids, c);
  }

  lemma {:induction false} NewPortAdopts(p: Piece, db: Database, ids: seq<Uuid>, c: nat)
    requires p.NewPort? && FreshIds(db, ids, c) && c + 2 <= |ids|
    ensures AdoptedOnce(RowsOf(p, ids, c), Added(p, db, ids, c)) <==> OneBridge(db, p.bridge)
  {
    var rows, added := RowsOf(p, ids, c), Added(p, db, ids, c);
    assert ids[c] != ids[c + 1];
    assert ids[c + 1] in rows && rows[ids[c + 1]] == Port && ids[c] in rows && rows[ids[c]] == Interface;
    if AdoptedOnce(rows, added) {
      var port := ids[c + 1];
      assert exists b, col :: added(b, col, port);
      var b, col :| added(b, col, port);
      assert HasName(db, b, Bridge, p.bridge);
      forall u | HasName(db, u, Bridge, p.bridge)
        ensures u == b
      {
        assert added(u, Ports, ids[c + 1]) && added(b, Ports, ids[c + 1]);
      }
    }
    if OneBridge(db, p.bridge) {
      var b :| HasName(db, b, Bridge, p.bridge) && forall u :: HasName(db, u, Bridge, p.bridge) ==> u == b;
      assert added(b, Ports, ids[c + 1]) && added(ids[c + 1], Interfaces, ids[c]);
    }
  }

  lemma {:induction false} NewBridgeAdopts(p: Piece, db: Database, ids: seq<Uuid>, c: nat)
    requires p.NewBridge? && Singleton(db) && FreshIds(db, ids, c) && c + 3 <= |ids|
    ensures AdoptedOnce(RowsOf(p, ids, c), Added(p, db, ids, c))
  {
    var added := Added(p, db, ids, c);
    assert ids[c] != ids[c + 1] && ids[c] != ids[c + 2] && ids[c + 1] != ids[c + 2];
    var r :| IsRoot(db, r) && forall u :: IsRoot(db, u) ==> u == r;
    assert added(r, Bridges, ids[c + 2]) && added(ids[c + 2], Ports, ids[c + 1])
           && added(ids[c + 1], Interfaces, ids[c]);
    forall u, col, v | added(u, col, v)
      ensures (u, col) == if v == ids[c] then (ids[c + 1], Interfaces) else if v == ids[c + 1] then (ids[c + 2], Ports)
              else (r, Bridges)
    {
    }
  }

  /**
   What a piece does to integrity, exactly: creating a bridge, setting a controller or the fail mode always keeps it;
   adding a port keeps it if and only if exactly one bridge has the given name.
   */
  lemma {:induction false} PieceKeepsInvIff(p: Piece, db: Database, ids: seq<Uuid>, c: nat)
    requires Inv(db) && PlainPiece(p) && FreshIds(db, ids, c) && c + Inserted(p) <= |ids|
    ensures Inv(PieceDb(p, db, ids, c)) <==> Attaches(p, db)
  {
    PieceExtends(p, db, ids, c);
    ExtendsInvIff(db, PieceDb(p, db, ids, c), RowsOf(p, ids, c), Added(p, db, ids, c), Dropped(p, db));
    if p.NewPort? {
      NewPortAdopts(p, db, ids, c);
    } else if p.NewBridge? {
      NewBridgeAdopts(p, db, ids, c);
    }
  }

  // -------------------------------------------------------------------- names

  /** A name no bridge has. */
  ghost predicate Unused(db: Database, name: string) { forall u :: !HasName(db, u, Bridge, name) }

  /** Which bridges have a name after a piece: the same, and a new bridge its own. */
  lemma {:induction false} NamesAfter(p: Piece, db: Database, ids: seq<Uuid>, c: nat, u: Uuid, name: string)
    requires PlainPiece(p) && FreshIds(db, ids, c) && c + Inserted(p) <= |ids|
    ensures HasName(PieceDb(p, db, ids, c), u, Bridge, name)
       <==> HasName(db, u, Bridge, name) || (p == NewBridge(name) && u == ids[c + 2])
  {
    if p.NewBridge? {
      assert ids[c] != ids[c + 1] && ids[c] != ids[c + 2] && ids[c + 1] != ids[c + 2];
      assert {TextV(p.name)} == {TextV(name)} <==> p.name == name by {
        assert {TextV(p.name)} == {TextV(name)} ==> TextV(p.name) in {TextV(name)};
      }
    }
  }

  /**
   What a list of pieces asks of bridge names: new bridges have new names, and ports are added to bridges whose name
   is unique in the database or that the list has created before.
   */
  ghost predicate Legal(db: Database, ps: seq<Piece>) {
    forall k :: 0 <= k < |ps| ==> LegalAt(db, ps, k)
  }

  ghost predicate LegalAt(db: Database, ps: seq<Piece>, k: nat)
    requires k < |ps|
  {
    && PlainPiece(ps[k])
    && (ps[k].NewBridge? ==> Unused(db, ps[k].name) && !Creates(ps[..k], ps[k].name))
    && (ps[k].NewPort? ==> OneBridge(db, ps[k].bridge) || Creates(ps[..k], ps[k].bridge))
  }

  predicate Creates(ps: seq<Piece>, name: string) { NewBridge(name) in ps }

  /** What has become of bridge names after a list of pieces. */
  ghost predicate NamesKept(db: Database, ps: seq<Piece>, after: Database) {
    && (forall name :: OneBridge(db, name) || Creates(ps, name) ==> OneBridge(after, name))
    && (forall name :: Unused(db, name) && !Creates(ps, name) ==> Unused(after, name))
  }

  lemma {:induction false} NamesStep(db: Database, ps: seq<Piece>, mid: Database, ids: seq<Uuid>, c: nat)
    requires ps != [] && LegalAt(db, ps, |ps| - 1) && NamesKept(db, ps[..|ps| - 1], mid)
    requires FreshIds(mid, ids, c) && c + Inserted(ps[|ps| - 1]) <= |ids|
    ensures NamesKept(db, ps, PieceDb(ps[|ps| - 1], mid, ids, c))
  {
    var n := |ps| - 1;
    assert ps == ps[..n] + [ps[n]];
    forall name
      ensures OneBridge(db, name) || Creates(ps, name) ==> OneBridge(PieceDb(ps[n], mid, ids, c), name)
      ensures Unused(db, name) && !Creates(ps, name) ==> Unused(PieceDb(ps[n], mid, ids, c), name)
    {
      NameStep(ps[n], mid, ids, c, name);
    }
  }

  /** One name through one piece. */
  lemma {:induction false} NameStep(p: Piece, mid: Database, ids: seq<Uuid>, c: nat, name: string)
    requires PlainPiece(p) && FreshIds(mid, ids, c) && c + Inserted(p) <= |ids|
    ensures p == NewBridge(name) && Unused(mid, name) ==> OneBridge(PieceDb(p, mid, ids, c), name)
    ensures p != NewBridge(name) && OneBridge(mid, name) ==> OneBridge(PieceDb(p, mid, ids, c), name)
    ensures p != NewBridge(name) && Unused(mid, name) ==> Unused(PieceDb(p, mid, ids, c), name)
  {
    var after := PieceDb(p, mid, ids, c);
    forall u
      ensures HasName(after, u, Bridge, name) <==>
              HasName(mid, u, Bridge, name) || (p == NewBridge(name) && u == ids[c + 2])
    {
      NamesAfter(p, mid, ids, c, u, name);
    }
    if p == NewBridge(name) {
      assert HasName(after, ids[c + 2], Bridge, name);
    } else if OneBridge(mid, name) {
      var b :| HasName(mid, b, Bridge, name) && forall u :: HasName(mid, u, Bridge, name) ==> u == b;
      assert HasName(after, b, Bridge, name);
    }
  }

  /** The state after a list of pieces. */
  ghost predicate Ran(db: Database, ps: seq<Piece>, ids: seq<Uuid>, r: Option<Exec>) {
    && r.Some? && Inv(r.value.db) && NamesKept(db, ps, r.value.db)
    && r.value.next == TotalInserted(ps) && Tracks(r.value, ids) && FreshIds(r.value.db, ids, r.value.next)
  }

  /**
   Referential integrity over whole runs: for any list of topology pieces that respects bridge names, on any database
   with integrity, the built transaction executes without failing and leaves every reference resolved and every
   bridge, port and interface referenced exactly once.
   */
  lemma {:induction false} RunKeepsIntegrity(db: Database, ps: seq<Piece>, ids: seq<Uuid>)
    requires Inv(db) && Legal(db, ps) && FreshIds(db, ids, 0) && TotalInserted(ps) <= |ids|
    ensures Ran(db, ps, ids, Run(Exec(db, map[], 0), Compile(ps, 0), ids))
    decreases |ps|
  {
    var start := Exec(db, map[], 0);
    if ps != [] {
      var n := |ps| - 1;
      LegalPrefix(db, ps);
      RunKeepsIntegrity(db, ps[..n], ids);
      RunConcat(start, Compile(ps[..n], 0), PieceOps(ps[n], TotalInserted(ps[..n])), ids);
      RunStep(db, ps, ids, Run(start, Compile(ps[..n], 0), ids).value);
    }
  }

  lemma {:induction false} LegalPrefix(db: Database, ps: seq<Piece>)
    requires ps != [] && Legal(db, ps)
    ensures Legal(db, ps[..|ps| - 1]) && LegalAt(db, ps, |ps| - 1)
  {
    var n := |ps| - 1;
    forall k | 0 <= k < n
      ensures LegalAt(db, ps[..n], k)
    {
      assert LegalAt(db, ps, k);
      assert ps[..n][..k] == ps[..k];
    }
  }

  lemma {:induction false} RunStep(db: Database, ps: seq<Piece>, ids: seq<Uuid>, mid: Exec)
    requires ps != [] && LegalAt(db, ps, |ps| - 1) && Ran(db, ps[..|ps| - 1], ids, Some(mid))
             && TotalInserted(ps) <= |ids|
    ensures Ran(db, ps, ids, Run(mid, PieceOps(ps[|ps| - 1], mid.next), ids))
  {
    var p := ps[|ps| - 1];
    PieceRuns(mid, p, ids);
    PieceKeepsInvIff(p, mid.db, ids, mid.next);
    NamesStep(db, ps, mid.db, ids, mid.next);
    RowsAfter(p, mid.db, ids, mid.next);
    StillFresh(p, mid.db, ids, mid.next);
  }

  lemma {:induction false} StillFresh(p: Piece, db: Database, ids: seq<Uuid>, c: nat)
    requires PlainPiece(p) && FreshIds(db, ids, c) && c + Inserted(p) <= |ids|
    ensures FreshIds(PieceDb(p, db, ids, c), ids, c + Inserted(p))
  {
  }

  // ---------------------------------------------------------------- whole runs

  /** A state in which a piece can be executed. */
  ghost predicate Before(p: Piece, mid: Exec, ids: seq<Uuid>) {
    && Inv(mid.db) && PlainPiece(p) && FreshIds(mid.db, ids, mid.next) && mid.next + Inserted(p) <= |ids|
    && (p.NewBridge? ==> Unused(mid.db, p.name))
  }

  /** The state before the last piece of a run, and what the piece does to it. */
  lemma {:induction false} LastPiece(db: Database, ps: seq<Piece>, ids: seq<Uuid>, end: Exec) returns (mid: Exec)
    requires Inv(db) && Legal(db, ps) && FreshIds(db, ids, 0) && TotalInserted(ps) <= |ids| && ps != []
    requires Run(Exec(db, map[], 0), Compile(ps, 0), ids) == Some(end)
    ensures Legal(db, ps[..|ps| - 1]) && TotalInserted(ps[..|ps| - 1]) == mid.next
    ensures Run(Exec(db, map[], 0), Compile(ps[..|ps| - 1], 0), ids) == Some(mid)
    ensures Before(ps[|ps| - 1], mid, ids) && end.db == PieceDb(ps[|ps| - 1], mid.db, ids, mid.next)
  {
    var n, start := |ps| - 1, Exec(db, map[], 0);
    LegalPrefix(db, ps);
    RunKeepsIntegrity(db, ps[..n], ids);
    RunConcat(start, Compile(ps[..n], 0), PieceOps(ps[n], TotalInserted(ps[..n])), ids);
    mid := Run(start, Compile(ps[..n], 0), ids).value;
    PieceRuns(mid, ps[n], ids);
    NewName(db, ps, mid.db);
  }

  /** A bridge that is created has a name no bridge has. */
  lemma {:induction false} NewName(db: Database, ps: seq<Piece>, mid: Database)
    requires ps != [] && LegalAt(db, ps, |ps| - 1) && NamesKept(db, ps[..|ps| - 1], mid)
    ensures ps[|ps| - 1].NewBridge? ==> Unused(mid, ps[|ps| - 1].name)
  {
  }

  /** A bridge that pieces before `n` use or create is not created by piece `n`. */
  lemma {:induction false} CreatedBefore(db: Database, ps: seq<Piece>, k: nat, n: nat)
    requires Legal(db, ps) && k < n < |ps|
    ensures ps[k].NewPort? ==> ps[n] != NewBridge(ps[k].bridge)
    ensures ps[k].NewBridge? ==> ps[n] != ps[k]
  {
    assert LegalAt(db, ps, k) && LegalAt(db, ps, n);
    assert ps[..n][k] == ps[k];
    if ps[k].NewPort? && Creates(ps[..k], ps[k].bridge) {
      var j :| 0 <= j < k && ps[..k][j] == NewBridge(ps[k].bridge);
      assert ps[..n][j] == ps[..k][j];
    }
  }

  /** Each time this piece is executed, it makes `P` true. */
  ghost predicate Makes(first: Piece, c: nat, ids: seq<Uuid>, P: Database -> bool) {
    forall mid :: Before(first, mid, ids) && mid.next == c ==> P(PieceDb(first, mid.db, ids, mid.next))
  }

  /** No piece makes `P` false, unless it creates the bridge. */
  ghost predicate Keeps(bridge: string, ids: seq<Uuid>, P: Database -> bool) {
    forall p, mid :: Before(p, mid, ids) && p != NewBridge(bridge) && P(mid.db) ==>
      P(PieceDb(p, mid.db, ids, mid.next))
  }

  /** Executing the piece leads from one state to the database of the next. */
  ghost predicate Follows(p: Piece, mid: Exec, c: nat, after: Exec, ids: seq<Uuid>) {
    Before(p, mid, ids) && mid.next == c && after.db == PieceDb(p, mid.db, ids, mid.next)
  }

  /** The states between the pieces of a run. */
  ghost predicate Trace(ps: seq<Piece>, mids: seq<Exec>, ids: seq<Uuid>) {
    && |mids| == |ps| + 1
    && forall j :: 0 <= j < |ps| ==> Follows(ps[j], mids[j], TotalInserted(ps[..j]), mids[j + 1], ids)
  }

  lemma {:induction false} TraceOf(db: Database, ps: seq<Piece>, ids: seq<Uuid>, end: Exec) returns (mids: seq<Exec>)
    requires Inv(db) && Legal(db, ps) && FreshIds(db, ids, 0) && TotalInserted(ps) <= |ids|
    requires Run(Exec(db, map[], 0), Compile(ps, 0), ids) == Some(end)
    ensures Trace(ps, mids, ids) && mids[|ps|] == end
    decreases |ps|
  {
    if ps == [] {
      mids := [end];
    } else {
      var n := |ps| - 1;
      var mid := LastPiece(db, ps, ids, end);
      var so := TraceOf(db, ps[..n], ids, mid);
      mids := so + [end];
      TraceSnoc(ps, so, end, ids);
    }
  }

  lemma {:induction false} TraceSnoc(ps: seq<Piece>, so: seq<Exec>, end: Exec, ids: seq<Uuid>)
    requires ps != [] && Trace(ps[..|ps| - 1], so, ids)
    requires Follows(ps[|ps| - 1], so[|ps| - 1], TotalInserted(ps[..|ps| - 1]), end, ids)
    ensures Trace(ps, so + [end], ids)
  {
    var n := |ps| - 1;
    forall j | 0 <= j < |ps|
      ensures Follows(ps[j], (so + [end])[j], TotalInserted(ps[..j]), (so + [end])[j + 1], ids)
    {
      if j < n {
        assert ps[..n][..j] == ps[..j];
        assert Follows(ps[..n][j], so[j], TotalInserted(ps[..n][..j]), so[j + 1], ids);
      }
    }
  }

  lemma {:induction false} TrueAlong(
      ps: seq<Piece>, mids: seq<Exec>, ids: seq<Uuid>, k: nat, n: nat, bridge: string, P: Database -> bool)
    requires k < n <= |ps| && Trace(ps, mids, ids)
    requires Makes(ps[k], TotalInserted(ps[..k]), ids, P) && Keeps(bridge, ids, P)
    requires forall j :: k < j < |ps| ==> ps[j] != NewBridge(bridge)
    ensures P(mids[n].db)
  {
    assert Follows(ps[n - 1], mids[n - 1], TotalInserted(ps[..n - 1]), mids[n], ids);
    if k < n - 1 {
      TrueAlong(ps, mids, ids, k, n - 1, bridge, P);
    }
  }

  /** What piece `k` makes true and no later piece makes false is true at the end of the run. */
  lemma {:induction false} TrueAtEnd(
      db: Database, ps: seq<Piece>, ids: seq<Uuid>, k: nat, end: Exec, bridge: string, P: Database -> bool)
    requires Inv(db) && Legal(db, ps) && FreshIds(db, ids, 0) && TotalInserted(ps) <= |ids|
    requires Run(Exec(db, map[], 0), Compile(ps, 0), ids) == Some(end)
    requires k < |ps| && Makes(ps[k], TotalInserted(ps[..k]), ids, P) && Keeps(bridge, ids, P)
    requires ps[k] == NewBridge(bridge) || (ps[k].NewPort? && ps[k].bridge == bridge)
    ensures P(end.db)
  {
    var mids := TraceOf(db, ps, ids, end);
    forall j | k < j < |ps|
      ensures ps[j] != NewBridge(bridge)
    {
      CreatedBefore(db, ps, k, j);
    }
    TrueAlong(ps, mids, ids, k, |ps|, bridge, P);
  }

  lemma {:induction false} PrefixInserted(ps: seq<Piece>, k: nat)
    requires k < |ps|
    ensures TotalInserted(ps[..k]) + Inserted(ps[k]) <= TotalInserted(ps)
  {
    var n := |ps| - 1;
    if k < n {
      assert ps[..n][..k] == ps[..k];
      PrefixInserted(ps[..n], k);
    }
  }

  // -------------------------------------------------------------- rows written

  /** The rows of a new port, as they stand in a database. */
  predicate HasPort(db: Database, p: Piece, ids: seq<Uuid>, c: nat)
    requires p.NewPort? && PlainPiece(p) && c + 2 <= |ids|
  {
    && ids[c] in db && db[ids[c]] == DbRow(Interface, PlainValues(p.iface))
    && ids[c + 1] in db && db[ids[c + 1]] == DbRow(Port, PlainValues(p.port)[Interfaces := {Id(ids[c])}])
  }

  /** No piece touches the rows of ports and interfaces that are already there. */
  lemma {:induction false} PortsUntouched(p: Piece, db: Database, ids: seq<Uuid>, c: nat, u: Uuid)
    requires PlainPiece(p) && FreshIds(db, ids, c) && c + Inserted(p) <= |ids|
    requires u in db && (db[u].table == Port || db[u].table == Interface)
    ensures u in PieceDb(p, db, ids, c) && PieceDb(p, db, ids, c)[u] == db[u]
  {
  }

  lemma {:induction false} PortWritten(p: Piece, db: Database, ids: seq<Uuid>, c: nat)
    requires p.NewPort? && PlainPiece(p) && FreshIds(db, ids, c) && c + 2 <= |ids|
    ensures HasPort(PieceDb(p, db, ids, c), p, ids, c)
  {
  }

  /** The rows of every port of a run are in the database at its end, as they were asked for. */
  lemma {:induction false} PortsOfRun(db: Database, ps: seq<Piece>, ids: seq<Uuid>, k: nat, end: Exec)
    requires Inv(db) && Legal(db, ps) && FreshIds(db, ids, 0) && TotalInserted(ps) <= |ids|
    requires k < |ps| && ps[k].NewPort?
    requires Run(Exec(db, map[], 0), Compile(ps, 0), ids) == Some(end)
    ensures PlainPiece(ps[k]) && TotalInserted(ps[..k]) + 2 <= |ids|
    ensures HasPort(end.db, ps[k], ids, TotalInserted(ps[..k]))
  {
    assert LegalAt(db, ps, k);
    PrefixInserted(ps, k);
    var c := TotalInserted(ps[..k]);
    RowsMade(ps[k], ids, c);
    RowsKept(ps[k], ids, c);
    TrueAtEnd(db, ps, ids, k, end, ps[k].bridge, PortRows(ps[k], ids, c));
  }

  /** Whether the rows of a port stand in a database. */
  ghost function PortRows(p: Piece, ids: seq<Uuid>, c: nat): Database -> bool
    requires p.NewPort? && PlainPiece(p) && c + 2 <= |ids|
  {
    db => HasPort(db, p, ids, c)
  }

  lemma {:induction false} RowsMade(p: Piece, ids: seq<Uuid>, c: nat)
    requires p.NewPort? && PlainPiece(p) && c + 2 <= |ids|
    ensures Makes(p, c, ids, PortRows(p, ids, c))
  {
    forall mid | Before(p, mid, ids) && mid.next == c
      ensures HasPort(PieceDb(p, mid.db, ids, mid.next), p, ids, c)
    {
      PortWritten(p, mid.db, ids, mid.next);
    }
  }

  lemma {:induction false} RowsKept(p: Piece, ids: seq<Uuid>, c: nat)
    requires p.NewPort? && PlainPiece(p) && c + 2 <= |ids|
    ensures Keeps(p.bridge, ids, PortRows(p, ids, c))
  {
    forall q, mid | Before(q, mid, ids) && HasPort(mid.db, p, ids, c)
      ensures HasPort(PieceDb(q, mid.db, ids, mid.next), p, ids, c)
    {
      PortsUntouched(q, mid.db, ids, mid.next, ids[c]);
      PortsUntouched(q, mid.db, ids, mid.next, ids[c + 1]);
    }
  }

  predicate PeerIs(db: Database, iface: Uuid, name: string, peer: string) {
    && iface in db && db[iface].table == Interface
    && Name in db[iface].cols && db[iface].cols[Name] == {TextV(name)}
    && Options in db[iface].cols && db[iface].cols[Options] == {PairV("peer", peer)}
    && Type in db[iface].cols && db[iface].cols[Type] == {TextV("patch")}
  }

  lemma {:induction false} PatchValues(name: string, peer: string)
    ensures var v := (assert Plain(PatchInterface(name, peer)); PlainValues(PatchInterface(name, peer)));
            v == map[Name := {TextV(name)}, Type := {TextV("patch")}, Options := {PairV("peer", peer)}]
  {
    var pairs := [("peer", peer)];
    var d := Pairs(pairs);
    assert Values(d, map[]) == {PairV("peer", peer)} by {
      assert pairs[0] == ("peer", peer);
      assert forall v :: v in Values(d, map[]) <==> v == PairV("peer", peer);
    }
  }

  /** The two ends of a patch, built one after the other, name each other as peers. */
  lemma {:induction false} PatchPeers(
      db: Database, ps: seq<Piece>, ids: seq<Uuid>, k: nat, name1: string, name2: string, end: Exec)
    requires Inv(db) && Legal(db, ps) && FreshIds(db, ids, 0) && TotalInserted(ps) <= |ids|
    requires k + 1 < |ps| && ps[k].NewPort? && ps[k + 1].NewPort?
    requires ps[k].iface == PatchInterface(name1, name2) && ps[k + 1].iface == PatchInterface(name2, name1)
    requires Run(Exec(db, map[], 0), Compile(ps, 0), ids) == Some(end)
    ensures var c := TotalInserted(ps[..k]);
            c + 4 <= |ids| && PeerIs(end.db, ids[c], name1, name2) && PeerIs(end.db, ids[c + 2], name2, name1)
  {
    PortsOfRun(db, ps, ids, k, end);
    PortsOfRun(db, ps, ids, k + 1, end);
    PeersWritten(ps, ids, k, name1, name2, end.db);
  }

  lemma {:induction false} PeersWritten(
      ps: seq<Piece>, ids: seq<Uuid>, k: nat, name1: string, name2: string, db: Database)
    requires k + 1 < |ps| && ps[k].NewPort? && ps[k + 1].NewPort? && PlainPiece(ps[k]) && PlainPiece(ps[k + 1])
    requires ps[k].iface == PatchInterface(name1, name2) && ps[k + 1].iface == PatchInterface(name2, name1)
    requires TotalInserted(ps[..k]) + 2 <= |ids| && TotalInserted(ps[..k + 1]) + 2 <= |ids|
    requires HasPort(db, ps[k], ids, TotalInserted(ps[..k])) && HasPort(db, ps[k + 1], ids, TotalInserted(ps[..k + 1]))
    ensures var c := TotalInserted(ps[..k]);
            c + 4 <= |ids| && PeerIs(db, ids[c], name1, name2) && PeerIs(db, ids[c + 2], name2, name1)
  {
    var c := TotalInserted(ps[..k]);
    NextPort(ps, k);
    PeerWritten(db, ps[k], ids, c, name1, name2);
    PeerWritten(db, ps[k + 1], ids, c + 2, name2, name1);
  }

  lemma {:induction false} NextPort(ps: seq<Piece>, k: nat)
    requires k < |ps| && ps[k].NewPort?
    ensures TotalInserted(ps[..k + 1]) == TotalInserted(ps[..k]) + 2
  {
    assert ps[..k + 1][..k] == ps[..k];
  }

  lemma {:induction false} PeerWritten(db: Database, p: Piece, ids: seq<Uuid>, c: nat, name: string, peer: string)
    requires p.NewPort? && PlainPiece(p) && c + 2 <= |ids| && HasPort(db, p, ids, c)
             && p.iface == PatchInterface(name, peer)
    ensures PeerIs(db, ids[c], name, peer)
  {
    PatchValues(name, peer);
  }
}
