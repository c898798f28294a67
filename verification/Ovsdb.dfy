/**
 What the operations of a transaction do to a database (RFC 7047, sections 5.2.1 and 5.2.3 to 5.2.5), and the
 integrity its references must have when the transaction commits.
 */
module Ovsdb {
  import opened Common
  import opened Replica
  import opened Transactions
  import opened Seqs

  datatype Value = TextV(s: string) | NumV(n: nat) | Id(uuid: Uuid) | PairV(key: string, value: string)

  /** A row of a table; every column holds a set of values, a map being a set of pairs. */
  datatype DbRow = DbRow(table: TableName, cols: map<Column, set<Value>>)

  type Database = map<Uuid, DbRow>

  // --------------------------------------------------------------- execution

  /** The database, the uuids of the named rows so far, and how many rows were inserted. */
  datatype Exec = Exec(db: Database, env: map<string, Uuid>, next: nat)

  function ValueOf(a: Atom, env: map<string, Uuid>): Option<Value> {
    match a
    case Text(s) => Some(TextV(s))
    case Num(n) => Some(NumV(n))
    case Link(Existing(u)) => Some(Id(u))
    case Link(Named(name)) => if name in env then Some(Id(env[name])) else None
  }

  /** Every name in the value is the name of an earlier insert. */
  predicate Resolves(d: Datum, env: map<string, Uuid>) {
    match d
    case One(a) => ValueOf(a, env).Some?
    case Many(atoms) => forall i :: 0 <= i < |atoms| ==> ValueOf(atoms[i], env).Some?
    case Pairs(_) => true
  }

  function Values(d: Datum, env: map<string, Uuid>): set<Value>
    requires Resolves(d, env)
  {
    match d
    case One(a) => {ValueOf(a, env).value}
    case Many(atoms) => set i | 0 <= i < |atoms| :: ValueOf(atoms[i], env).value
    case Pairs(pairs) => set i | 0 <= i < |pairs| :: PairV(pairs[i].0, pairs[i].1)
  }

  predicate RowResolves(row: Columns, env: map<string, Uuid>) {
    forall c :: c in row ==> Resolves(row[c], env)
  }

  function ColumnsOf(row: Columns, env: map<string, Uuid>): map<Column, set<Value>>
    requires RowResolves(row, env)
  {
    map c | c in row :: Values(row[c], env)
  }

  predicate Selects(condition: Condition, u: Uuid, row: DbRow) {
    match condition
    case AnyRow => true
    case IsRow(x) => u == x
    case NameIs(n) => Name in row.cols && row.cols[Name] == {TextV(n)}
  }

  /** Every selected row of the table is changed, no other. */
  function OnRows(db: Database, table: TableName, condition: Condition, change: DbRow -> DbRow): Database {
    map u | u in db :: if db[u].table == table && Selects(condition, u, db[u]) then change(db[u]) else db[u]
  }

  lemma {:induction false} SameOnRows(
      db: Database, table: TableName, condition: Condition, f: DbRow -> DbRow, g: DbRow -> DbRow)
    requires forall r :: f(r) == g(r)
    ensures OnRows(db, table, condition, f) == OnRows(db, table, condition, g)
  {
  }

  function Overwritten(row: DbRow, cols: map<Column, set<Value>>): DbRow { row.(cols := row.cols + cols) }

  function Mutated(row: DbRow, column: Column, add: bool, values: set<Value>): DbRow {
    var was := if column in row.cols then row.cols[column] else {};
    row.(cols := row.cols[column := if add then was + values else was - values])
  }

  function MutatedAll(row: DbRow, mutations: seq<Mutation>, env: map<string, Uuid>): DbRow
    requires forall i :: 0 <= i < |mutations| ==> Resolves(mutations[i].value, env)
    decreases |mutations|
  {
    if mutations == [] then row
    else
      var m := mutations[0];
      MutatedAll(Mutated(row, m.column, m.add, Values(m.value, env)), mutations[1..], env)
  }

  /** One operation; `None` when it fails. The server names inserted rows `ids[0]`, `ids[1]`, and so on. */
  function Step(s: Exec, op: Op, ids: seq<Uuid>): Option<Exec> {
    match op
    case Insert(table, row, name) =>
      if s.next >= |ids| || name in s.env || !RowResolves(row, s.env) then None
      else Some(Exec(s.db[ids[s.next] := DbRow(table, ColumnsOf(row, s.env))], s.env[name := ids[s.next]], s.next + 1))
    case Update(table, condition, row) =>
      if !RowResolves(row, s.env) then None
      else
        var cols := ColumnsOf(row, s.env);
        Some(s.(db := OnRows(s.db, table, condition, r => Overwritten(r, cols))))
    case Mutate(table, condition, mutations) =>
      if forall i :: 0 <= i < |mutations| ==> Resolves(mutations[i].value, s.env) then
        Some(s.(db := OnRows(s.db, table, condition, r => MutatedAll(r, mutations, s.env))))
      else None
    case Delete(table, condition) =>
      Some(s.(db := map u | u in s.db && !(s.db[u].table == table && Selects(condition, u, s.db[u])) :: s.db[u]))
    case Comment(_) => Some(s)
  }

  function Run(s: Exec, ops: seq<Op>, ids: seq<Uuid>): Option<Exec> {
    if ops == [] then Some(s)
    else
      match Run(s, ops[..|ops| - 1], ids)
      case None => None
      case Some(mid) => Step(mid, ops[|ops| - 1], ids)
  }

  lemma {:induction false} RunConcat(s: Exec, a: seq<Op>, b: seq<Op>, ids: seq<Uuid>)
    ensures Run(s, a + b, ids) == match Run(s, a, ids) case None => None case Some(mid) => Run(mid, b, ids)
    decreases |b|
  {
    if b == [] {
      assert a + b == a;
    } else {
      var n := |b| - 1;
      SnocConcat(a, b);
      RunConcat(s, a, b[..n], ids);
    }
  }

  lemma {:induction false} RunSnoc(s: Exec, ops: seq<Op>, op: Op, ids: seq<Uuid>)
    ensures Run(s, ops + [op], ids) == match Run(s, ops, ids) case None => None case Some(mid) => Step(mid, op, ids)
  {
  }

  // --------------------------------------------------------------- integrity

  /** Row `u` refers to row `v` in column `c`. */
  predicate Refs(db: Database, u: Uuid, c: Column, v: Uuid) {
    u in db && c in db[u].cols && Id(v) in db[u].cols[c]
  }

  /** The table a reference column belongs to, and the one it refers to. */
  function Home(c: Column): Option<TableName> {
    match c
    case Bridges => Some(OpenVSwitch)
    case Ports => Some(Bridge)
    case Interfaces => Some(Port)
    case Controllers => Some(Bridge)
    case _ => None
  }

  function TargetTable(c: Column): Option<TableName> {
    match c
    case Bridges => Some(Bridge)
    case Ports => Some(Port)
    case Interfaces => Some(Interface)
    case Controllers => Some(Controller)
    case _ => None
  }

  predicate Owned(t: TableName) { t == Bridge || t == Port || t == Interface }

  /** There is exactly one `Open_vSwitch` row. */
  ghost predicate Singleton(db: Database) {
    exists r :: IsRoot(db, r) && forall u :: IsRoot(db, u) ==> u == r
  }

  predicate IsRoot(db: Database, u: Uuid) { u in db && db[u].table == OpenVSwitch }

  /** Every reference stands in a column of its table and leads to a row of the column's target table. */
  ghost predicate Resolved(db: Database) {
    forall u, c, v :: Refs(db, u, c, v) ==>
      Home(c) == Some(db[u].table) && v in db && TargetTable(c) == Some(db[v].table)
  }

  /** Every bridge, port and interface is referenced, and from one place only. */
  ghost predicate OwnedOnce(db: Database) {
    && (forall v :: v in db && Owned(db[v].table) ==> exists u, c :: Refs(db, u, c, v))
    && (forall u1, c1, u2, c2, v :: Refs(db, u1, c1, v) && Refs(db, u2, c2, v) && v in db && Owned(db[v].table) ==>
       u1 == u2 && c1 == c2)
  }

  ghost predicate Inv(db: Database) { Singleton(db) && Resolved(db) && OwnedOnce(db) }

  predicate HasName(db: Database, u: Uuid, table: TableName, name: string) {
    u in db && db[u].table == table && Selects(NameIs(name), u, db[u])
  }

  /** Exactly one bridge has the name. */
  ghost predicate OneBridge(db: Database, name: string) {
    exists b :: HasName(db, b, Bridge, name) && forall u :: HasName(db, u, Bridge, name) ==> u == b
  }
}
