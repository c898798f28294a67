/**
 What update notifications mean to the replica, what a server of RFC 7047 sends, and that the two agree.
 */
module Replica {
  import opened Common
  import opened Rpc

  datatype Uuid = Uuid(bits: nat)

  /** UUID text parsing; nothing is assumed of it. */
  type UuidParser = string -> Option<Uuid>

  datatype RowView = RowView(uuid: Uuid, columns: map<string, Json>, modified: bool)

  type Tables = map<string, map<Uuid, RowView>>

  function Table(tables: Tables, name: string): map<Uuid, RowView> {
    if name in tables then tables[name] else map[]
  }

  function Lookup(tables: Tables, name: string, uuid: Uuid): Option<RowView> {
    if uuid in Table(tables, name) then Some(Table(tables, name)[uuid]) else None
  }

  // ------------------------------------------------------ applying an update

  /** Effect of one row update on the table it names. */
  function ApplyRow(tables: Tables, name: string, uuid: Uuid, update: Json): Tables {
    var table := Table(tables, name);
    if !update.Object? then tables[name := table]
    else if "old" in update.members && "new" !in update.members then tables[name := table - {uuid}]
    else if "new" in update.members then
      var row := if uuid in table then table[uuid] else RowView(uuid, map[], false);
      tables[name := table[uuid := MergeNew(row, update.members["new"])]]
    else tables[name := table]
  }

  /** `Row::update` with the columns of `new`, when it is an object. */
  function MergeNew(row: RowView, new': Json): RowView {
    if new'.Object? then row.(columns := row.columns + new'.members, modified := true) else row
  }

  /** One iteration of the two nested loops: the entry for a UUID text of a table. */
  type Visit = (string, string)

  predicate Visited(update: Json, v: Visit) {
    update.Object? && v.0 in update.members && update.members[v.0].Object? && v.1 in update.members[v.0].members
  }

  ghost predicate IsVisitOrder(order: seq<Visit>, update: Json) {
    && (forall i, j :: 0 <= i < j < |order| ==> order[i] != order[j])
    && (forall v :: v in order <==> Visited(update, v))
  }

  function ApplyVisit(parse: UuidParser, tables: Tables, update: Json, v: Visit): Tables
    requires Visited(update, v)
  {
    match parse(v.1)
    case None => tables
    case Some(uuid) => ApplyRow(tables, v.0, uuid, update.members[v.0].members[v.1])
  }

  function ApplyVisits(parse: UuidParser, tables: Tables, update: Json, order: seq<Visit>): Tables
    requires forall v :: v in order ==> Visited(update, v)
  {
    if order == [] then tables
    else
      var n := |order| - 1;
      ApplyVisit(parse, ApplyVisits(parse, tables, update, order[..n]), update, order[n])
  }

  // ------------------------------------------- independence of visiting order

  /** What a row update does to the one row it is about. */
  function RowAfter(row: Option<RowView>, uuid: Uuid, update: Json): Option<RowView> {
    if !update.Object? then row
    else if "old" in update.members && "new" !in update.members then None
    else if "new" in update.members then
      Some(MergeNew(if row.Some? then row.value else RowView(uuid, map[], false), update.members["new"]))
    else row
  }

  lemma {:induction false} ApplyRowAt(
      tables: Tables, name: string, uuid: Uuid, update: Json, name': string, uuid': Uuid)
    ensures Lookup(ApplyRow(tables, name, uuid, update), name', uuid') ==
            if name' == name && uuid' == uuid then RowAfter(Lookup(tables, name, uuid), uuid, update)
            else Lookup(tables, name', uuid')
    ensures ApplyRow(tables, name, uuid, update).Keys == tables.Keys + {name}
  {
  }

  /** No two texts of one table's update denote the same UUID; true when every UUID is written canonically. */
  ghost predicate Canonical(parse: UuidParser, update: Json) {
    forall t, s1, s2 ::
      Visited(update, (t, s1)) && Visited(update, (t, s2)) && parse(s1).Some? && parse(s1) == parse(s2) ==> s1 == s2
  }

  /** A row nobody in `order` is about keeps its value. */
  lemma {:induction false} UntouchedRow(
    parse: UuidParser, tables: Tables, update: Json, order: seq<Visit>, name: string, uuid: Uuid)
    requires forall v :: v in order ==> Visited(update, v)
    requires forall v :: v in order && v.0 == name ==> parse(v.1) != Some(uuid)
    ensures Lookup(ApplyVisits(parse, tables, update, order), name, uuid) == Lookup(tables, name, uuid)
  {
    if order != [] {
      var n := |order| - 1;
      UntouchedRow(parse, tables, update, order[..n], name, uuid);
      assert order[n] in order;
      if parse(order[n].1).Some? {
        ApplyRowAt(ApplyVisits(parse, tables, update, order[..n]), order[n].0, parse(order[n].1).value,
                   update.members[order[n].0].members[order[n].1], name, uuid);
      }
    }
  }

  /** A row visited by entry `k` has exactly that entry applied to it. */
  lemma {:induction false} TouchedRow(
    parse: UuidParser, tables: Tables, update: Json, order: seq<Visit>, k: nat, uuid: Uuid)
    requires forall v :: v in order ==> Visited(update, v)
    requires forall i, j :: 0 <= i < j < |order| ==> order[i] != order[j]
    requires Canonical(parse, update)
    requires k < |order| && parse(order[k].1) == Some(uuid)
    ensures Lookup(ApplyVisits(parse, tables, update, order), order[k].0, uuid)
         == RowAfter(Lookup(tables, order[k].0, uuid), uuid, update.members[order[k].0].members[order[k].1])
  {
    var n := |order| - 1;
    var before := ApplyVisits(parse, tables, update, order[..n]);
    assert Visited(update, order[n]) && Visited(update, order[k]);
    var entry := update.members[order[n].0].members[order[n].1];
    if k == n {
      forall v | v in order[..n] && v.0 == order[n].0
        ensures parse(v.1) != Some(uuid)
      {
        var i :| 0 <= i < n && order[i] == v;
        assert Visited(update, (v.0, v.1)) && Visited(update, (v.0, order[n].1));
      }
      UntouchedRow(parse, tables, update, order[..n], order[n].0, uuid);
      ApplyRowAt(before, order[n].0, uuid, entry, order[n].0, uuid);
    } else {
      TouchedRow(parse, tables, update, order[..n], k, uuid);
      if parse(order[n].1).Some? {
        assert Visited(update, (order[n].0, order[n].1)) && Visited(update, (order[k].0, order[k].1));
        ApplyRowAt(before, order[n].0, parse(order[n].1).value, entry, order[k].0, uuid);
      }
    }
  }

  lemma {:induction false} TablesAfterVisits(
      parse: UuidParser, tables: Tables, update: Json, order: seq<Visit>, name: string)
    requires forall v :: v in order ==> Visited(update, v)
    ensures name in ApplyVisits(parse, tables, update, order) <==>
            name in tables || exists v :: v in order && v.0 == name && parse(v.1).Some?
  {
    if order != [] {
      var n := |order| - 1;
      TablesAfterVisits(parse, tables, update, order[..n], name);
      assert order[n] in order;
      assert forall v :: v in order <==> v in order[..n] || v == order[n];
    }
  }

  lemma {:induction false} TablesEqual(a: Tables, b: Tables)
    requires a.Keys == b.Keys
    requires forall t, u :: Lookup(a, t, u) == Lookup(b, t, u)
    ensures a == b
  {
    forall t | t in a
      ensures a[t] == b[t]
    {
      forall u
        ensures u in a[t] <==> u in b[t]
        ensures u in a[t] ==> a[t][u] == b[t][u]
      {
        assert Lookup(a, t, u) == Lookup(b, t, u);
      }
    }
  }

  /** The result of an update does not depend on the order its tables and rows are visited in. */
  lemma {:induction false} VisitOrderIrrelevant(
      parse: UuidParser, tables: Tables, update: Json, order1: seq<Visit>, order2: seq<Visit>)
    requires IsVisitOrder(order1, update) && IsVisitOrder(order2, update) && Canonical(parse, update)
    ensures ApplyVisits(parse, tables, update, order1) == ApplyVisits(parse, tables, update, order2)
  {
    var a, b := ApplyVisits(parse, tables, update, order1), ApplyVisits(parse, tables, update, order2);
    forall t
      ensures t in a <==> t in b
    {
      TablesAfterVisits(parse, tables, update, order1, t);
      TablesAfterVisits(parse, tables, update, order2, t);
    }
    forall t, u
      ensures Lookup(a, t, u) == Lookup(b, t, u)
    {
      if v :| v in order1 && v.0 == t && parse(v.1) == Some(u) {
        assert v in order2;
        var i :| 0 <= i < |order1| && order1[i] == v;
        var j :| 0 <= j < |order2| && order2[j] == v;
        TouchedRow(parse, tables, update, order1, i, u);
        TouchedRow(parse, tables, update, order2, j, u);
      } else {
        UntouchedRow(parse, tables, update, order1, t, u);
        forall v | v in order2 && v.0 == t
          ensures parse(v.1) != Some(u)
        {
          assert v in order1;
        }
        UntouchedRow(parse, tables, update, order2, t, u);
      }
    }
    TablesEqual(a, b);
  }

  // --------------------------------------------------------------- the server

  /** The monitored part of the server's database: table name, row, column. */
  type Db = map<string, map<Uuid, map<string, Json>>>

  function ServerRow(db: Db, t: string, u: Uuid): Option<map<string, Json>> {
    if t in db && u in db[t] then Some(db[t][u]) else None
  }

  /** `<row-update>` of RFC 7047, section 4.1.6, for one row that was `before` and is `after`. */
  predicate IsRowUpdate(update: Json, before: Option<map<string, Json>>, after: Option<map<string, Json>>) {
    && update.Object?
    && match (before, after)
       case (None, None) => false
       case (None, Some(new')) => update.members == map["new" := Object(new')]
       case (Some(old'), None) => update.members == map["old" := Object(old')]
       case (Some(old'), Some(new')) =>
         old'.Keys == new'.Keys
         && update.members == map["old" := Object(map c | c in old' && old'[c] != new'[c] :: old'[c]),
                                  "new" := Object(new')]
  }

  /** `<table-updates>` taking the monitored tables from `before` to `after`: every changed row, each named once. */
  ghost predicate Describes(parse: UuidParser, before: Db, after: Db, update: Json) {
    && before.Keys == after.Keys
    && update.Object?
    && Canonical(parse, update)
    && (forall v :: Visited(update, v) ==>
          v.0 in after && parse(v.1).Some?
          && var u := parse(v.1).value;
             IsRowUpdate(update.members[v.0].members[v.1], ServerRow(before, v.0, u), ServerRow(after, v.0, u)))
    && (forall t, u :: ServerRow(before, t, u) != ServerRow(after, t, u) ==> Mentions(parse, update, t, u))
  }

  ghost predicate Mentions(parse: UuidParser, update: Json, t: string, u: Uuid) {
    exists s :: Visited(update, (t, s)) && parse(s) == Some(u)
  }

  function EmptyDb(names: set<string>): Db {
    map t | t in names :: map[]
  }

  /** The replica holds the server's rows under their own UUIDs, and nothing else. */
  ghost predicate Agrees(tables: Tables, db: Db) {
    && db.Keys <= tables.Keys
    && forall t, u :: Lookup(tables, t, u) == ViewOf(ServerRow(db, t, u), u)
  }

  /** A replicated row; `Row::update` marks it modified although the change came from the server. */
  function ViewOf(row: Option<map<string, Json>>, u: Uuid): Option<RowView> {
    if row.Some? then Some(RowView(u, row.value, true)) else None
  }

  lemma {:induction false} RowUpdateAgrees(
      update: Json, before: Option<map<string, Json>>, after: Option<map<string, Json>>, u: Uuid)
    requires IsRowUpdate(update, before, after)
    ensures RowAfter(ViewOf(before, u), u, update) == ViewOf(after, u)
  {
    assert "old" != "new";
    if after.Some? {
      assert update.members["new"] == Object(after.value);
      if before.Some? {
        assert before.value + after.value == after.value;
      } else {
        assert map[] + after.value == after.value;
      }
    }
  }

  /** One update keeps agreement: the replica moves from the server's state before to its state after. */
  lemma {:induction false} AgreementStep(
      parse: UuidParser, tables: Tables, before: Db, after: Db, update: Json, order: seq<Visit>)
    requires Agrees(tables, before) && Describes(parse, before, after, update) && IsVisitOrder(order, update)
    ensures Agrees(ApplyVisits(parse, tables, update, order), after)
  {
    var result := ApplyVisits(parse, tables, update, order);
    forall t | t in after
      ensures t in result
    {
      TablesAfterVisits(parse, tables, update, order, t);
    }
    forall t, u
      ensures Lookup(result, t, u) == ViewOf(ServerRow(after, t, u), u)
    {
      if v :| v in order && v.0 == t && parse(v.1) == Some(u) {
        var k :| 0 <= k < |order| && order[k] == v;
        assert Visited(update, v);
        TouchedRow(parse, tables, update, order, k, u);
        RowUpdateAgrees(update.members[t].members[v.1], ServerRow(before, t, u), ServerRow(after, t, u), u);
      } else {
        UntouchedRow(parse, tables, update, order, t, u);
        forall s | Visited(update, (t, s))
          ensures parse(s) != Some(u)
        {
          assert (t, s) in order;
        }
        assert !Mentions(parse, update, t, u);
      }
    }
  }

  /** An update as it was applied: its content and the order its entries were visited in. */
  datatype Applied = Applied(update: Json, order: seq<Visit>)

  function UpdatesIn(history: seq<Applied>): (us: seq<Json>)
    ensures |us| == |history| && forall i :: 0 <= i < |us| ==> us[i] == history[i].update
  {
    seq(|history|, i requires 0 <= i < |history| => history[i].update)
  }

  ghost predicate AppliedOk(history: seq<Applied>) {
    forall i :: 0 <= i < |history| ==> IsVisitOrder(history[i].order, history[i].update)
  }

  ghost function Replay(parse: UuidParser, base: Tables, history: seq<Applied>): Tables
    requires AppliedOk(history)
  {
    if history == [] then base
    else
      var n := |history| - 1;
      ApplyVisits(parse, Replay(parse, base, history[..n]), history[n].update, history[n].order)
  }

  /** The server's state when `k` of its updates have been made. */
  function StateAt(names: set<string>, states: seq<Db>, k: nat): Db
    requires k <= |states|
  {
    if k == 0 then EmptyDb(names) else states[k - 1]
  }

  /** `updates[0]` is the monitor reply for `states[0]`; each later update takes one state to the next. */
  ghost predicate ServerHistory(parse: UuidParser, names: set<string>, states: seq<Db>, updates: seq<Json>) {
    && |states| == |updates|
    && forall i :: 0 <= i < |updates| ==>
         Describes(parse, StateAt(names, states, i), StateAt(names, states, i + 1), updates[i])
  }

  /** The state a replica is in after schema loading: a table for every name, and no row. */
  ghost predicate NoRows(tables: Tables, names: set<string>) {
    names <= tables.Keys && forall t :: t in tables ==> tables[t] == map[]
  }

  /** Replica agreement: after any number of processed updates the replica is the server's state at that point. */
  lemma {:induction false} ReplicaAgreement(
    parse: UuidParser, base: Tables, names: set<string>, states: seq<Db>, updates: seq<Json>, history: seq<Applied>)
    requires NoRows(base, names) && ServerHistory(parse, names, states, updates)
    requires AppliedOk(history) && |history| <= |updates|
    requires forall i :: 0 <= i < |history| ==> history[i].update == updates[i]
    ensures Agrees(Replay(parse, base, history), StateAt(names, states, |history|))
  {
    if history != [] {
      var n := |history| - 1;
      ReplicaAgreement(parse, base, names, states, updates, history[..n]);
      AgreementStep(parse, Replay(parse, base, history[..n]), StateAt(names, states, n),
                    StateAt(names, states, n + 1), updates[n], history[n].order);
    }
  }

  // ------------------------------------------------------ monitor versions 2 and 3

  /**
   An update in the form of `update2` and `update3` (ovsdb-server(7)): its row updates have
   one of four keys, none of them "old" or "new".
   */
  ghost predicate SecondForm(update: Json) {
    forall t, s :: Visited(update, (t, s)) && update.members[t].members[s].Object? ==>
                     update.members[t].members[s].members.Keys <= {"initial", "insert", "delete", "modify"}
  }

  lemma {:induction false} SecondFormVisits(
      parse: UuidParser, tables: Tables, update: Json, order: seq<Visit>, name: string, uuid: Uuid)
    requires SecondForm(update) && forall v :: v in order ==> Visited(update, v)
    ensures Lookup(ApplyVisits(parse, tables, update, order), name, uuid) == Lookup(tables, name, uuid)
  {
    if order != [] {
      var n := |order| - 1;
      SecondFormVisits(parse, tables, update, order[..n], name, uuid);
      assert order[n] in order;
      var v, entry := order[n], update.members[order[n].0].members[order[n].1];
      if parse(v.1).Some? {
        ApplyRowAt(ApplyVisits(parse, tables, update, order[..n]), v.0, parse(v.1).value, entry, name, uuid);
        assert Visited(update, (v.0, v.1));
        assert entry.Object? ==> "old" !in entry.members.Keys && "new" !in entry.members.Keys;
      }
    }
  }

  /** The replica reads none of them: under versions 2 and 3 no update, the initial contents included, changes a row. */
  lemma {:induction false} SecondFormIgnored(
      parse: UuidParser, base: Tables, history: seq<Applied>, name: string, uuid: Uuid)
    requires AppliedOk(history) && forall i :: 0 <= i < |history| ==> SecondForm(history[i].update)
    ensures Lookup(Replay(parse, base, history), name, uuid) == Lookup(base, name, uuid)
  {
    if history != [] {
      var n := |history| - 1;
      SecondFormIgnored(parse, base, history[..n], name, uuid);
      SecondFormVisits(parse, Replay(parse, base, history[..n]), history[n].update, history[n].order, name, uuid);
    }
  }
}
