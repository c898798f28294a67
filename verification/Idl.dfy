/** The in-memory replica as it is kept: row objects in nested hash maps, updated in place. */
module Idl {
  import opened Common
  import opened Rpc
  import opened Replica
  import opened Seqs

  class Row {
    const uuid: Uuid
    var columns: map<string, Json>
    var modified: bool
    /** The table whose map owns this row. */
    ghost const home: string

    constructor (uuid: Uuid, ghost home: string)
      ensures this.uuid == uuid && this.home == home && columns == map[] && !modified
    {
      this.uuid, this.home := uuid, home;
      columns, modified := map[], false;
    }

    function View(): RowView
      reads this
    {
      RowView(uuid, columns, modified)
    }

    method Set(column: string, value: Json)
      modifies this
      ensures View() == RowView(uuid, old(columns)[column := value], true)
    {
      columns := columns[column := value];
      modified := true;
    }

    /** Insert every given column, in whatever order the map yields them. */
    method Update(values: map<string, Json>)
      modifies this
      ensures View() == RowView(uuid, old(columns) + values, true)
    {
      var todo := values.Keys;
      while todo != {}
        invariant todo <= values.Keys
        invariant columns.Keys == old(columns).Keys + (values.Keys - todo)
        invariant forall k :: k in columns ==>
                    columns[k] == if k in values && k !in todo then values[k] else old(columns)[k]
        decreases |todo|
      {
        var k :| k in todo;
        columns := columns[k := values[k]];
        todo := todo - {k};
      }
      modified := true;
    }
  }

  lemma {:induction false} Overwrite<K, V>(m: map<K, V>, k: K, a: V, b: V)
    ensures m[k := a][k := b] == m[k := b]
  {
  }

  lemma {:induction false} SelfUpdate<K, V>(m: map<K, V>, k: K)
    requires k in m
    ensures m[k := m[k]] == m
  {
  }

  /** `tables` with an empty table under each of `names`. */
  function Cleared(tables: Tables, names: set<string>): Tables {
    map t | t in tables.Keys + names :: if t in names then map[] else tables[t]
  }

  lemma {:induction false} ClearedNone(tables: Tables, names: set<string>)
    requires names == {}
    ensures Cleared(tables, names) == tables
  {
  }

  lemma {:induction false} ClearingNext(tables: Tables, names: set<string>, todo: set<string>, name: string)
    requires name in todo && name in names
    ensures Cleared(tables, names - todo)[name := map[]] == Cleared(tables, names - (todo - {name}))
  {
  }

  datatype IdlState = Initial | SchemaRequested | MonitorRequested | Monitoring

  /** Table names with their column names. */
  datatype Schema = Schema(tables: map<string, set<string>>)

  class Idl {
    const parse: UuidParser
    var state: IdlState
    var schema: Option<Schema>
    var tables: map<string, map<Uuid, Row>>
    var changeSeqno: nat
    /** What the row objects hold, as a value. */
    ghost var view: Tables
    /** Every row object ever filed. */
    ghost var Repr: set<Row>
    /** The updates applied since the schema was set, each with the order its entries were visited in. */
    ghost var history: seq<Applied>
    /** The tables as the schema left them. */
    ghost var base: Tables

    ghost predicate Filed(t: string, u: Uuid)
      requires t in tables && u in tables[t] && t in view && u in view[t]
      reads this`tables, this`view, this`Repr, Repr
    {
      var row := tables[t][u];
      row in Repr && row.home == t && row.uuid == u && view[t][u] == RowView(u, row.columns, row.modified)
    }

    /** Every entry owns its row object, every row is filed under its own UUID, and `view` is what they hold. */
    ghost predicate Valid()
      reads this`tables, this`view, this`Repr, Repr
    {
      && view.Keys == tables.Keys
      && (forall t :: t in tables ==> view[t].Keys == tables[t].Keys)
      && (forall t, u :: t in tables && u in tables[t] ==> Filed(t, u))
    }

    /** The replica is what its history makes of the tables the schema left. */
    ghost predicate Consistent()
      reads this, Repr
    {
      Valid() && AppliedOk(history) && view == Replay(parse, base, history)
    }

    constructor (parse: UuidParser)
      ensures this.parse == parse && Consistent() && state == Initial && schema == None && changeSeqno == 0
      ensures history == [] && view == map[] && Repr == {}
    {
      this.parse := parse;
      state, schema, tables, changeSeqno := Initial, None, map[], 0;
      view, history, base, Repr := map[], [], map[], {};
    }

    method ResetTable(name: string)
      requires Valid()
      modifies this`tables, this`view
      ensures Valid() && view == old(view)[name := map[]]
    {
      tables := tables[name := map[]];
      view := view[name := map[]];
    }

    method ResetTables(names: set<string>)
      requires Valid()
      modifies this`tables, this`view
      ensures Valid() && view == Cleared(old(view), names)
    {
      ghost var was := view;
      ClearedNone(was, names - names);
      var todo := names;
      while todo != {}
        invariant todo <= names && Valid()
        invariant view == Cleared(was, names - todo)
        decreases |todo|
      {
        var name :| name in todo;
        ResetTable(name);
        ClearingNext(was, names, todo, name);
        todo := todo - {name};
      }
      assert names - todo == names;
    }

    /** Rows of a table outside the schema survive; tables of the schema start empty. */
    method SetSchema(schema: Schema)
      requires Valid()
      modifies this`tables, this`schema, this`state, this`view, this`history, this`base
      ensures view == Cleared(old(view), schema.tables.Keys)
      ensures this.schema == Some(schema) && state == MonitorRequested && history == [] && base == view
      ensures Consistent()
    {
      history, base := [], Cleared(view, schema.tables.Keys);
      this.schema := Some(schema);
      state := MonitorRequested;
      ResetTables(schema.tables.Keys);
    }

    method SetMonitoring()
      modifies this`state
      ensures state == Monitoring
    {
      state := Monitoring;
    }

    /** `tables.entry(name).or_default()` */
    method EntryTable(name: string)
      requires Valid()
      modifies this`tables, this`view
      ensures Valid() && name in view && view == old(view)[name := Table(old(view), name)]
    {
      if name !in tables {
        tables := tables[name := map[]];
        view := view[name := map[]];
      }
    }

    method NewRow(name: string, uuid: Uuid) returns (row: Row)
      requires Valid() && name in tables && uuid !in tables[name]
      modifies this`tables, this`view, this`Repr
      ensures Valid() && fresh(row) && Repr == old(Repr) + {row} && tables.Keys == old(tables).Keys
      ensures uuid in tables[name] && row == tables[name][uuid]
      ensures view == old(view)[name := old(view)[name][uuid := RowView(uuid, map[], false)]]
    {
      row := new Row(uuid, name);
      tables := tables[name := tables[name][uuid := row]];
      view := view[name := view[name][uuid := RowView(uuid, map[], false)]];
      Repr := Repr + {row};
      forall t, u | t in tables && u in tables[t]
        ensures Filed(t, u)
      {
        if t != name || u != uuid {
          assert t in old(tables) && u in old(tables)[t] && tables[t][u] == old(tables[t][u]);
        }
      }
    }

    /** `table.entry(uuid).or_insert_with(|| Row::new(uuid))` */
    method EntryRow(name: string, uuid: Uuid) returns (row: Row)
      requires Valid() && name in tables
      modifies this`tables, this`view, this`Repr
      ensures Valid() && fresh(Repr - old(Repr)) && tables.Keys == old(tables).Keys
      ensures uuid in tables[name] && row == tables[name][uuid]
      ensures var was := if uuid in old(view)[name] then old(view)[name][uuid] else RowView(uuid, map[], false);
              view == old(view)[name := old(view)[name][uuid := was]]
    {
      if uuid !in tables[name] {
        row := NewRow(name, uuid);
      } else {
        row := tables[name][uuid];
        SelfUpdate(view[name], uuid);
        SelfUpdate(view, name);
      }
    }

    method RemoveRow(name: string, uuid: Uuid)
      requires Valid() && name in tables
      modifies this`tables, this`view
      ensures Valid() && view == old(view)[name := old(view)[name] - {uuid}]
    {
      tables := tables[name := tables[name] - {uuid}];
      view := view[name := view[name] - {uuid}];
    }

    method UpdateRow(name: string, uuid: Uuid, values: map<string, Json>)
      requires Valid() && name in tables && uuid in tables[name]
      modifies this`view, Repr
      ensures Valid()
      ensures view == old(view)[name := old(view)[name][uuid := MergeNew(old(view)[name][uuid], Object(values))]]
    {
      tables[name][uuid].Update(values);
      view := view[name := view[name][uuid := MergeNew(view[name][uuid], Object(values))]];
    }

    /** An insert or a modification: the row is created as needed and takes the new columns. */
    method MergeRow(name: string, uuid: Uuid, new': Json)
      requires Valid() && name in tables
      modifies this`tables, this`view, this`Repr, Repr
      ensures Valid() && fresh(Repr - old(Repr))
      ensures var was := if uuid in old(view)[name] then old(view)[name][uuid] else RowView(uuid, map[], false);
              view == old(view)[name := old(view)[name][uuid := MergeNew(was, new')]]
    {
      ghost var table := view[name];
      var row := EntryRow(name, uuid);
      ghost var entered := view[name];
      if new'.Object? {
        UpdateRow(name, uuid, new'.members);
        Overwrite(old(view), name, entered, view[name]);
        Overwrite(table, uuid, entered[uuid], view[name][uuid]);
      }
    }

    /** Apply one row update in place, creating the table and the row as needed. */
    method ProcessRowUpdate(name: string, uuid: Uuid, update: Json)
      requires Valid()
      modifies this`tables, this`view, this`Repr, Repr
      ensures Valid() && fresh(Repr - old(Repr))
      ensures view == ApplyRow(old(view), name, uuid, update)
    {
      EntryTable(name);
      ghost var table := Table(old(view), name);
      if update.Object? {
        if "old" in update.members && "new" !in update.members {
          RemoveRow(name, uuid);
          Overwrite(old(view), name, table, table - {uuid});
          return;
        }
        if "new" in update.members {
          MergeRow(name, uuid, update.members["new"]);
          Overwrite(old(view), name, table, view[name]);
        }
      }
    }

    /** The rows of one table, in some order. */
    method ProcessTableUpdate(name: string, update: Json) returns (ghost order: seq<string>)
      requires Valid()
      modifies this`tables, this`view, this`Repr, Repr
      ensures Valid() && fresh(Repr - old(Repr))
      ensures forall i, j :: 0 <= i < j < |order| ==> order[i] != order[j]
      ensures forall s :: s in order <==> update.Object? && s in update.members
      ensures view == ApplyEntries(parse, old(view), name, update, order)
    {
      order := [];
      if update.Object? {
        var todo := update.members.Keys;
        while todo != {}
          invariant Valid() && fresh(Repr - old(Repr))
          invariant todo <= update.members.Keys
          invariant forall s :: s in order <==> s in update.members && s !in todo
          invariant forall i, j :: 0 <= i < j < |order| ==> order[i] != order[j]
          invariant view == ApplyEntries(parse, old(view), name, update, order)
          decreases |todo|
        {
          var text :| text in todo;
          if parse(text).Some? {
            ProcessRowUpdate(name, parse(text).value, update.members[text]);
          }
          assert (order + [text])[..|order|] == order;
          order := order + [text];
          todo := todo - {text};
        }
      }
    }

    /** The tables of an update, in some order; `visits` is the order its entries were visited in. */
    method ProcessTables(update: Json) returns (ghost visits: seq<Visit>)
      requires Valid()
      modifies this`tables, this`view, this`Repr, Repr
      ensures Valid() && fresh(Repr - old(Repr))
      ensures IsVisitOrder(visits, update) && view == ApplyVisits(parse, old(view), update, visits)
    {
      visits := [];
      if update.Object? {
        var todo := update.members.Keys;
        while todo != {}
          invariant Valid() && fresh(Repr - old(Repr))
          invariant todo <= update.members.Keys
          invariant forall v :: v in visits <==> Visited(update, v) && v.0 !in todo
          invariant forall i, j :: 0 <= i < j < |visits| ==> visits[i] != visits[j]
          invariant view == ApplyVisits(parse, old(view), update, visits)
          decreases |todo|
        {
          var name :| name in todo;
          ghost var order := ProcessTableUpdate(name, update.members[name]);
          EntriesAreVisits(parse, old(view), name, update, visits, order);
          visits := visits + Tagged(name, order);
          todo := todo - {name};
        }
      }
    }

    /** Apply an update; anything that is not an object changes no row, but still counts. */
    method ProcessUpdate(update: Json)
      requires Consistent()
      modifies this`tables, this`view, this`changeSeqno, this`history, this`Repr, Repr
      ensures Consistent() && fresh(Repr - old(Repr))
      ensures changeSeqno == old(changeSeqno) + 1
      ensures old(history) <= history && |history| == |old(history)| + 1
      ensures UpdatesIn(history) == UpdatesIn(old(history)) + [update] && base == old(base)
    {
      ghost var visits := ProcessTables(update);
      changeSeqno := changeSeqno + 1;
      history := history + [Applied(update, visits)];
      assert history[..|old(history)|] == old(history);
    }
  }

  /** The entries of one table's update applied in `order`. */
  function ApplyEntries(parse: UuidParser, tables: Tables, name: string, update: Json, order: seq<string>): Tables
    requires forall s :: s in order ==> update.Object? && s in update.members
  {
    if order == [] then tables
    else
      var n := |order| - 1;
      assert forall s :: s in order[..n] ==> s in order;
      var before := ApplyEntries(parse, tables, name, update, order[..n]);
      assert order[n] in order;
      match parse(order[n])
      case None => before
      case Some(uuid) => ApplyRow(before, name, uuid, update.members[order[n]])
  }

  ghost function Tagged(name: string, order: seq<string>): (visits: seq<Visit>)
    ensures |visits| == |order| && forall i :: 0 <= i < |order| ==> visits[i] == (name, order[i])
  {
    seq(|order|, i requires 0 <= i < |order| => (name, order[i]))
  }

  lemma {:induction false} TaggedVisited(name: string, update: Json, visits: seq<Visit>, order: seq<string>)
    requires update.Object? && name in update.members
    requires forall v :: v in visits ==> Visited(update, v)
    requires forall s :: s in order ==> update.members[name].Object? && s in update.members[name].members
    ensures forall v :: v in visits + Tagged(name, order) ==> Visited(update, v)
  {
    forall v | v in Tagged(name, order)
      ensures Visited(update, v)
    {
      var i :| 0 <= i < |order| && Tagged(name, order)[i] == v;
      assert order[i] in order;
    }
  }

  lemma {:induction false} VisitsSnoc(parse: UuidParser, tables: Tables, update: Json, order: seq<Visit>, v: Visit)
    requires Visited(update, v) && forall w :: w in order ==> Visited(update, w)
    ensures forall w :: w in order + [v] ==> Visited(update, w)
    ensures ApplyVisits(parse, tables, update, order + [v])
         == ApplyVisit(parse, ApplyVisits(parse, tables, update, order), update, v)
  {
    assert (order + [v])[..|order|] == order;
  }

  lemma {:induction false} EntriesAreVisits(
    parse: UuidParser, tables: Tables, name: string, update: Json, visits: seq<Visit>, order: seq<string>)
    requires update.Object? && name in update.members
    requires forall v :: v in visits ==> Visited(update, v)
    requires forall s :: s in order ==> update.members[name].Object? && s in update.members[name].members
    ensures forall v :: v in visits + Tagged(name, order) ==> Visited(update, v)
    ensures ApplyVisits(parse, tables, update, visits + Tagged(name, order))
         == ApplyEntries(parse, ApplyVisits(parse, tables, update, visits), name, update.members[name], order)
  {
    TaggedVisited(name, update, visits, order);
    if order == [] {
      NilConcat(visits);
      assert Tagged(name, order) == [];
    } else {
      var n := |order| - 1;
      var front, last := order[..n], order[n];
      assert last in order && forall s :: s in front ==> s in order;
      EntriesAreVisits(parse, tables, name, update, visits, front);
      assert visits + Tagged(name, order) == visits + Tagged(name, front) + [(name, last)];
      VisitsSnoc(parse, tables, update, visits + Tagged(name, front), (name, last));
    }
  }
}
