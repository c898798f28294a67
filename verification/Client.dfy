/** The OVSDB client: schema, monitor, and the loops that feed notifications to the replica. */
module Client {
  import opened Common
  import opened Bytes
  import opened Framing
  import opened Rpc
  import opened Receive
  import opened JsonRpc
  import opened Replica
  import opened Idl
  import opened Session
  import opened Seqs
  import Transactions

  datatype MonitorVersion = V1 | V2 | V3

  datatype Config = Config(database: string, tables: Option<seq<string>>, version: MonitorVersion)

  function MonitorMethod(version: MonitorVersion): string {
    match version
    case V1 => "monitor"
    case V2 => "monitor_cond"
    case V3 => "monitor_cond_since"
  }

  /** The `<table-updates>` inside a monitor reply. */
  function InitialUpdate(version: MonitorVersion, reply: Json): Json {
    if version != V1 && reply.Array? && |reply.items| >= 3 then reply.items[2] else reply
  }

  /**
   In versions 1 and 2 the reply is the update; in version 3 it is the third part of a triple, after whether the last
   transaction was found and the id of the last one.
   */
  lemma {:induction false} WhereContentsAre(updates: Json, found: bool, last: string)
    requires updates.Object?
    ensures InitialUpdate(V1, updates) == updates && InitialUpdate(V2, updates) == updates
    ensures InitialUpdate(V3, Array([Bool(found), String(last), updates])) == updates
  {
  }

  function SchemaParams(config: Config): Json { Array([String(config.database)]) }

  /** The schema a reply holds; `readSchema` stands for the JSON schema decoder. */
  function SchemaIn(reply: Result<Json, Error>, readSchema: Json -> Option<Schema>): Result<Schema, Error> {
    match reply
    case Err(e) => Err(e)
    case Ok(json) =>
      var schema := readSchema(json);
      if schema.None? then Err(SchemaNotLoaded) else Ok(schema.value)
  }

  /** What a client connects with: schema decoder, monitor id, and the order column sets are listed in. */
  datatype Opening = Opening(
    readSchema: Json -> Option<Schema>, id: Uuid, idText: string, listing: set<string> -> seq<string>)

  function OpeningParams(config: Config, schema: Schema, o: Opening): Json {
    MonitorParams(config, o.idText, Wanted(config, schema, o.listing))
  }

  /** Session and outcome after fetching the schema and starting the monitor on a new connection. */
  function AfterConnect(s: Session, config: Config, o: Opening): (Session, Result<Schema, Error>) {
    var one := AfterTransact(s, 1, "get_schema", SchemaParams(config));
    match SchemaIn(ReplyTo(s, 1), o.readSchema)
    case Err(e) => (one, Err(e))
    case Ok(schema) =>
      var two := AfterTransact(one, 2, MonitorMethod(config.version), OpeningParams(config, schema, o));
      match MonitorReply(s, config)
      case Err(e) => (two, Err(e))
      case Ok(_) => (two, Ok(schema))
  }

  /**
   A client after its opening requests on session `s` with tables `view`: monitoring with the contents of the second
   reply as its first update, over emptied schema tables; or with the error of the step that failed.
   */
  ghost predicate Initialized(client: Client, s: Session, view: Tables, o: Opening, r: Result<(), Error>)
    reads client, client.conn, client.idl
  {
    var (after, outcome) := AfterConnect(s, client.config, o);
    && client.State() == after
    && if outcome.Err? then r == Err(outcome.error)
       else
         && r == Ok(()) && client.idl.schema == Some(outcome.value) && client.idl.state == Monitoring
         && client.idl.base == Cleared(view, outcome.value.tables.Keys)
         && client.initial == [InitialUpdate(client.config.version, MonitorReply(s, client.config).value)]
  }

  function MonitorReply(s: Session, config: Config): Result<Json, Error> {
    ReplyTo(AfterTransact(s, 1, "get_schema", SchemaParams(config)), 2)
  }

  /** The parameters of a `transact` request: database name, then the operations. */
  function BuildParams(db: string, ops: seq<Transactions.Op>, encode: Transactions.Op -> Json): Json {
    Array([String(db)] + seq(|ops|, i requires 0 <= i < |ops| => encode(ops[i])))
  }

  /** What a transaction knows after the server's answer. */
  ghost predicate Committed(
      txn: Transactions.Transaction, parse: UuidParser, answer: Json, ok: bool, before: map<string, Uuid>)
    reads txn
  {
    && (ok <==> answer.Array? && Transactions.FirstError(answer.items) == |answer.items|)
    && txn.status == (if ok then Transactions.Success else Transactions.Failed)
    && txn.uuidMap == if answer.Array?
       then Transactions.StoredUuids(parse, answer.items, Transactions.FirstError(answer.items), before) else before
  }

  class Client {
    const config: Config
    const conn: Connection
    const idl: Idl
    var monitorId: Option<Uuid>
    /** Notifications taken from the connection since the monitor reply was processed, oldest first. */
    ghost var handled: seq<Request>
    /** The update inside the monitor reply, once there is one. */
    ghost var initial: seq<Json>

    ghost predicate Valid()
      reads this, conn, idl, idl.Repr
    {
      && conn.Valid() && idl.Consistent()
      && idl.changeSeqno == |idl.history|
      && UpdatesIn(idl.history) == initial + Updates(handled)
    }

    /** The sequence number counts the monitor reply and every update notification handled. */
    lemma {:induction false} SeqnoCountsUpdates()
      requires Valid()
      ensures idl.changeSeqno == |initial| + |Updates(handled)|
    {
    }

    ghost function State(): Session
      reads this, conn
    {
      Session(handled, conn.pending, conn.Wire(), conn.written, conn.Fate())
    }

    /**
     Replica agreement, for a client as it is: after any calls that brought it here from session `s`, where it had
     applied the initial contents, its tables are the server's at the change its sequence number counts, and the
     changes it has not applied are still to come, in order.
     */
    lemma {:induction false} ReplicaAgrees(
      s: Session, calls: seq<Call>, names: set<string>, states: seq<Db>, updates: seq<Json>)
      requires Valid() && State() == AfterAll(s, calls)
      requires NoRows(idl.base, names) && ServerHistory(idl.parse, names, states, updates) && updates != []
      requires initial == [updates[0]] && Updates(Line(s)) == updates[1..]
      ensures idl.changeSeqno == 1 + |Updates(handled)| <= |updates|
      ensures Agrees(idl.view, StateAt(names, states, idl.changeSeqno))
      ensures Updates(conn.pending + Requests(conn.Wire())) == updates[idl.changeSeqno..]
    {
      ReplicaFollowsServer(idl.parse, idl.base, names, states, updates, s, calls, idl.history);
    }

    /**
     The same from the first byte: a connected client, after any calls, when the server has sent the two replies, the
     initial contents in the second, an update notification for each change and notifications of other methods, as
     objects cut into reads in any way. The client has handled the first notices; its sequence number is one more than
     the changes among them, and its tables are the server's after those changes.
     */
    lemma {:induction false} ReplicaAgreesFromBytes(
      chunks: seq<Chunk>, sent: seq<Sent>, tail: seq<byte>, p: Script, opening: Opening, schema: Schema,
      calls: seq<Call>, names: set<string>, states: seq<Db>, notices: seq<Notice>)
      requires Valid() && Writes(conn.parse, chunks, sent, tail, ScriptMessages(p))
      requires AfterConnect(Opened(conn.parse, chunks), config, opening).1 == Ok(schema)
      requires State() == AfterAll(AfterConnect(Opened(conn.parse, chunks), config, opening).0, calls)
      requires idl.base == Cleared(map[], schema.tables.Keys) && names <= schema.tables.Keys
      requires config.version == V1 && initial == [InitialUpdate(V1, p.monitorReply)]
      requires p.early + p.between + Requests(p.rest) == Notifications(notices) && OtherMethods(notices)
      requires ServerHistory(idl.parse, names, states, [p.monitorReply] + Changes(notices))
      ensures |handled| <= |notices| && handled == Notifications(notices[..|handled|])
      ensures conn.pending + Requests(conn.Wire()) == Notifications(notices[|handled|..])
      ensures idl.changeSeqno == 1 + |Changes(notices[..|handled|])| <= |states|
      ensures Agrees(idl.view, StateAt(names, states, idl.changeSeqno))
    {
      var s0 := Opened(conn.parse, chunks);
      ScriptDelivered(conn.parse, chunks, sent, tail, p, "get_schema", SchemaParams(config),
        MonitorMethod(config.version), OpeningParams(config, schema, opening));
      var s := AfterConnect(s0, config, opening).0;
      NilConcat(p.early + p.between);
      assert Line(s) == p.early + p.between + Requests(p.rest);
      UpdatesAreChanges(notices);
      ReplicaAgrees(s, calls, names, states, [p.monitorReply] + Changes(notices));
      NoticesFollowed(s, calls, notices);
    }

    constructor (config: Config, parse: Parser, parseUuid: UuidParser, incoming: seq<Chunk>)
      ensures Valid() && this.config == config && fresh(conn) && fresh(idl) && idl.Repr == {}
      ensures idl.parse == parseUuid && conn.parse == parse && conn.incoming == incoming && conn.readBuf == []
      ensures conn.pending == [] && conn.written == [] && conn.nextId == 1
      ensures handled == [] && initial == [] && monitorId == None
      ensures idl.history == [] && idl.view == map[] && idl.schema == None
    {
      this.config := config;
      conn := new Connection(parse, incoming);
      idl := new Idl(parseUuid);
      monitorId, handled, initial := None, [], [];
    }

    /** One request and its response; notifications that arrive in between are queued. */
    method Call(meth: string, params: Json) returns (r: Result<Json, Error>)
      requires Valid()
      modifies conn
      ensures Valid() && State() == AfterTransact(old(State()), old(conn.nextId), meth, params)
      ensures conn.nextId == (old(conn.nextId) + 1) % ID_MODULUS
      ensures r == ReplyTo(old(State()), old(conn.nextId))
    {
      r := conn.Transact(meth, params);
    }

    /**
     Commit a transaction: nothing is sent for an empty one; otherwise its operations go out in one request, and the
     uuids in the response are stored in it. `encode` stands for the JSON form of an operation.
     */
    method Commit(txn: Transactions.Transaction, encode: Transactions.Op -> Json) returns (r: Result<bool, Error>)
      requires Valid() && txn.Valid()
      modifies conn, txn`status, txn`uuidMap
      ensures Valid() && txn.Valid()
      ensures txn.operations == [] ==> r == Ok(true) && State() == old(State())
      ensures txn.operations != [] ==>
                State() == AfterTransact(old(State()), old(conn.nextId), "transact",
                  BuildParams(txn.dbName, txn.operations, encode))
      ensures txn.operations == [] || r.Err? ==> txn.status == old(txn.status) && txn.uuidMap == old(txn.uuidMap)
      ensures var answer := ReplyTo(old(State()), old(conn.nextId));
              txn.operations != [] ==>
                && (answer.Err? ==> r == Err(answer.error)) && (answer.Ok? ==> r.Ok?)
                && (r.Ok? ==> Committed(txn, idl.parse, answer.value, r.value, old(txn.uuidMap)))
    {
      if txn.IsEmpty() {
        return Ok(true);
      }
      var result := Call("transact", BuildParams(txn.dbName, txn.operations, encode));
      if result.Err? {
        return Err(result.error);
      }
      var ok := txn.ProcessResult(idl.parse, result.value);
      r := Ok(ok);
    }

    /** Fetch the schema; `readSchema` stands for the JSON schema decoder. */
    method FetchSchema(readSchema: Json -> Option<Schema>) returns (r: Result<(), Error>)
      requires Valid() && handled == [] && initial == []
      modifies conn, idl, idl.Repr
      ensures Valid() && idl.Repr == old(idl.Repr) && handled == [] && initial == []
      ensures conn.nextId == (old(conn.nextId) + 1) % ID_MODULUS
      ensures var answer := SchemaIn(ReplyTo(old(State()), old(conn.nextId)), readSchema);
              if answer.Err? then r == Err(answer.error) && idl.schema == old(idl.schema) && idl.view == old(idl.view)
              else
                && r == Ok(()) && idl.schema == Some(answer.value)
                && idl.base == idl.view == Cleared(old(idl.view), answer.value.tables.Keys)
      ensures State() == AfterTransact(old(State()), old(conn.nextId), "get_schema", SchemaParams(config))
    {
      var reply := Call("get_schema", SchemaParams(config));
      if reply.Err? {
        return Err(reply.error);
      }
      var schema := readSchema(reply.value);
      if schema.None? {
        return Err(SchemaNotLoaded);
      }
      idl.SetSchema(schema.value);
      return Ok(());
    }

    /** Hand an update to the replica; it came as the monitor reply, or in the notification `source`. */
    method ApplyUpdate(update: Json, ghost source: Option<Request>)
      requires Valid()
      requires match source case None => initial == [] && handled == [] case Some(req) => UpdateOf(req) == Some(update)
      modifies this`handled, this`initial, idl, idl.Repr
      ensures Valid() && fresh(idl.Repr - old(idl.Repr))
      ensures idl.base == old(idl.base) && idl.state == old(idl.state) && idl.schema == old(idl.schema)
      ensures UpdatesIn(idl.history) == UpdatesIn(old(idl.history)) + [update]
      ensures source.None? ==> initial == [update] && handled == old(handled)
      ensures source.Some? ==> initial == old(initial) && handled == old(handled) + [source.value]
    {
      idl.ProcessUpdate(update);
      if source.None? {
        initial := [update];
      } else {
        UpdatesConcat(handled, [source.value]);
        handled := handled + [source.value];
      }
    }

    /** The initial contents: the first update of the replica. */
    method ProcessMonitorReply(reply: Json)
      requires Valid() && initial == [] && handled == []
      modifies this`handled, this`initial, idl, idl.Repr
      ensures Valid() && fresh(idl.Repr - old(idl.Repr))
      ensures idl.base == old(idl.base) && idl.state == old(idl.state) && idl.schema == old(idl.schema)
      ensures initial == [InitialUpdate(config.version, reply)] && handled == []
    {
      ApplyUpdate(InitialUpdate(config.version, reply), None);
    }

    /** Build and send the monitor request; `listing` is the order a column set is listed in. */
    method RequestMonitor(id: Uuid, idText: string, listing: set<string> -> seq<string>)
        returns (r: Result<Json, Error>)
      requires Valid()
      modifies this`monitorId, conn
      ensures Valid()
      ensures State() == AfterMonitorRequest(old(State()), config, idl.schema, idText, listing, old(conn.nextId))
      ensures if idl.schema.None? then r == Err(SchemaNotLoaded) && monitorId == old(monitorId)
              else r == ReplyTo(old(State()), old(conn.nextId)) && monitorId == Some(id)
    {
      if idl.schema.None? {
        return Err(SchemaNotLoaded);
      }
      var requests := Wanted(config, idl.schema.value, listing);
      monitorId := Some(id);
      r := Call(MonitorMethod(config.version), MonitorParams(config, idText, requests));
    }

    /** Start monitoring under a fresh id; the reply's contents become the replica's first update. */
    method StartMonitor(id: Uuid, idText: string, listing: set<string> -> seq<string>) returns (r: Result<(), Error>)
      requires Valid() && handled == [] && initial == []
      modifies this, conn, idl, idl.Repr
      ensures Valid() && fresh(idl.Repr - old(idl.Repr)) && handled == []
      ensures idl.base == old(idl.base) && idl.schema == old(idl.schema)
      ensures var answer := if old(idl.schema).None? then Err(SchemaNotLoaded)
              else ReplyTo(old(State()), old(conn.nextId));
              if answer.Err? then r == Err(answer.error) && initial == []
              else
                && r == Ok(()) && idl.state == Monitoring && monitorId == Some(id)
                && initial == [InitialUpdate(config.version, answer.value)]
      ensures State() == AfterMonitorRequest(old(State()), config, old(idl.schema), idText, listing, old(conn.nextId))
    {
      var reply := RequestMonitor(id, idText, listing);
      if reply.Err? {
        return Err(reply.error);
      }
      AdoptReply(reply.value);
      return Ok(());
    }

    /** The end of `start_monitor`: the reply is applied, and monitoring begins. */
    method AdoptReply(reply: Json)
      requires Valid() && handled == [] && initial == []
      modifies this, idl, idl.Repr
      ensures Valid() && fresh(idl.Repr - old(idl.Repr)) && idl.base == old(idl.base) && idl.schema == old(idl.schema)
      ensures monitorId == old(monitorId) && handled == [] && idl.state == Monitoring
      ensures initial == [InitialUpdate(config.version, reply)]
    {
      ProcessMonitorReply(reply);
      idl.SetMonitoring();
    }

    /** Schema first, then the monitor. */
    method Initialize(opening: Opening) returns (r: Result<(), Error>)
      requires Valid() && handled == [] && initial == [] && conn.nextId == 1 && idl.schema == None
      modifies this, conn, idl, idl.Repr
      ensures Valid() && fresh(idl.Repr - old(idl.Repr))
      ensures Initialized(this, old(State()), old(idl.view), opening, r)
    {
      r := FetchSchema(opening.readSchema);
      if r.Err? {
        return;
      }
      r := StartMonitor(opening.id, opening.idText, opening.listing);
    }

    /** Count `req` as handled without applying anything. */
    ghost method PassOver(req: Request)
      requires Valid() && UpdateOf(req).None?
      modifies this`handled
      ensures Valid() && handled == old(handled) + [req]
    {
      UpdatesConcat(handled, [req]);
      handled := handled + [req];
    }

    /** `Some(true)` for an update, `Some(false)` for anything else that is known, `None` otherwise. */
    method ProcessNotification(req: Request) returns (r: Option<bool>)
      requires Valid()
      modifies this`handled, this`initial, idl, idl.Repr
      ensures Valid() && fresh(idl.Repr - old(idl.Repr))
      ensures handled == old(handled) + [req] && initial == old(initial) && idl.base == old(idl.base)
      ensures r == Some(true) <==> UpdateOf(req).Some?
      ensures forall id, update :: req == UpdateNotification(id, update) ==>
                r == Some(true) && UpdatesIn(idl.history) == UpdatesIn(old(idl.history)) + [update]
    {
      if req.meth == "update" || req.meth == "update2" || req.meth == "update3" {
        if req.params.Array? && |req.params.items| >= 2 {
          ApplyUpdate(req.params.items[1], Some(req));
          return Some(true);
        }
        PassOver(req);
        return Some(false);
      }
      PassOver(req);
      return if req.meth == "echo" then Some(false) else None;
    }

    /** Drain the queue, applying the updates in it; queued echo requests are dropped unanswered. */
    method Run() returns (updated: bool)
      requires Valid()
      modifies this`handled, this`initial, conn`pending, idl, idl.Repr
      ensures Valid() && fresh(idl.Repr - old(idl.Repr)) && initial == old(initial)
      ensures idl.base == old(idl.base)
      ensures State() == AfterRun(old(State()))
      ensures updated <==> Updates(old(conn.pending)) != []
    {
      updated := false;
      ghost var start := State();
      while true
        invariant Valid() && fresh(idl.Repr - old(idl.Repr)) && initial == old(initial)
        invariant idl.base == old(idl.base)
        invariant AfterRun(State()) == AfterRun(start)
        invariant updated || Updates(conn.pending) != [] <==> Updates(start.pending) != []
        decreases |conn.pending|
      {
        RunStep(State());
        var more, applied := DrainOne();
        if !more {
          return;
        }
        updated := updated || applied;
      }
    }

    /** One turn of the drain loop. */
    method DrainOne() returns (more: bool, applied: bool)
      requires Valid()
      modifies this`handled, this`initial, conn`pending, idl, idl.Repr
      ensures Valid() && fresh(idl.Repr - old(idl.Repr)) && initial == old(initial)
      ensures idl.base == old(idl.base)
      ensures more <==> old(conn.pending) != []
      ensures !more ==> State() == old(State())
      ensures more ==> (applied <==> UpdateOf(old(conn.pending)[0]).Some?)
      ensures more ==> var s := old(State());
                       State() == s.(handled := s.handled + [s.pending[0]], pending := s.pending[1..])
    {
      more, applied := false, false;
      var next := conn.PopNotification();
      if next.Some? {
        more := true;
        applied := ApplyIfUpdate(next.value);
      }
    }

    /** The update branch of the drain loop. */
    method ApplyIfUpdate(notification: Request) returns (applied: bool)
      requires Valid()
      modifies this`handled, this`initial, idl, idl.Repr
      ensures Valid() && fresh(idl.Repr - old(idl.Repr)) && initial == old(initial)
      ensures idl.base == old(idl.base)
      ensures handled == old(handled) + [notification] && (applied <==> UpdateOf(notification).Some?)
      ensures forall id, update :: notification == UpdateNotification(id, update) ==>
                applied && UpdatesIn(idl.history) == UpdatesIn(old(idl.history)) + [update]
    {
      if notification.meth == "update" || notification.meth == "update2" || notification.meth == "update3" {
        if notification.params.Array? && |notification.params.items| >= 2 {
          ApplyUpdate(notification.params.items[1], Some(notification));
          return true;
        }
      }
      PassOver(notification);
      return false;
    }

    method SendEchoReply(req: Request)
      modifies conn`written
      ensures conn.written == old(conn.written) + [EchoReply(req)]
    {
      var id := if req.id.Some? then req.id.value else StringId("echo");
      conn.SendMessage(Resp(Response(Some(req.params), None, id)));
    }

    /** Answer an echo request, or process any other notification; true when it was an update. */
    method Handle(req: Request) returns (updated: bool)
      requires Valid()
      modifies this`handled, this`initial, conn`written, idl, idl.Repr
      ensures Valid() && fresh(idl.Repr - old(idl.Repr)) && initial == old(initial)
      ensures idl.base == old(idl.base)
      ensures handled == old(handled) + [req] && (updated <==> UpdateOf(req).Some?)
      ensures conn.written == old(conn.written) + EchoReplies([req])
    {
      if req.meth == "echo" {
        SendEchoReply(req);
        PassOver(req);
        return false;
      }
      var r := ProcessNotification(req);
      updated := r == Some(true);
    }

    /** Pop one queued notification and handle it; true when it was an update. */
    method HandleQueued() returns (updated: bool)
      requires Valid() && conn.pending != []
      modifies this`handled, this`initial, conn`pending, conn`written, idl, idl.Repr
      ensures Valid() && fresh(idl.Repr - old(idl.Repr)) && initial == old(initial)
      ensures idl.base == old(idl.base)
      ensures State() == AfterNext(old(State())) && (updated <==> IsUpdate(Next(old(State()))))
    {
      var next := conn.PopNotification();
      updated := Handle(next.value);
    }

    /** Receive one message and handle it; `Ok(true)` when it was an update. */
    method HandleReceived() returns (r: Result<bool, Error>)
      requires Valid() && conn.pending == []
      modifies this`handled, this`initial, conn, idl, idl.Repr
      ensures Valid() && fresh(idl.Repr - old(idl.Repr)) && initial == old(initial) && conn.pending == []
      ensures idl.base == old(idl.base)
      ensures r.Err? <==> old(conn.Wire()) == []
      ensures r.Err? ==> State() == old(State()) && r.error == State().fate
      ensures r.Ok? ==>
                && State() == AfterNext(old(State())) && r.value == IsUpdate(Next(old(State())))
                && |conn.Stream()| < |old(conn.Stream())|
    {
      var msg := conn.RecvMessage();
      if msg.Err? {
        return Err(msg.error);
      }
      if msg.value.Req? {
        var updated := Handle(msg.value.request);
        return Ok(updated);
      }
      return Ok(false);
    }

    /** The queue's part of waiting: true when an update was found in it. */
    method WaitOnQueue() returns (found: bool)
      requires Valid()
      modifies this`handled, this`initial, conn`pending, conn`written, idl, idl.Repr
      ensures Valid() && fresh(idl.Repr - old(idl.Repr)) && initial == old(initial)
      ensures idl.base == old(idl.base)
      ensures found ==> State() == AfterWait(old(State())) && Finds(old(State()))
      ensures !found ==> AfterWait(State()) == AfterWait(old(State())) && Finds(State()) == Finds(old(State()))
      ensures !found ==> conn.pending == []
      ensures conn.Fate() == old(conn.Fate())
    {
      while conn.pending != []
        invariant Valid() && fresh(idl.Repr - old(idl.Repr)) && initial == old(initial)
        invariant idl.base == old(idl.base)
        invariant AfterWait(State()) == AfterWait(old(State())) && State().fate == old(State()).fate
        invariant Finds(State()) == Finds(old(State()))
        decreases |conn.pending|
      {
        FindsNext(State());
        found := HandleQueued();
        if found {
          return;
        }
      }
      found := false;
    }

    /** The wire's part of waiting. */
    method WaitOnWire() returns (r: Result<(), Error>)
      requires Valid() && conn.pending == []
      modifies this`handled, this`initial, conn, idl, idl.Repr
      ensures Valid() && fresh(idl.Repr - old(idl.Repr)) && initial == old(initial)
      ensures idl.base == old(idl.base)
      ensures State() == AfterWait(old(State()))
      ensures r.Err? ==> r.error == old(conn.Fate())
      ensures r.Ok? <==> Finds(old(State()))
    {
      while true
        invariant Valid() && fresh(idl.Repr - old(idl.Repr)) && initial == old(initial) && conn.pending == []
        invariant idl.base == old(idl.base)
        invariant AfterWait(State()) == AfterWait(old(State())) && State().fate == old(State()).fate
        invariant Finds(State()) == Finds(old(State()))
        decreases |conn.Stream()|
      {
        if State().wire != [] {
          FindsNext(State());
        }
        var updated := HandleReceived();
        if updated.Err? {
          return Err(updated.error);
        }
        if updated.value {
          return Ok(());
        }
      }
    }

    /** Block until one update has been applied, answering every echo request met on the way. */
    method Wait() returns (r: Result<(), Error>)
      requires Valid()
      modifies this`handled, this`initial, conn, idl, idl.Repr
      ensures Valid() && fresh(idl.Repr - old(idl.Repr)) && initial == old(initial)
      ensures idl.base == old(idl.base)
      ensures State() == AfterWait(old(State()))
      ensures r.Ok? <==> Finds(old(State()))
      ensures r.Err? ==> r.error == old(conn.Fate())
    {
      var found := WaitOnQueue();
      if found {
        return Ok(());
      }
      r := WaitOnWire();
    }
  }

  /** `connect_with_config`, on a socket that will deliver `incoming`. */
  method Connect(config: Config, parse: Parser, parseUuid: UuidParser, incoming: seq<Chunk>, opening: Opening)
      returns (client: Client, r: Result<(), Error>)
    ensures fresh(client) && fresh(client.conn) && fresh(client.idl) && fresh(client.idl.Repr) && client.Valid()
    ensures client.config == config && client.conn.parse == parse && client.idl.parse == parseUuid
    ensures Initialized(client, Opened(parse, incoming), map[], opening, r)
  {
    client := new Client(config, parse, parseUuid, incoming);
    NilConcat(Flat(incoming));
    assert client.State() == Opened(parse, incoming);
    r := client.Initialize(opening);
  }

  /** The tables to monitor that the schema knows, each with all its columns. */
  function Wanted(config: Config, schema: Schema, listing: set<string> -> seq<string>): map<string, Json> {
    map t | t in schema.tables && (config.tables.None? || t in config.tables.value) ::
      TableRequest(listing(schema.tables[t]))
  }

  /** The session after asking for a monitor, which needs a schema. */
  function AfterMonitorRequest(
    s: Session, config: Config, schema: Option<Schema>, idText: string, listing: set<string> -> seq<string>, id: int)
    : Session
  {
    if schema.None? then s
    else AfterTransact(s, id, MonitorMethod(config.version),
                       MonitorParams(config, idText, Wanted(config, schema.value, listing)))
  }

  function TableRequest(columns: seq<string>): Json {
    Object(map["columns" := Array(seq(|columns|, i requires 0 <= i < |columns| => String(columns[i])))])
  }

  function MonitorParams(config: Config, idText: string, requests: map<string, Json>): Json {
    Array([String(config.database), String(idText), Object(requests)]
          + if config.version == V3 then [String("00000000-0000-0000-0000-000000000000")] else [])
  }

  /**
   What connecting writes: the request of section 4.1.2 of RFC 7047 for the schema of the database, then a monitor
   request for exactly the wanted tables of that schema, each with all its columns; in version 1 that of section 4.1.5.
   */
  lemma {:induction false} OpeningWrites(s: Session, config: Config, o: Opening) returns (requests: map<string, Json>)
    ensures var (t, r) := AfterConnect(s, config, o);
            r.Ok? ==>
              && |t.written| == |s.written| + 2 && t.written[..|s.written|] == s.written
              && t.written[|s.written|]
                 == Req(Request("get_schema", Array([String(config.database)]), Some(NumberId(1))))
              && Asks(t.written[|s.written| + 1], config, r.value, o, requests)
  {
    requests := map[];
    var r := AfterConnect(s, config, o).1;
    if r.Ok? {
      requests := Wanted(config, r.value, o.listing);
      NilConcat([String(config.database), String(o.idText), Object(requests)]);
      forall name | name in requests
        ensures ListsColumns(requests[name], o.listing(r.value.tables[name]))
      {
      }
    }
  }

  /** One member, "columns", an array of the column names. */
  ghost predicate ListsColumns(request: Json, columns: seq<string>) {
    && request.Object? && request.members.Keys == {"columns"} && request.members["columns"].Array?
    && var items := request.members["columns"].items;
    && |items| == |columns| && forall i :: 0 <= i < |items| ==> items[i] == String(columns[i])
  }

  ghost predicate Asks(m: Message, config: Config, schema: Schema, o: Opening, requests: map<string, Json>) {
    && (forall name :: name in requests <==>
          name in schema.tables && (config.tables.Some? ==> name in config.tables.value))
    && (forall name :: name in requests ==> ListsColumns(requests[name], o.listing(schema.tables[name])))
    && var common := [String(config.database), String(o.idText), Object(requests)];
    && (config.version == V1 ==> m == Req(Request("monitor", Array(common), Some(NumberId(2)))))
    && (config.version == V2 ==> m == Req(Request("monitor_cond", Array(common), Some(NumberId(2)))))
    && (config.version == V3 ==>
          m == Req(Request("monitor_cond_since", Array(common + [String("00000000-0000-0000-0000-000000000000")]),
                           Some(NumberId(2)))))
  }

  /** What a commit writes: section 4.1.3 of RFC 7047, the database and then one object for each operation, in order. */
  lemma {:induction false} CommitWrites(
      s: Session, id: int, db: string, ops: seq<Transactions.Op>, encode: Transactions.Op -> Json)
    ensures var t := AfterTransact(s, id, "transact", BuildParams(db, ops, encode));
            && |t.written| == |s.written| + 1 && t.written[..|s.written|] == s.written
            && var m := t.written[|s.written|];
            && m.Req? && m.request.meth == "transact" && m.request.id == Some(NumberId(id)) && m.request.params.Array?
            && |m.request.params.items| == 1 + |ops| && m.request.params.items[0] == String(db)
            && forall i :: 0 <= i < |ops| ==> m.request.params.items[i + 1] == encode(ops[i])
  {
  }
}
