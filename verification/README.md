# Verification of rovs

This project models the parts of rovs where a mistake would be hard to see, and proves what they are for. rovs is a
client library for Open vSwitch: it speaks OVSDB (JSON-RPC, RFC 7047) to configure a switch, keeps a replica of the
switch's database, and speaks OpenFlow 1.3 with the Nicira extensions to program it.

`dafny verify dfyconfig.toml` checks everything.

**The replication path.** Bytes arrive in arbitrary chunks and a brace-depth scanner cuts them into JSON objects
(`Framing`, `Receive`). A connection queues the notifications that arrive while it waits for a response (`JsonRpc`). A
client feeds them to an in-memory replica of the database (`Idl`, `Replica`, `Client`). `Session` looks at the client
from outside, over every interleaving of its calls. The result spans all of it: from the bytes a server sends for any
history of changes, the schema and monitor replies included and cut into reads in any way, to the equality of the
connected client's tables with the server state its sequence number counts. The server is that of sections 4.1.5 and
4.1.6 of RFC 7047: it sends one `update` notification, a monitor id and table updates, for each change, among
notifications of other methods. The JSON decoder and the uuid decoder are parameters.

**Transactions.** `Transactions` models the builder and the topology calls that expand to operations, `Builders` the
two templates on top. `Ovsdb` gives the operations the meaning of sections 5.2.1 and 5.2.3 to 5.2.5 of RFC 7047.
`Topology` and `Removal` say what executing them does to references between rows, and exactly when integrity is kept;
`Standing` what the rows written say in the final database: names, types, VLANs, fail modes, and on which bridge.

**NAT pipelines.** `FlowTable` is a three-table OpenFlow switch with priorities, replacement of identical flows, table
misses that drop, and connection tracking by zone that recirculates. `Nat` proves exactly when the flows the templates
generate refine a policy said without flows, says which translations that policy leads to, and states safety over
packet sequences.

**OXM matches.** `Oxm` is the wire form of fields and masks, `OxmDecode` the two decoding loops, `MatchCodec` the match
encoder and decoder with the normal form they agree on, `Containers` the messages that carry matches. `MatchWire`
compares both with the published field numbers and says what stands in the bytes.

**Nicira actions.** `Learn` is the learn action with its specs, `Nicira` the dispatch and the other actions. The result
is a list of exactly the actions that decoding gives back as they were encoded. The decoder ignores much of what is
sent, so `NiciraWire` reads the encoded actions as a switch does, by position.

**The OpenFlow connection.** `VConn` models requests, barriers, multipart dumps and echo over two ordered streams.
Replies are taken by type. What a returned `Ok` means therefore depends on the whole history of the connection, and the
condition is proved to be exact (`Barriers`). `Dumps` says what a dump returns and how echo requests are answered,
`Versions` which version is spoken and what calls send.

**Together.** `Deployment` installs the NAT templates over a connection and reads flows back: an `Ok` from `install` on
a clean connection means that a switch which reads the flows sent as they were meant treats every packet by the policy.

**Neighbor discovery.** `Checksum` is the ICMPv6 checksum, `Ndp` the headers, the option loop and the reply.

Objects the source updates in place are classes whose methods are specified by functions on values; loops of the source
are loops with invariants; the laws are lemmas about those functions.

## Where code and documentation differ

The model follows the code.

- `get_uuid` is documented to find the row an insert created (`rovs-ovsdb/src/transaction.rs:323-336`). Names count
  inserts but results are stored by operation, so it does only when nothing but inserts precedes
  (`Transactions.UuidByNameIff`, `Transactions.SecondBridgeMisread`).
- `send_flow_sync` is documented to ensure the flow is installed or rejected before it returns
  (`rovs-openflow/src/vconn.rs:120-126`). A call that returns an error leaves a barrier reply unread
  (`Barriers.SyncBalance`), which the next call takes for its own (`Barriers.RejectedFlowConfirmed`,
  `Barriers.SyncSoundIffNoneOutstanding`).
- The templates take any base table (`rovs-ext/src/flows/nat.rs:224-228`). At 253 the output table is 255, which the
  encoder writes for "no recirculation" (`rovs-openflow/src/action/nicira.rs:232`), so new connections are lost
  (`Nat.SnatLostAtLastBase`, `Nat.DnatLostAtLastBase`).
- A ct action with a translation is decoded without it, a move and a register load as a drop
  (`rovs-openflow/src/action/nicira.rs:657-711`, `Nicira.ReadBack`, `Nicira.RoundTripIff`).
- A one-bit field match is a legal learn spec, and its header is the end mark of the specs
  (`rovs-openflow/src/action/nicira.rs:764-780`, `Learn.LearnInvertedIff`).
- `Match::decode` returns errors for malformed headers but stops the program on a length field below four
  (`rovs-openflow/src/match_fields.rs:707`, `OxmDecode.DecodePanicsIff`); flow statistics entries whose match is too
  short, or longer than they are, do the same (`Containers.EntryPanicsIff`, `Containers.ShortEntryStops`).
- Monitor versions 2 and 3 can be configured (`rovs-ovsdb/src/client.rs:11-20`), and the replica reads none of their row
  updates (`Replica.SecondFormIgnored`).
- `Row::modified` is documented as a local modification (`rovs-ovsdb/src/row.rs:16-17`); updates from the server set it
  too, and the replica model keeps that.
- The comments of the gateway flows speak of established and related connections (`rovs-ext/src/flows/nat.rs:276-313`);
  the flows match the established flag only, so related connections are lost (`Nat.RelatedOnlyDropped`).
- `FullNat` is announced (`rovs-ext/src/flows/nat.rs:6`) but does not exist.

## Model

| member | source | states |
|---|---|---|
| `Framing.FirstEndLeast` | rovs-jsonrpc/src/connection.rs:141-178 | the end found is the least prefix length on which the scanner has completed, in both directions |
| `Framing.FirstEndConcat` | rovs-jsonrpc/src/connection.rs:135-191 | what a restarted scan of a longer buffer finds is determined by the scan of the shorter one and the new bytes |
| `Framing.FirstFrameMonotone` | rovs-jsonrpc/src/connection.rs:135-191 | a frame once complete in the buffer stays the first frame however many bytes are appended |
| `Framing.FramingExact` | rovs-jsonrpc/src/connection.rs:126-192 | for every JSON object tree in RFC 8259 syntax, with any strings and escapes, after bytes without an opening brace and before any suffix, the frame is exactly the bytes of the object |
| `Framing.DepthStaysPositive` | rovs-jsonrpc/src/connection.rs:141-178 | no proper prefix of such an object that has started brings the depth back to zero, whatever braces, quotes or backslashes its strings hold |
| `Receive.Take` | rovs-jsonrpc/src/connection.rs:126-192 | one receive consumes bytes exactly when it delivers a message; on an error the stream is unchanged |
| `Receive.RecvLoopIsTake` | rovs-jsonrpc/src/connection.rs:126-192 | reading chunk by chunk and rescanning the buffer computes a function of the concatenated byte stream alone |
| `Receive.ChunkIndependence` | rovs-jsonrpc/src/connection.rs:135-191 | any two splits of a byte stream into reads yield the same messages, errors and leftover bytes |
| `Receive.RejectedFrameStays` | rovs-jsonrpc/src/connection.rs:155-171 | a complete frame the JSON parser rejects is never consumed: every later receive fails on it again |
| `Receive.ObjectStreamDelivered` | rovs-jsonrpc/src/connection.rs:126-192 | a stream of rendered objects with brace-free gaps is delivered as exactly their messages, in order |
| `JsonRpc.AwaitKeepsOrder` | rovs-jsonrpc/src/connection.rs:92-114 | waiting for a response splits the wire: queue, then skipped notifications, then the rest are the original sequence without the responses |
| `JsonRpc.AwaitFindsFirstResponse` | rovs-jsonrpc/src/connection.rs:92-114 | the first response on the wire decides the outcome: returned when its id is the expected one, an error otherwise; everything before it is queued |
| `Session.ReplyOf` | rovs-jsonrpc/src/connection.rs:61-114 | what a request returns, for every first response on the wire: an error when its id is another, its error when it carries one, else its result, or null without one; the wire after it is left |
| `Session.NoReply` | rovs-jsonrpc/src/connection.rs:92-114 | without a response it returns the error that ends the stream |
| `JsonRpc.Connection.constructor` | rovs-jsonrpc/src/connection.rs:39-47 | a new connection has an empty buffer, an empty queue and its first request id |
| `JsonRpc.Connection.SendMessage` | rovs-jsonrpc/src/connection.rs:82-89 | one message is appended to what has been written, and nothing else changes |
| `JsonRpc.Connection.Notify` | rovs-jsonrpc/src/connection.rs:76-79 | a notification is a request without an id |
| `JsonRpc.Connection.Scan` | rovs-jsonrpc/src/connection.rs:136-176 | the scanner loop over the buffer finds its first frame, or that there is none |
| `JsonRpc.Connection.RecvMessage` | rovs-jsonrpc/src/connection.rs:126-192 | the scanner loops over buffer and reads return what the first frame of the remaining stream parses to, and leave exactly the rest of the stream |
| `JsonRpc.Connection.RecvResponse` | rovs-jsonrpc/src/connection.rs:92-114 | the receive loop queues every notification before the first response, in arrival order |
| `JsonRpc.Connection.Transact` | rovs-jsonrpc/src/connection.rs:61-73 | a request with the next id (wrapping modulo 2^64) is written and its response awaited; queue and wire change only as awaiting a response says |
| `JsonRpc.Connection.PopNotification` | rovs-jsonrpc/src/connection.rs:209-211 | the oldest queued notification is removed and returned |
| `Replica.ApplyRowAt` | rovs-ovsdb/src/idl.rs:120-142 | a row update changes exactly one row of one table, to what merging or removing prescribes |
| `Replica.TouchedRow` | rovs-ovsdb/src/idl.rs:99-142 | after an update is applied in any visiting order, a mentioned row holds the effect of its own entry, once |
| `Replica.UntouchedRow` | rovs-ovsdb/src/idl.rs:99-142 | a row no entry mentions keeps its contents through the whole update |
| `Replica.VisitOrderIrrelevant` | rovs-ovsdb/src/idl.rs:99-118 | two visiting orders of the tables and rows of one update give equal tables, when the update spells each uuid in one way |
| `Replica.RowUpdateAgrees` | rovs-ovsdb/src/idl.rs:120-142 | an insert, delete or modify entry of RFC 7047 section 4.1.6 takes the view of the row before to the view of the row after |
| `Replica.AgreementStep` | rovs-ovsdb/src/idl.rs:99-142 | if every table agrees with the server before a change, it agrees after applying the update that describes the change |
| `Replica.ReplicaAgreement` | rovs-ovsdb/src/idl.rs:89-142 | by induction over a whole server history, after k updates every monitored table equals the server table at step k |
| `Replica.SecondFormIgnored` | rovs-ovsdb/src/idl.rs:120-142 | the row updates of monitor versions 2 and 3 are never read: under them no update, the initial contents included, changes a row |
| `Idl.Row.Set` | rovs-ovsdb/src/row.rs:50-53 | one column is written and the row marked modified |
| `Idl.Row.Update` | rovs-ovsdb/src/row.rs:56-61 | all given columns are merged over the old ones, others kept, in whatever order the map is visited |
| `Idl.Idl.constructor` | rovs-ovsdb/src/idl.rs:45-52 | the replica starts empty, without a schema, at sequence number zero |
| `Idl.Idl.SetSchema` | rovs-ovsdb/src/idl.rs:89-96 | every table of the schema becomes an empty table; other tables are kept |
| `Idl.Idl.SetMonitoring` | rovs-ovsdb/src/idl.rs:145-147 | only the state changes |
| `Idl.Idl.ProcessRowUpdate` | rovs-ovsdb/src/idl.rs:120-142 | in-place row objects change exactly as the row update on values prescribes; rows stay unshared and keyed by their own uuid |
| `Idl.Idl.ProcessTableUpdate` | rovs-ovsdb/src/idl.rs:109-117 | the loop over the rows of a table applies each entry whose key parses as a uuid, once |
| `Idl.Idl.ProcessUpdate` | rovs-ovsdb/src/idl.rs:99-106 | the loop over tables applies an update in some visiting order, and the sequence number grows by one |
| `Idl.EntriesAreVisits` | rovs-ovsdb/src/idl.rs:99-117 | looping over tables and then rows is one visiting order of the whole update |
| `Session.NextKeepsLine` | rovs-ovsdb/src/client.rs:283-384 | taking the next message moves at most one notification from queue or wire to handled, and keeps their concatenation |
| `Session.LineConserved` | rovs-ovsdb/src/client.rs:283-384 | over every interleaving of calls, notifications handled, queued and still on the wire concatenate to the same sequence |
| `Session.UpdatesConserved` | rovs-ovsdb/src/client.rs:283-384 | over every interleaving of transact, run and wait, updates applied, then queued, then on the wire equal the updates sent: none lost, duplicated or reordered |
| `Session.UpdateOfIff` | rovs-ovsdb/src/client.rs:363-384 | which notifications are updates, exactly: those of the three methods, and the update is their second parameter, whatever the first is |
| `Session.UpdateOfNotification` | rovs-ovsdb/src/client.rs:363-370 | so the notification of RFC 7047 section 4.1.6, a monitor id and table updates, carries its table updates |
| `Session.ThroughUpdateStops` | rovs-ovsdb/src/client.rs:319-360 | what `wait` takes is a prefix of what is there, with exactly one update at its end, or everything when there is none |
| `Session.WaitTakesThroughUpdate` | rovs-ovsdb/src/client.rs:319-360 | `wait` handles exactly the notifications up to and including the first update, all of them when there is none |
| `Session.WaitAnswersEchoes` | rovs-ovsdb/src/client.rs:319-400 | `wait` answers each echo request it takes once, in order: a response without an error, with the parameters and the id of the request |
| `Session.ReplicaFollowsServer` | rovs-ovsdb/src/client.rs:178-384 | from any session in which the updates still to come are those of the server, after any calls, the tables replayed from the updates handled equal the server state at that many changes, and the rest is still to come in order |
| `Session.ScriptDelivered` | rovs-ovsdb/src/client.rs:146-248 | from bytes in any chunking: the schema and the monitor request get the replies meant for them, and notifications around them are queued in order or still to come |
| `Session.ReplicaFromBytes` | rovs-ovsdb/src/client.rs:146-384 | the same from the first byte, both replies included: the server sends, among notifications of other methods, an `update` notification of section 4.1.6 for each change; whatever the chunking and the interleaving of calls, the first of them have been handled, the others are still to come, and the replayed tables equal the server state after the changes handled |
| `Client.Client.ReplicaAgrees` | rovs-ovsdb/src/client.rs:146-384 | for a client object as its methods leave it: its tables are the server state at the change its sequence number counts, the sequence number is one more than the updates it has handled, and the other changes are still to come, in order |
| `Client.Client.ReplicaAgreesFromBytes` | rovs-ovsdb/src/client.rs:89-384 | the same end to end: from the bytes of a server that sent both replies, an `update` notification with a monitor id and table updates for each change, and notifications of other methods, in any chunking, through connecting and any calls, to the tables of the client |
| `Client.Connect` | rovs-ovsdb/src/client.rs:89-112 | a connected client is what schema and monitor replies make of an empty one; the first error is returned |
| `Client.Client.Initialize` | rovs-ovsdb/src/client.rs:146-154 | schema first, then the monitor; what each leaves and returns is determined by the replies |
| `Client.Client.SeqnoCountsUpdates` | rovs-ovsdb/src/idl.rs:99-106 | the sequence number counts the monitor reply and every update handled |
| `Client.Client.constructor` | rovs-ovsdb/src/client.rs:89-112 | a new client has nothing queued, handled or applied |
| `Client.Client.FetchSchema` | rovs-ovsdb/src/client.rs:157-175 | the schema is what the decoder makes of the reply and resets the tables it names; an error, or a reply it cannot decode, is returned and leaves schema and tables as they were |
| `Client.Client.ProcessMonitorReply` | rovs-ovsdb/src/client.rs:251-268 | the initial contents are taken from the place the monitor version puts them and applied as one update |
| `Client.WhereContentsAre` | rovs-ovsdb/src/client.rs:251-268 | that place: the reply itself in versions 1 and 2, the third part of it in version 3 |
| `Client.OpeningWrites` | rovs-ovsdb/src/client.rs:157-241 | what connecting writes, literally: the schema request, then a monitor request for exactly the wanted tables of the schema, each with all its columns |
| `Client.Client.RequestMonitor` | rovs-ovsdb/src/client.rs:178-241 | the request asks for the schema's tables that are wanted, and the result is the reply to it; without a schema nothing is sent |
| `Client.Client.StartMonitor` | rovs-ovsdb/src/client.rs:178-248 | the first update applied is the contents of the server's reply, at the place of the monitor version; an error applies nothing; notifications that arrive meanwhile stay queued |
| `Client.Client.Run` | rovs-ovsdb/src/client.rs:283-300 | every queued notification is handled in order, the queue is empty afterwards, and the result says whether an update was among them |
| `Client.Client.ProcessNotification` | rovs-ovsdb/src/client.rs:363-384 | an update notification is applied, and the table updates of one in the form of section 4.1.6 are what the replica takes; any other leaves the tables alone |
| `Client.Client.SendEchoReply` | rovs-ovsdb/src/client.rs:387-400 | the reply carries the parameters and the id of the request |
| `Client.Client.WaitOnQueue` | rovs-ovsdb/src/client.rs:321-334 | queued notifications are handled first, up to the first update |
| `Client.Client.WaitOnWire` | rovs-ovsdb/src/client.rs:336-359 | then messages are received until an update, or the end of the stream |
| `Client.Client.Wait` | rovs-ovsdb/src/client.rs:319-360 | `wait` succeeds exactly when an update is queued or still to come |
| `Client.Client.Commit` | rovs-ovsdb/src/client.rs:422-433 | an empty transaction sends nothing and is a success; otherwise its operations go out in one request and the result is stored in it; an error of the server is returned and leaves it as it was |
| `Client.CommitWrites` | rovs-ovsdb/src/client.rs:422-433 | that request, literally: `transact`, the database name, and one object for each operation, in order |
| `Transactions.RowNameInjective` | rovs-ovsdb/src/transaction.rs:103-107 | the names of different inserts differ |
| `Transactions.RowNameReads` | rovs-ovsdb/src/transaction.rs:103-107 | a name is the word `row` and the decimal number of the insert, without leading zeros |
| `Transactions.NamesDistinct` | rovs-ovsdb/src/transaction.rs:103-135 | the uuid-names of one transaction are pairwise distinct |
| `Transactions.Transaction.constructor` | rovs-ovsdb/src/transaction.rs:82-90 | a new transaction has no operations, no uuids and counter zero |
| `Transactions.Transaction.NextTempUuid` | rovs-ovsdb/src/transaction.rs:103-107 | names count up from the counter |
| `Transactions.Transaction.Insert` | rovs-ovsdb/src/transaction.rs:124-135 | one insert is appended under the name of the insert count, and that name is the returned reference |
| `Transactions.Transaction.Mutate` | rovs-ovsdb/src/transaction.rs:180-187 | one mutation of the row with the uuid is appended |
| `Transactions.Transaction.MutateByName` | rovs-ovsdb/src/transaction.rs:193-200 | one mutation of the rows with the name is appended |
| `Transactions.Transaction.MutateWhere` | rovs-ovsdb/src/transaction.rs:215-222 | one mutation of the rows under a condition is appended |
| `Transactions.Transaction.UpdateByName` | rovs-ovsdb/src/transaction.rs:903-910 | one update of the rows with the name is appended |
| `Transactions.Transaction.Delete` | rovs-ovsdb/src/transaction.rs:231-237 | one deletion of the row with the uuid is appended |
| `Transactions.Transaction.CreateBridge` | rovs-ovsdb/src/transaction.rs:424-462 | interface, port and bridge are inserted, each referring to the one before, and the bridge is added to the root row |
| `Transactions.Transaction.AddPort` | rovs-ovsdb/src/transaction.rs:528-560 | interface and port are inserted and the port is added to the named bridge |
| `Transactions.Transaction.AddVlanPort` | rovs-ovsdb/src/transaction.rs:593-627 | the same with an internal interface and a VLAN tag; what it has written is stated in `Standing.VlanPortStands` |
| `Transactions.Transaction.AddPatchPorts` | rovs-ovsdb/src/transaction.rs:644-714 | two ports, each on its own bridge, whose interfaces name each other as peers, under given or default names; the four references returned name the four rows |
| `Transactions.Transaction.AddTrunkPatchPorts` | rovs-ovsdb/src/transaction.rs:733-816 | the same with trunk ports limited to the given VLANs |
| `Transactions.Transaction.SetController` | rovs-ovsdb/src/transaction.rs:879-898 | a controller row is inserted and replaces the controllers of the named bridge |
| `Transactions.Transaction.DeleteBridgeUuid` | rovs-ovsdb/src/transaction.rs:469-498 | the bridge leaves the root row, then interfaces, ports and bridge are deleted |
| `Transactions.Transaction.DeletePortUuid` | rovs-ovsdb/src/transaction.rs:828-845 | the port leaves its bridge, then interface and port are deleted |
| `Transactions.Transaction.ProcessResult` | rovs-ovsdb/src/transaction.rs:346-382 | success exactly when the result is an array without an error; uuids of operations before the first error are stored under their position |
| `Transactions.UuidByNameIff` | rovs-ovsdb/src/transaction.rs:103-135 | after a successful result with distinct uuids, the name an insert returned leads to the row it inserted if and only if nothing but inserts precedes it |
| `Transactions.UuidByNameOfReply` | rovs-ovsdb/src/transaction.rs:346-372 | the same for results as the server writes them: an object with the uuid as a tagged text for each insert, objects without uuid and error for other operations |
| `Transactions.ErrorFails` | rovs-ovsdb/src/transaction.rs:346-357 | the first result with an error that is not null decides where reading stops |
| `Transactions.SecondBridgeMisread` | rovs-ovsdb/src/transaction.rs:323-382 | the documented lookup fails for a second bridge in one transaction: one name is missing and the next leads to the wrong row |
| `Topology.PieceRuns` | rovs-ovsdb/src/transaction.rs:103-135 | executing the operations of one topology step succeeds: every named reference is to an earlier insert of the transaction |
| `Topology.ExtendsInvIff` | rovs-ovsdb/src/transaction.rs:424-462 | a change that adds rows keeps integrity exactly when each new bridge, port and interface is the target of one new reference |
| `Topology.PieceExtends` | rovs-ovsdb/src/transaction.rs:424-627 | which references the database holds after a topology step, exactly: the old ones and those the step is for |
| `Topology.PieceKeepsInvIff` | rovs-ovsdb/src/transaction.rs:424-560 | creating a bridge, setting a controller or the fail mode always keeps integrity; adding a port does if and only if exactly one bridge has the name |
| `Topology.RunKeepsIntegrity` | rovs-ovsdb/src/transaction.rs:424-816 | for any list of topology steps that respects bridge names, the transaction executes and leaves every reference resolved and every interface, port and bridge referenced exactly once |
| `Topology.PortsOfRun` | rovs-ovsdb/src/transaction.rs:528-627 | every port and interface row of a run stands in the final database as it was asked for |
| `Topology.PatchPeers` | rovs-ovsdb/src/transaction.rs:644-714 | the two ends of a patch name each other as peers in the final database |
| `Standing.BridgesOfRun` | rovs-ovsdb/src/transaction.rs:424-462 | in the final database a created bridge is the only one of its name, the root row knows it, and it has one port with one internal interface, all of its name |
| `Standing.AttachedOfRun` | rovs-ovsdb/src/transaction.rs:528-816 | in the final database a new port is listed by the bridge it was made for, and by nothing else |
| `Standing.PlainPortStands` | rovs-ovsdb/src/transaction.rs:528-560 | what `add_port` has written, at the end of any legal list of steps: a port and one interface of the given name and type, no VLAN settings, on the named bridge |
| `Standing.VlanPortStands` | rovs-ovsdb/src/transaction.rs:593-627 | what `add_vlan_port` and access ports have written: the same with the given VLAN as the one tag |
| `Standing.PatchPortStands` | rovs-ovsdb/src/transaction.rs:644-714 | what one end of a patch has written: a port on its own bridge whose interface is of type patch and names its peer |
| `Standing.TrunkPatchPortStands` | rovs-ovsdb/src/transaction.rs:733-816 | the same for a trunk patch: mode trunk, and as trunks exactly the set of the given VLANs |
| `Standing.FailModesOfRun` | rovs-ovsdb/src/transaction.rs:903-910 | the fail mode of a bridge at the end of a run is the last one set since the bridge was created, and no other step changes it |
| `Standing.ControllerStands` | rovs-ovsdb/src/transaction.rs:879-898 | after setting a controller the named bridges have exactly the new row, which has the target, and every other cell is as it was |
| `Removal.DeleteBridgeRuns` | rovs-ovsdb/src/transaction.rs:469-498 | what executing the deletion of a bridge leaves |
| `Removal.DeleteBridgeKeepsInvIff` | rovs-ovsdb/src/transaction.rs:464-498 | deleting a bridge keeps integrity if and only if the lists name exactly the rows it owns |
| `Removal.DeletePortRuns` | rovs-ovsdb/src/transaction.rs:828-845 | what executing the deletion of a port leaves |
| `Removal.DeletePortKeepsInvIff` | rovs-ovsdb/src/transaction.rs:817-845 | deleting a port keeps integrity if and only if the uuids name a port of that bridge and its one interface |
| `Builders.BuildPair` | rovs-ext/src/topology/bridge_pair.rs:112-152 | the builder method produces exactly the steps: two bridges, the two patch ends, and the fail modes when asked |
| `Builders.PairKeepsIntegrity` | rovs-ext/src/topology/bridge_pair.rs:112-152 | for two distinct new names, executing a bridge pair keeps integrity, makes both names unique and joins the bridges by mutually naming patch ports |
| `Builders.PairStands` | rovs-ext/src/topology/bridge_pair.rs:112-152 | the pair in the final database: both bridges, each with its own end of the patch under the given or the default name, limited to the given VLANs if there are any, and fail mode secure exactly when asked |
| `Builders.AddAccessPort` | rovs-ext/src/topology/vlan_trunk.rs:225-251 | an access port step with the tag |
| `Builders.AddTrunkPort` | rovs-ext/src/topology/vlan_trunk.rs:254-295 | a trunk port step, without a VLAN list when none is given |
| `Builders.BuildVlanTrunk` | rovs-ext/src/topology/vlan_trunk.rs:194-222 | the loops over access and trunk ports produce exactly the steps of the configuration, in order |
| `Builders.VlanTrunkKeepsIntegrity` | rovs-ext/src/topology/vlan_trunk.rs:194-295 | executing a VLAN trunk keeps integrity on a new bridge, or on an existing one whose name is unique |
| `Builders.AccessPortsStand` | rovs-ext/src/topology/vlan_trunk.rs:225-251 | every access port of the configuration is in the final database, on the bridge, with its name, its interface type and its VLAN as tag |
| `Builders.TrunkPortsStand` | rovs-ext/src/topology/vlan_trunk.rs:254-295 | every trunk port too, in mode trunk, with exactly its VLANs, or no list when none are given |
| `Builders.TrunkBridgeStands` | rovs-ext/src/topology/vlan_trunk.rs:181-222 | the bridge: created when asked, fail mode secure when asked and otherwise as before, and no rows but its own and two for each port |
| `FlowTable.LastInstalled` | rovs-ext/src/flows/nat.rs:380-390 | of flows with identical match and priority the last installed one stands |
| `FlowTable.LookupWinner` | rovs-ext/src/flows/nat.rs:380-390 | a flow that beats all other matching flows of its table, or replaces them, is what the switch finds, and it has no choice |
| `Nat.SnatAllFlows` | rovs-ext/src/flows/nat.rs:224-377 | the generated flows, installed over any tables that leave three free, treat every packet by the gateway policy if and only if the base table is at most 252, or there is nothing to forward; at 253 they do up to new connections, which go nowhere |
| `Nat.SnatUnambiguous` | rovs-ext/src/flows/nat.rs:224-377 | no lookup in the pipeline is ambiguous |
| `Nat.SnatApproaches` | rovs-ext/src/flows/nat.rs:224-377 | the three-table program does what a one-step policy says for every packet and every connection state, up to new connections at base table 253 |
| `Nat.SnatRefinement` | rovs-ext/src/flows/nat.rs:224-377 | it refines the policy exactly up to base table 252, unless no family is configured or both ports are the same |
| `Nat.SnatLostAtLastBase` | rovs-ext/src/flows/nat.rs:224-377 | a packet that shows it: at base table 253 a new connection from inside is committed and sent nowhere, where the policy forwards it |
| `Nat.SnatSafety` | rovs-ext/src/flows/nat.rs:224-377 | over any packet sequence with an honest tracker, at every base table up to 253, what reaches the internal port from outside, other than ARP, is established in the zone of the gateway and not invalid, and an earlier internal packet had its connection committed in that zone |
| `Nat.SnatForwardsOutbound` | rovs-ext/src/flows/nat.rs:297-374 | which internal packets leave on the external port, exactly, and which are committed; the pipeline ends |
| `Nat.SnatDeliversInbound` | rovs-ext/src/flows/nat.rs:276-374 | the way back, exactly: what enters outside and reaches the inside is what the tracker calls established in the zone the gateway commits to |
| `Nat.SnatMasquerades` | rovs-ext/src/flows/nat.rs:183-374 | a new connection from inside is committed once, in the configured zone, under a translation that can choose exactly the configured addresses of its family and the configured ports |
| `Nat.FlowForRule` | rovs-ext/src/flows/nat.rs:686-735 | the flow of a rule matches exactly the tracked new packets from outside that the rule is about, and its translation can choose exactly the target of the rule |
| `Nat.DnatAllFlows` | rovs-ext/src/flows/nat.rs:607-750 | for any rule list, the generated flows treat every packet by the forwarding policy if and only if the base table is at most 252, or there is nothing to forward |
| `Nat.SameMatch` | rovs-ext/src/flows/nat.rs:686-722 | two rules for the same packet give the same match, so equal priorities never compete |
| `Nat.DnatUnambiguous` | rovs-ext/src/flows/nat.rs:607-750 | no lookup in the pipeline is ambiguous, whatever the rules |
| `Nat.DnatApproaches` | rovs-ext/src/flows/nat.rs:607-750 | the three-table program does what a one-step policy says for every packet, connection state and rule list, up to new connections at base table 253 |
| `Nat.DnatRefinement` | rovs-ext/src/flows/nat.rs:607-750 | it refines the policy, by which the last rule for family, protocol and port decides, exactly up to base table 252, unless there are no rules or both ports are the same |
| `Nat.DnatLostAtLastBase` | rovs-ext/src/flows/nat.rs:607-750 | a packet that shows it: at base table 253 a new connection to which a rule applies is committed and sent nowhere |
| `Nat.DnatSafety` | rovs-ext/src/flows/nat.rs:607-750 | what reaches the inside from outside belongs to a connection translated by the last applicable rule, now or earlier |
| `Nat.DnatReachesTarget` | rovs-ext/src/flows/nat.rs:607-750 | a new connection from outside is committed once, in the configured zone, under a translation that can choose the target of the last rule that applies and nothing else |
| `Nat.DnatForwards` | rovs-ext/src/flows/nat.rs:607-750 | both ways through port forwarding, exactly, with every lookup in the tracker in the zone of the service |
| `Nat.RelatedOnlyDropped` | rovs-ext/src/flows/nat.rs:276-313 | a packet the tracker calls neither new nor established is dropped by both templates, so one that is only related is lost |
| `Nat.LastRuleOverrides` | rovs-ext/src/flows/nat.rs:686-735 | later rules override earlier ones and leave all other packets alone |
| `Oxm.FieldsReadBack` | rovs-openflow/src/match_fields.rs:643-683 | a list of encoded fields is read back, whatever incomplete field follows |
| `Oxm.FieldsExact` | rovs-openflow/src/match_fields.rs:643-683 | every byte string is its fields, encoded, and an incomplete rest |
| `Oxm.HeaderNumber` | rovs-openflow/src/oxm.rs:267-277 | taking the header apart by shifts inverts putting it together byte by byte |
| `MatchWire.HeaderOnWire` | rovs-openflow/src/oxm.rs:267-277 | the four header bytes are class, field number, mask flag and length as one number |
| `Oxm.PrefixRoundTrip` | rovs-openflow/src/oxm.rs:725-762 | a prefix length survives conversion to a mask and back, for any width |
| `Oxm.MaskToPrefixDrops` | rovs-openflow/src/match_fields.rs:1512-1519 | converting a mask to a prefix loses exactly the masks that are not of a prefix |
| `OxmDecode.DecodeOxm` | rovs-openflow/src/match_fields.rs:643-683 | the first copy of the loop is the fold of the per-field update over the fields there are |
| `OxmDecode.DecodeBetween` | rovs-openflow/src/match_fields.rs:707-751 | the second copy of the loop is the same fold |
| `OxmDecode.Decode` | rovs-openflow/src/match_fields.rs:690-751 | header checks in order, then the fold over the bytes between header and padding |
| `OxmDecode.DecodePanicsIff` | rovs-openflow/src/match_fields.rs:690-707 | the inputs that stop the program, exactly: an OXM match with a length field below four |
| `OxmDecode.DecodeOkIff` | rovs-openflow/src/match_fields.rs:690-751 | the inputs that decode, exactly, and that the bytes taken are the length field rounded up to eight |
| `OxmDecode.OrderIrrelevant` | rovs-openflow/src/match_fields.rs:643-683 | fields whose updates commute pairwise can be decoded in any order |
| `MatchCodec.DecodeOxm` | rovs-openflow/src/match_fields.rs:643-683 | decoding raw fields folds the update of each field over the empty match |
| `MatchCodec.Decode` | rovs-openflow/src/match_fields.rs:690-751 | decoding a match, as the header says, over the same fold |
| `MatchCodec.UnknownFieldsIgnored` | rovs-openflow/src/match_fields.rs:671-678 | unknown classes and fields, and fields too short for their type, have no effect wherever they stand |
| `MatchCodec.DistinctSlotsCommute` | rovs-openflow/src/match_fields.rs:755-1127 | fields that write different parts of the match can stand in any order: all permutations decode to the same match |
| `MatchCodec.LayoutInverse` | rovs-openflow/src/match_fields.rs:755-1127 | for every field the decoder looks where the encoder writes, with the same width |
| `MatchWire.ReadsPublished` | rovs-openflow/src/match_fields.rs:755-1127 | the decoder reads exactly the fields of the published tables, by class, number and width, each into its own part of the match |
| `MatchWire.SendsPublished` | rovs-openflow/src/match_fields.rs:1141-1476 | the encoder sends every field under its published number and width |
| `MatchWire.DecodesNumber` | rovs-openflow/src/match_fields.rs:755-1127 | the value decoded is the number on the wire, but for a VLAN id its low twelve bits and for the Nicira type of service its upper six |
| `MatchWire.FieldSent` | rovs-openflow/src/match_fields.rs:1141-1476 | every field with a value stands in the encoded bytes, at a known offset: published header, the value, a VLAN id with bit 12 set, and the mask by its kind, a prefix as ones followed by zeros |
| `MatchWire.VlanOnWire` | rovs-openflow/src/match_fields.rs:1222-1229 | the VLAN field of every encoded match holds the id plus 0x1000 for ids of twelve bits, and for any id has bit 12 set and every other bit as given |
| `MatchWire.PrerequisitesFirst` | rovs-openflow/src/match_fields.rs:1138-1476 | whatever fields a match has, a field that another needs is encoded before it |
| `MatchCodec.EncodeFields` | rovs-openflow/src/match_fields.rs:1141-1476 | the fields with a value are encoded in the fixed order, masked as their kind of mask prescribes |
| `MatchCodec.Encode` | rovs-openflow/src/match_fields.rs:1141-1493 | header, fields and padding; the length is a multiple of eight and the 16-bit length field never truncates |
| `MatchCodec.EncodeOxmFields` | rovs-openflow/src/match_fields.rs:1499-1508 | cutting header and padding off the full encoding gives the fields |
| `MatchCodec.MatchRoundTrip` | rovs-openflow/src/match_fields.rs:690-1493 | decoding an encoded match, with anything after it, gives its normal form and takes exactly its bytes |
| `MatchCodec.NormIdempotent` | rovs-openflow/src/match_fields.rs:690-1493 | the normal form is itself normal and of the same types |
| `MatchCodec.EncodingIdentifiesNorms` | rovs-openflow/src/match_fields.rs:1141-1493 | two matches encode to the same bytes exactly when they have the same normal form, and the normal form encodes to them too |
| `MatchCodec.NormEncodesSameIff` | rovs-openflow/src/match_fields.rs:1222-1229 | a match and its normal form encode alike if and only if its VLAN id is below 8192 |
| `Containers.ParseFlowStatsReply` | rovs-openflow/src/multipart.rs:386-414 | the loop over entries ends for every body and returns all entries, the first failure, or stops where a slice would |
| `Containers.EntryPanicsIff` | rovs-openflow/src/multipart.rs:320-373 | the entries that stop the program instead of being parsed or refused, exactly: the match follows the fixed part and its length is below four, or reaches with its padding past the end of the entry |
| `Containers.ReplyPanicsIff` | rovs-openflow/src/multipart.rs:386-414 | the reply bodies that stop the program, exactly: flow statistics in which such an entry follows whole ones |
| `Containers.ShortEntryStops` | rovs-openflow/src/multipart.rs:320-373 | one such entry: a length of 48, which covers the fixed part only, before an empty match |
| `Containers.EntryRoundTrip` | rovs-openflow/src/multipart.rs:320-373 | an entry in the published layout decodes to itself, its match in normal form, its instruction bytes exact |
| `Containers.ReplyRoundTrip` | rovs-openflow/src/multipart.rs:386-414 | a reply of any list of entries parses to the list in order, with the MORE flag |
| `Containers.ParsePacketIn` | rovs-openflow/src/packet_in.rs:69-130 | consuming the buffer step by step reads what stands at the absolute positions of the layout, with the same errors |
| `Containers.PacketInRoundTrip` | rovs-openflow/src/packet_in.rs:69-130 | match and payload are recovered past both paddings, whatever the length of the match |
| `Learn.EncodeLearnSpecs` | rovs-openflow/src/action/nicira.rs:500-579 | each spec is a header, its value or source, and its destination, for every bit count; a program that checks for overflow stops exactly when one of them is zero |
| `Learn.Cursor.Take` | rovs-openflow/src/action/nicira.rs:604-611 | the next bytes, or an error that leaves the cursor where it was |
| `Learn.Cursor.Rest` | rovs-openflow/src/action/nicira.rs:614-618 | everything left |
| `Learn.Cursor.ReadSubfield` | rovs-openflow/src/action/nicira.rs:643-648 | a field header, its bit offset skipped |
| `Learn.DecodeLearnSpecs` | rovs-openflow/src/action/nicira.rs:770-837 | specs are read until a zero header or the end; a truncated or unknown one is an error |
| `Learn.DecodeLearn` | rovs-openflow/src/action/nicira.rs:734-762 | fixed fields in order, the last one optional, then the specs |
| `Learn.SpecsRoundTrip` | rovs-openflow/src/action/nicira.rs:500-837 | specs with any padding decode to the normal forms of those before the first one-bit field match, whose header is the end mark |
| `Learn.SurvivorsAll` | rovs-openflow/src/action/nicira.rs:500-837 | nothing is lost exactly when there is no such spec |
| `Learn.LearnReadBack` | rovs-openflow/src/action/nicira.rs:437-837 | decoding an encoded learn action gives it back up to that |
| `Learn.LearnInvertedIff` | rovs-openflow/src/action/nicira.rs:437-837 | decoding inverts encoding, up to the padding of values, if and only if every bit count is 1 to 2048 and no spec is a one-bit field match |
| `Learn.LearnExactIff` | rovs-openflow/src/action/nicira.rs:437-837 | and exactly if and only if, besides, every immediate value fills its words |
| `Learn.NormalIffFull` | rovs-openflow/src/action/nicira.rs:518-532 | a value is sent as it is if and only if it fills its words |
| `Nicira.EncodeNxResubmit` | rovs-openflow/src/action/nicira.rs:215-222 | the extended form, with the numbers for "own port" and "current table" where none is given |
| `Nicira.EncodeNxCt` | rovs-openflow/src/action/nicira.rs:225-236 | flags, zone, recirculation table, or 255 for none |
| `Nicira.EncodeNxNat` | rovs-openflow/src/action/nicira.rs:285-343 | the optional address and port fields in order, the range bits that announce them, and padding |
| `Nicira.EncodeNxCtNat` | rovs-openflow/src/action/nicira.rs:240-279 | the same fields as a ct, then the nested translation, under one padded length |
| `NiciraWire.NatReadBack` | rovs-openflow/src/action/nicira.rs:285-343 | a switch that reads flags, then the range bits, then each announced field from bit 0, the least IPv4 address, to bit 5, the greatest port, reads back exactly the translation encoded |
| `NiciraWire.CtNatReadBack` | rovs-openflow/src/action/nicira.rs:240-343 | lifted to the bytes of the whole ct: flags, zone, table and translation are read back at their places |
| `NiciraWire.CtReadBack` | rovs-openflow/src/action/nicira.rs:225-236 | the same without a translation |
| `NiciraWire.ResubmitOnWire` | rovs-openflow/src/action/nicira.rs:215-222 | a resubmit by position: subtype 14, port, table, and the numbers that stand for none |
| `NiciraWire.MoveOnWire` | rovs-openflow/src/action/nicira.rs:396-412 | a move by position: bit count, offsets, source, destination |
| `NiciraWire.TunnelOnWire` | rovs-openflow/src/action/nicira.rs:201-212 | a tunnel id by position: field 16 of Nicira class 1, eight bytes |
| `NiciraWire.RegLoadOnWire` | rovs-openflow/src/action/nicira.rs:371-390 | a register load by position; offset and bit count can be read back from their common number if and only if they are below 1024 and from 1 to 64 |
| `NiciraWire.LearnOnWire` | rovs-openflow/src/action/nicira.rs:437-485 | a learn action by position: timeouts, priority, cookie, flags, table, and the specs from byte 32 on |
| `NiciraWire.SpecHeader` | rovs-openflow/src/action/nicira.rs:500-579 | the number a spec starts with: the bit count less one, bit 13 for an immediate value, bit 11 for a load, bit 12 for an output |
| `NiciraWire.SpecBody` | rovs-openflow/src/action/nicira.rs:500-579 | what follows it: the fields, or the value aligned to the right after zeros and the field |
| `Nicira.EncodeNxRegLoad` | rovs-openflow/src/action/nicira.rs:371-390 | offset and bit count in one number; a program that checks for overflow stops exactly on a bit count of zero |
| `Nicira.EncodeNxLearn` | rovs-openflow/src/action/nicira.rs:437-485 | type, length, vendor, subtype, fixed fields, specs and padding in order |
| `Nicira.Encode` | rovs-openflow/src/action/mod.rs:954-992 | the encoding of each of these actions; a drop has none |
| `Nicira.DecodeCt` | rovs-openflow/src/action/nicira.rs:694-710 | flags, zone and an optional table; a nested action is not looked at |
| `Nicira.DecodeRegLoad2` | rovs-openflow/src/action/nicira.rs:713-729 | a tunnel id when the header says so; any other field is read as a drop |
| `Nicira.DecodeNiciraAction` | rovs-openflow/src/action/nicira.rs:653-666 | dispatch on the subtype; unknown ones are read as a drop |
| `Nicira.Decode` | rovs-openflow/src/action/mod.rs:1004-1088 | the length field, vendor and their errors, then the Nicira action in the bytes the length covers |
| `NiciraWire.AcceptedIsHeaded` | rovs-openflow/src/action/mod.rs:1004-1088 | what the decoder takes for an action lies within the input, has the length it says, and bears the vendor id of Nicira |
| `NiciraWire.RefusedBecause` | rovs-openflow/src/action/mod.rs:1004-1088 | what is wrong with the bytes for each error returned |
| `Nicira.ShortReadBack` | rovs-openflow/src/action/mod.rs:1004-1088 | an encoded action whose length fits sixteen bits is read from all of its bytes |
| `Nicira.LongReadBack` | rovs-openflow/src/action/mod.rs:1004-1088 | a longer one is refused, or read as shorter than it is |
| `Nicira.LengthField` | rovs-openflow/src/action/nicira.rs:186-485 | every encoded action is a multiple of eight bytes long, and its length field is right exactly when that fits sixteen bits |
| `Nicira.LearnRoundTrip` | rovs-openflow/src/action/nicira.rs:437-837 | after the vendor id, a learn action comes back with the specs before the first one-bit field match, values padded |
| `Nicira.ReadBack` | rovs-openflow/src/action/nicira.rs:186-435 | what each encoded action other than learn is read as: a ct loses its translation, a move or register load becomes a drop, numbers that stand for none become none |
| `Nicira.RoundTripIff` | rovs-openflow/src/action/nicira.rs:186-837 | decoding inverts encoding, action and length, for exactly the actions listed: no learn action too long, with a bit count out of range, a one-bit field match or a value that does not fill its words; no port 0xfff8 or table 255; no translation, move, register load or drop |
| `VConn.Connection.NextXid` | rovs-openflow/src/vconn.rs:66-70 | transaction ids count up and wrap at 2^32 |
| `VConn.Connection.Handshake` | rovs-openflow/src/vconn.rs:43-63 | a hello of version 1.3 is sent, one must be the first thing received, and the lower of the two versions is kept |
| `Versions.VersionAgreed` | rovs-openflow/src/vconn.rs:25-274 | over whole runs, whatever the calls return: every message sent after the greeting, echo replies included, bears the lower of 1.3 and the version of the switch's hello |
| `Versions.CallOpens` | rovs-openflow/src/vconn.rs:43-250 | what each call sends first, literally, under the next transaction ids, and that it uses up exactly as many |
| `Versions.HandshakeIff` | rovs-openflow/src/vconn.rs:43-63 | a handshake succeeds exactly when the first message received is a hello |
| `Versions.EchoIff` | rovs-openflow/src/vconn.rs:172-186 | an echo succeeds exactly when the next message is the reply to its own request |
| `VConn.Connection.SendFlow` | rovs-openflow/src/vconn.rs:114-118 | the flow is sent and nothing is read |
| `VConn.Connection.SendFlowSync` | rovs-openflow/src/vconn.rs:127-169 | flow and barrier are sent, then messages are read up to the first error or barrier reply, echo requests being answered |
| `VConn.Connection.Barrier` | rovs-openflow/src/vconn.rs:189-217 | the same for a barrier alone |
| `VConn.Connection.Echo` | rovs-openflow/src/vconn.rs:172-186 | the next message must be the reply with the same transaction id |
| `VConn.Connection.DumpFlowsFiltered` | rovs-openflow/src/vconn.rs:230-274 | reply parts are collected until one without MORE, echo requests answered, other messages skipped |
| `Barriers.SyncSound` | rovs-openflow/src/vconn.rs:127-169 | with no barrier reply outstanding, `Ok` means the flow was accepted and every earlier rejection had been reported before the call |
| `Barriers.StaleReply` | rovs-openflow/src/vconn.rs:101-169 | with one outstanding, some switch that honours barriers makes the call return `Ok` for a rejected flow |
| `Barriers.PromptReply` | rovs-openflow/src/vconn.rs:127-169 | the switch assumption is not empty: from every state it allows, a switch can answer at once, and `Ok` is returned for an accepted flow |
| `Barriers.BarrierBalance` | rovs-openflow/src/vconn.rs:189-217 | a call that returns an error leaves exactly one more barrier reply unread, and `Ok` leaves none more |
| `Barriers.SyncBalance` | rovs-openflow/src/vconn.rs:127-169 | the same for `send_flow_sync` |
| `Barriers.RejectedFlowConfirmed` | rovs-openflow/src/vconn.rs:127-169 | a run of a fresh connection to a switch that honours barriers: the first call returns an error, the second `Ok` for a flow that was rejected |
| `Barriers.SyncSoundIffNoneOutstanding` | rovs-openflow/src/vconn.rs:127-169 | `Ok` proves acceptance, for every switch, if and only if every barrier reply asked for has been read |
| `Barriers.RunKeepsClean` | rovs-openflow/src/vconn.rs:114-274 | a run of calls without an error return leaves no barrier reply unread |
| `Barriers.BarrierSoundness` | rovs-openflow/src/vconn.rs:114-217 | in any run from a fresh connection without an error return, when `send_flow_sync` or `barrier` returns, every flow sent so far was accepted |
| `Dumps.DumpReturnsAnswer` | rovs-openflow/src/vconn.rs:230-274 | when the answer arrives interleaved with echo requests and asynchronous messages, all its entries are returned in order, each echo request is answered once by an echo reply with its own transaction id and body, and later messages are left |
| `Dumps.BarrierAnswersEchoes` | rovs-openflow/src/vconn.rs:127-217 | a waiting barrier answers every echo request once, in order, with its own transaction id and body, ends with the first error or barrier reply, and leaves what follows |
| `Checksum.Icmpv6Checksum` | rovs-openflow/src/ndp.rs:291-322 | the loops compute the complement of the folded one's-complement sum for every message; where overflow is checked the program stops exactly when the 32-bit sum overflows, which needs more than 131036 bytes |
| `Checksum.WrappedChecksumIff` | rovs-openflow/src/ndp.rs:291-322 | where overflow is not checked, the checksum is right exactly when the sum has wrapped a multiple of 65535 times and something is left; below 2^32 bytes, exactly when it has not wrapped |
| `Checksum.FoldKeepsResidue` | rovs-openflow/src/ndp.rs:316-319 | folding terminates and keeps the value modulo 65535; only zero folds to zero |
| `Checksum.CoversPseudoHeader` | rovs-openflow/src/ndp.rs:291-312 | the sum folded stands for the words of the IPv6 pseudo-header, byte for byte, and the message |
| `Checksum.ChecksumVerifies` | rovs-openflow/src/ndp.rs:349-354 | inserting the checksum makes the recomputed one zero, and no other field value does except the second form of zero |
| `Checksum.WordChangeDetected` | rovs-openflow/src/ndp.rs:291-322 | changing one aligned word of a message that verifies is detected, unless it swaps the two zeros |
| `Ndp.EthernetRoundTrip` | rovs-openflow/src/ndp.rs:46-68 | an encoded frame header parses back |
| `Ndp.EthernetExact` | rovs-openflow/src/ndp.rs:46-68 | a parsed frame header encodes to the bytes it came from |
| `Ndp.EncodeIpv6` | rovs-openflow/src/ndp.rs:125-144 | the header bytes, appended |
| `Ndp.Ipv6RoundTrip` | rovs-openflow/src/ndp.rs:92-144 | an encoded IPv6 header parses back with the low twenty bits of the flow label |
| `Ndp.Ipv6Exact` | rovs-openflow/src/ndp.rs:92-144 | a parsed IPv6 header encodes to the bytes it came from |
| `Ndp.ParseSolicitation` | rovs-openflow/src/ndp.rs:159-202 | the options loop ends for every input, and finds the last source link-layer address of the options before the first that is empty or cut off |
| `Ndp.SolicitationParses` | rovs-openflow/src/ndp.rs:159-202 | for any list of options of positive length, and anything after it that is not one, target and last source link-layer address are returned |
| `Ndp.ParseNeighborSolicitation` | rovs-openflow/src/ndp.rs:387-404 | which packets are solicitations, exactly, and that the parts come from the right offsets |
| `Ndp.EncodeIcmpv6` | rovs-openflow/src/ndp.rs:252-285 | the advertisement with its flags, target and target link-layer address option |
| `Ndp.BuildNaReply` | rovs-openflow/src/ndp.rs:329-381 | the reply byte for byte: hardware addresses, IPv6 header with hop limit 255, flags 0x60 when the source is specified and 0x20 otherwise, target and option, and a checksum that verifies; and that its headers parse back |
| `Deployment.SyncInstalls` | rovs-openflow/src/vconn.rs:127-169 | a confirmed flow on a clean connection is the one flow added, nothing sent so far was rejected, and the connection stays clean |
| `Deployment.Install` | rovs-ext/src/flows/nat.rs:380-390 | the install loop: when it returns `Ok` on a clean connection, exactly these flows were added in order and all were accepted |
| `Deployment.InstallSnat` | rovs-ext/src/flows/nat.rs:380-390 | end to end: an installed gateway has every flow accepted, in order, and a switch that reads these flows as they were meant treats every packet by the gateway policy, up to new connections at base table 253 |
| `Deployment.InstallDnat` | rovs-ext/src/flows/nat.rs:753-762 | the same for an installed forwarding service |
| `Deployment.LossyEncoderReadBack` | rovs-openflow/src/action/mod.rs:954-992 | an encoder that sends the same bytes for a drop and for no action, as this one does, and still is read back right on the flows of any template |
| `Deployment.SnatIsTemplate` | rovs-ext/src/flows/nat.rs:224-377 | the gateway's flows are such up to base table 252 |
| `Deployment.DnatIsTemplate` | rovs-ext/src/flows/nat.rs:607-750 | and so are those of the forwarding service |
| `Deployment.EntriesOfAnswer` | rovs-openflow/src/multipart.rs:386-414 | reading the parts of an encoded answer gives its entries, concatenated |
| `Deployment.DumpReturnsFlows` | rovs-openflow/src/vconn.rs:230-274 | from bytes to entries: a dump returns all flow entries of the switch in order, however they are split into parts and interleaved |

## Left out

- Sockets, timeouts, the async runtime, logging and display: a read is a chunk of 1 to 4096 bytes, the end of the list of chunks is a read of 0 bytes; writes do not fail.
- JSON values and uuid text: parsing is a parameter of every statement; replica statements that depend on visiting order ask for one spelling per uuid.
- Monitor versions 2 and 3: agreement is claimed for version 1, because the replica ignores the row updates of the others (Replica.SecondFormIgnored).
- Brace depth: the source counts in a 32-bit signed integer, here in an unbounded one; they differ from a nesting depth of 2^31 on.
- Counters: the change sequence number and the uuid counter are unbounded here, 64 and 32 bits wide in the source.
- Client.Client.Run: discards queued echo requests as the code does, so echo answering is claimed for `wait` only.
- Client.Client.Call: stands for the raw `transact`, `list_dbs` and `cancel_monitor` calls of the client too, which send one request each.
- Client.Client.Commit: the JSON form of one operation is a parameter; columns and values are modelled, their spelling is not.
- Transactions.Transaction.Delete: deletion by name is left out, documented in the source as possibly failing on references; so are `wait`, `comment` and raw inserts, which the topology calls do not use.
- Topology.PieceRuns: the server's unique indexes on port and interface names, garbage collection of unreferenced rows, and failures other than unresolved names are not part of execution here.
- Topology.RunKeepsIntegrity: controllers are only claimed to be resolved; replacing one leaves the old row unreferenced, for the server to collect.
- Builders.BuildPair: the delete transactions of the templates use deletion by name and are left out.
- FlowTable.LookupWinner: reserved port numbers as output targets, and sending a packet to the controller, are not modelled; an output to the ingress port is suppressed, which makes the equal-ports case part of the statements.
- Nat.SnatRefinement: which of the addresses and ports a translation allows is used is decided by the switch; the statements say what it may choose.
- Nat.SnatAllFlows: base tables above 253 and priorities above 65525, where the table or priority numbers overflow eight or sixteen bits, are excluded by a precondition; a program that checks for overflow stops there.
- Nat.DnatAllFlows: excludes the same base tables and priorities.
- Nat.SnatSafety: connections time out in a real tracker; the honest tracker here may forget but not invent.
- MatchCodec.EncodeFields: the source writes one `if` per field, the model loops over the fixed order of fields; a match is two maps from fields to values and masks instead of a record of options.
- OxmDecode.DecodeField: the three field decoders are tables from class and field number to place, width and adjustment instead of match arms.
- MatchCodec.MatchRoundTrip: TCP flags have no wire form in this encoder, and a mask without a value has none either; both are part of the normal form.
- Containers.ParseFlowStatsReply: instruction bytes are kept raw, as the source does; decoding them is left out.
- Nicira.EncodeNxNat: the builder methods that set single flag bits of a translation are left out; flags are one number here.
- Nicira.Decode: action types other than the experimenter type, and lists of actions, are read by code that is left out.
- Nicira.Encode: register loads are encoded in the general form only; the function for numbered registers, which no action uses, is left out.
- VConn.Connection.RecvMessage: the byte layout of message headers, packet-in waiting and flow monitors are left out; message bodies are opaque and the reply parser is a parameter.
- Barriers.BarrierSoundness: the switch may process messages between barriers in any order and send anything at any time; it answers barriers in order, as one ordered stream makes it.
- Deployment.InstallSnat: how a flow is encoded is a parameter; that the switch's own reading of it inverts the encoding, on the flows sent, is a hypothesis.
- Ndp.BuildNaReply: the reply to an unspecified source goes to the all-nodes address but to the sender's hardware address, as in the code.
- The learning switch template, address conversions, `PortMapper`, `Reconnect`, `appctl` and error-code tables: presentation, or only easy members.
