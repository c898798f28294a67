/** The topology templates: a pair of bridges joined by a patch, and a bridge with access and trunk ports. */
module Builders {
  import opened Common
  import opened Replica
  import opened Transactions
  import opened Ovsdb
  import opened Topology
  import opened Standing

  datatype BridgePair = BridgePair(
    bridge1: string, bridge2: string, patch1: Option<string>, patch2: Option<string>, vlans: Option<seq<nat>>,
      secure: bool)

  /** The patch end on `bridge`, a trunk when VLANs are configured. */
  function PatchEnd(c: BridgePair, bridge: string, name: string, peer: string): Piece {
    match c.vlans
    case None => PatchPort(bridge, name, peer)
    case Some(vlans) => TrunkPatchPort(bridge, name, peer, vlans)
  }

  function PatchPieces(c: BridgePair): seq<Piece> {
    var p1, p2 := PatchName(c.patch1, c.bridge1, c.bridge2), PatchName(c.patch2, c.bridge2, c.bridge1);
    [PatchEnd(c, c.bridge1, p1, p2), PatchEnd(c, c.bridge2, p2, p1)]
  }

  function PairPieces(c: BridgePair): seq<Piece> {
    [NewBridge(c.bridge1), NewBridge(c.bridge2)] + PatchPieces(c)
    + if c.secure then [SetFailMode(c.bridge1, "secure"), SetFailMode(c.bridge2, "secure")] else []
  }

  /** A transaction that holds exactly what a list of pieces compiles to. */
  ghost predicate Holds(txn: Transaction, ps: seq<Piece>)
    reads txn
  {
    txn.Valid() && txn.operations == Compile(ps, 0) && txn.uuidCounter == TotalInserted(ps)
  }

  method MakeBridge(txn: Transaction, name: string, ghost ps: seq<Piece>)
    requires Holds(txn, ps)
    modifies txn
    ensures Holds(txn, ps + [NewBridge(name)])
  {
    var _, _, _ := txn.CreateBridge(name);
    CompileSnoc(ps, NewBridge(name), 0);
  }

  method MakeSecure(txn: Transaction, bridge: string, ghost ps: seq<Piece>)
    requires Holds(txn, ps)
    modifies txn
    ensures Holds(txn, ps + [SetFailMode(bridge, "secure")])
  {
    txn.UpdateByName(Bridge, bridge, map[FailMode := One(Text("secure"))]);
    CompileSnoc(ps, SetFailMode(bridge, "secure"), 0);
  }

  method MakePatch(c: BridgePair, txn: Transaction, ghost ps: seq<Piece>)
    requires Holds(txn, ps)
    modifies txn
    ensures Holds(txn, ps + PatchPieces(c))
  {
    ghost var p1, p2 := PatchName(c.patch1, c.bridge1, c.bridge2), PatchName(c.patch2, c.bridge2, c.bridge1);
    ghost var one, two := PatchEnd(c, c.bridge1, p1, p2), PatchEnd(c, c.bridge2, p2, p1);
    if c.vlans.Some? {
      var _, _, _, _ := txn.AddTrunkPatchPorts(c.bridge1, c.bridge2, c.vlans.value, c.patch1, c.patch2);
    } else {
      var _, _, _, _ := txn.AddPatchPorts(c.bridge1, c.bridge2, c.patch1, c.patch2);
    }
    CompileTwo(ps, one, two);
  }

  lemma {:induction false} CompileTwo(ps: seq<Piece>, p: Piece, q: Piece)
    ensures Compile(ps + [p, q], 0)
            == Compile(ps, 0) + PieceOps(p, TotalInserted(ps)) + PieceOps(q, TotalInserted(ps) + Inserted(p))
    ensures TotalInserted(ps + [p, q]) == TotalInserted(ps) + Inserted(p) + Inserted(q)
  {
    CompileSnoc(ps, p, 0);
    CompileSnoc(ps + [p], q, 0);
    assert ps + [p] + [q] == ps + [p, q];
  }

  method BuildPair(c: BridgePair) returns (txn: Transaction)
    ensures fresh(txn) && Holds(txn, PairPieces(c))
  {
    txn := new Transaction("Open_vSwitch");
    MakeBridge(txn, c.bridge1, []);
    ghost var ps := [] + [NewBridge(c.bridge1)];
    MakeBridge(txn, c.bridge2, ps);
    ps := ps + [NewBridge(c.bridge2)];
    MakePatch(c, txn, ps);
    ps := ps + PatchPieces(c);
    if c.secure {
      MakeSecure(txn, c.bridge1, ps);
      ps := ps + [SetFailMode(c.bridge1, "secure")];
      MakeSecure(txn, c.bridge2, ps);
      ps := ps + [SetFailMode(c.bridge2, "secure")];
    }
    PairJoined(c);
  }

  lemma {:induction false} PairJoined(c: BridgePair)
    ensures var ps := [] + [NewBridge(c.bridge1)] + [NewBridge(c.bridge2)] + PatchPieces(c);
            PairPieces(c) == if c.secure
              then ps + [SetFailMode(c.bridge1, "secure")] + [SetFailMode(c.bridge2, "secure")] else ps
  {
  }

  /** Executing a bridge pair, when its two names are distinct and new. */
  lemma {:induction false} PairKeepsIntegrity(c: BridgePair, db: Database, ids: seq<Uuid>)
    requires Inv(db) && FreshIds(db, ids, 0) && |ids| >= 10
    requires c.bridge1 != c.bridge2 && Unused(db, c.bridge1) && Unused(db, c.bridge2)
    ensures var r := Run(Exec(db, map[], 0), Compile(PairPieces(c), 0), ids);
            var p1, p2 := PatchName(c.patch1, c.bridge1, c.bridge2), PatchName(c.patch2, c.bridge2, c.bridge1);
            && r.Some? && Inv(r.value.db) && OneBridge(r.value.db, c.bridge1) && OneBridge(r.value.db, c.bridge2)
            && PeerIs(r.value.db, ids[6], p1, p2) && PeerIs(r.value.db, ids[8], p2, p1)
  {
    var ps := PairPieces(c);
    PairLegal(c, db);
    PairCounts(c);
    RunKeepsIntegrity(db, ps, ids);
    assert Creates(ps, c.bridge1) by { assert ps[0] == NewBridge(c.bridge1); }
    assert Creates(ps, c.bridge2) by { assert ps[1] == NewBridge(c.bridge2); }
    PatchPeers(db, ps, ids, 2, PatchName(c.patch1, c.bridge1, c.bridge2), PatchName(c.patch2, c.bridge2, c.bridge1),
      Run(Exec(db, map[], 0), Compile(ps, 0), ids).value);
  }

  lemma {:induction false} PairCounts(c: BridgePair)
    ensures TotalInserted(PairPieces(c)) == 10 && TotalInserted(PairPieces(c)[..0]) == 0
    ensures TotalInserted(PairPieces(c)[..1]) == 3 && TotalInserted(PairPieces(c)[..2]) == 6
    ensures TotalInserted(PairPieces(c)[..3]) == 8
  {
    var ps := PairPieces(c);
    assert ps[..1][..0] == [] && ps[..2][..1] == ps[..1] && ps[..3][..2] == ps[..2] && ps[..4][..3] == ps[..3];
    assert TotalInserted(ps[..1]) == 3 && TotalInserted(ps[..2]) == 6 && TotalInserted(ps[..3]) == 8
           && TotalInserted(ps[..4]) == 10;
    if c.secure {
      assert ps[..5][..4] == ps[..4] && ps[..6][..5] == ps[..5] && ps[..6] == ps;
    } else {
      assert ps[..4] == ps;
    }
  }

  lemma {:induction false} PairLegal(c: BridgePair, db: Database)
    requires c.bridge1 != c.bridge2 && Unused(db, c.bridge1) && Unused(db, c.bridge2)
    ensures Legal(db, PairPieces(c))
  {
    var ps := PairPieces(c);
    forall k | 0 <= k < |ps|
      ensures LegalAt(db, ps, k)
    {
      if k == 2 || k == 3 {
        assert ps[..k][0] == NewBridge(c.bridge1) && ps[..k][1] == NewBridge(c.bridge2);
      }
    }
  }

  /** The name of a patch end: the given one, or the two bridges it leads from and to. */
  predicate EndName(name: string, given: Option<string>, from: string, to: string) {
    name == if given.Some? then given.value else "patch-" + from + "-to-" + to
  }

  /** The fail mode a bridge made by a template has. */
  function TemplateMode(secure: bool): Option<set<Value>> { if secure then Some({TextV("secure")}) else None }

  /** The pair in the database: two bridges, each with its end of the patch, the VLANs of the patch, and fail modes. */
  ghost predicate PairIs(db: Database, c: BridgePair, ids: seq<Uuid>, p1: string, p2: string) {
    && EndName(p1, c.patch1, c.bridge1, c.bridge2) && EndName(p2, c.patch2, c.bridge2, c.bridge1)
    && BridgeAt(db, c.bridge1, ids, 0) && BridgeAt(db, c.bridge2, ids, 3)
    && PatchAt(db, c.bridge1, ids, 6, p1, p2, PatchVlans(c.vlans))
    && PatchAt(db, c.bridge2, ids, 8, p2, p1, PatchVlans(c.vlans))
    && FailModes(db, c.bridge1, TemplateMode(c.secure)) && FailModes(db, c.bridge2, TemplateMode(c.secure))
  }

  /** What executing a bridge pair leaves in the database. */
  lemma {:induction false} PairStands(c: BridgePair, db: Database, ids: seq<Uuid>, end: Exec)
    requires Inv(db) && FreshIds(db, ids, 0) && |ids| >= 10
    requires c.bridge1 != c.bridge2 && Unused(db, c.bridge1) && Unused(db, c.bridge2)
    requires Run(Exec(db, map[], 0), Compile(PairPieces(c), 0), ids) == Some(end)
    ensures PairIs(end.db, c, ids, PatchName(c.patch1, c.bridge1, c.bridge2), PatchName(c.patch2, c.bridge2, c.bridge1))
  {
    var ps := PairPieces(c);
    var p1, p2 := PatchName(c.patch1, c.bridge1, c.bridge2), PatchName(c.patch2, c.bridge2, c.bridge1);
    PairLegal(c, db);
    PairCounts(c);
    BridgesOfRun(db, ps, ids, 0, end);
    BridgesOfRun(db, ps, ids, 1, end);
    PairPatchStands(c, db, ps, ids, end, 2, c.bridge1, p1, p2);
    PairPatchStands(c, db, ps, ids, end, 3, c.bridge2, p2, p1);
    PairModes(c);
    FailModesOfRun(db, ps, ids, end, c.bridge1, None);
    FailModesOfRun(db, ps, ids, end, c.bridge2, None);
  }

  /** The VLANs of the patch of a pair. */
  function PatchVlans(vlans: Option<seq<nat>>): Vlans {
    match vlans
    case None => Untagged
    case Some(only) => Only(only)
  }

  /** One end of the patch of a pair. */
  lemma {:induction false} PairPatchStands(c: BridgePair, db: Database, ps: seq<Piece>, ids: seq<Uuid>, end: Exec,
        k: nat, bridge: string, name: string, peer: string)
    requires Inv(db) && Legal(db, ps) && FreshIds(db, ids, 0) && TotalInserted(ps) <= |ids|
    requires k < |ps| && ps[k] == PatchEnd(c, bridge, name, peer)
    requires Run(Exec(db, map[], 0), Compile(ps, 0), ids) == Some(end)
    ensures PatchAt(end.db, bridge, ids, TotalInserted(ps[..k]), name, peer, PatchVlans(c.vlans))
  {
    match c.vlans
    case None => PatchPortStands(db, ps, ids, k, end, bridge, name, peer);
    case Some(vlans) => TrunkPatchPortStands(db, ps, ids, k, end, bridge, name, peer, vlans);
  }

  lemma {:induction false} PairModes(c: BridgePair)
    requires c.bridge1 != c.bridge2
    ensures ModeAfter(PairPieces(c), c.bridge1, None) == TemplateMode(c.secure)
    ensures ModeAfter(PairPieces(c), c.bridge2, None) == TemplateMode(c.secure)
  {
    var ps := PairPieces(c);
    if c.secure {
      assert ps[4] == SetFailMode(c.bridge1, "secure") && ps[5] == SetFailMode(c.bridge2, "secure");
      assert ps[..5][..4] == ps[..4];
    } else {
      ModeUnset(ps, c.bridge1, None);
      ModeUnset(ps, c.bridge2, None);
    }
  }

  /** Without a fail mode being set, only creating the bridge matters. */
  lemma {:induction false} ModeUnset(ps: seq<Piece>, bridge: string, mode: Option<set<Value>>)
    requires forall k :: 0 <= k < |ps| ==> !(ps[k].SetFailMode? && ps[k].bridge == bridge)
    ensures ModeAfter(ps, bridge, mode) == if Creates(ps, bridge) then None else mode
  {
    if ps != [] {
      ModeUnset(ps[..|ps| - 1], bridge, mode);
      assert ps == ps[..|ps| - 1] + [ps[|ps| - 1]];
    }
  }

  // -------------------------------------------------------------- VLAN trunk

  datatype AccessPort = AccessPort(name: string, vlan: nat, ifaceType: string)

  /** No allowed VLANs means all of them. */
  datatype TrunkPort = TrunkPort(name: string, vlans: seq<nat>, ifaceType: string)

  datatype VlanTrunk = VlanTrunk(bridge: string, create: bool, access: seq<AccessPort>, trunks: seq<TrunkPort>,
    secure: bool)

  function AccessPiece(bridge: string, p: AccessPort): Piece { VlanPort(bridge, p.name, p.ifaceType, p.vlan) }

  function TrunkColumns(p: TrunkPort): Columns {
    var trunk := map[Name := One(Text(p.name)), VlanMode := One(Text("trunk"))];
    if p.vlans == [] then trunk else trunk[Trunks := VlanSet(p.vlans)]
  }

  function TrunkPiece(bridge: string, p: TrunkPort): Piece {
    NewPort(bridge, map[Name := One(Text(p.name)), Type := One(Text(p.ifaceType))], TrunkColumns(p))
  }

  function AccessPieces(c: VlanTrunk, n: nat): (ps: seq<Piece>)
    requires n <= |c.access|
    ensures |ps| == n && forall i :: 0 <= i < n ==> ps[i] == AccessPiece(c.bridge, c.access[i])
  {
    seq(n, i requires 0 <= i < n => AccessPiece(c.bridge, c.access[i]))
  }

  function TrunkPieces(c: VlanTrunk, n: nat): (ps: seq<Piece>)
    requires n <= |c.trunks|
    ensures |ps| == n && forall i :: 0 <= i < n ==> ps[i] == TrunkPiece(c.bridge, c.trunks[i])
  {
    seq(n, i requires 0 <= i < n => TrunkPiece(c.bridge, c.trunks[i]))
  }

  function FirstPieces(c: VlanTrunk): seq<Piece> { if c.create then [NewBridge(c.bridge)] else [] }

  function LastPieces(c: VlanTrunk): seq<Piece> { if c.secure then [SetFailMode(c.bridge, "secure")] else [] }

  function VlanTrunkPieces(c: VlanTrunk): seq<Piece> {
    FirstPieces(c) + AccessPieces(c, |c.access|) + TrunkPieces(c, |c.trunks|) + LastPieces(c)
  }

  method AddAccessPort(c: VlanTrunk, txn: Transaction, p: AccessPort, ghost ps: seq<Piece>)
    requires Holds(txn, ps)
    modifies txn
    ensures Holds(txn, ps + [AccessPiece(c.bridge, p)])
  {
    var _, _ := txn.AttachPort(c.bridge, map[Name := One(Text(p.name)), Type := One(Text(p.ifaceType))],
      map[Name := One(Text(p.name)), Tag := One(Num(p.vlan))]);
    CompileSnoc(ps, AccessPiece(c.bridge, p), 0);
  }

  method AddTrunkPort(c: VlanTrunk, txn: Transaction, p: TrunkPort, ghost ps: seq<Piece>)
    requires Holds(txn, ps)
    modifies txn
    ensures Holds(txn, ps + [TrunkPiece(c.bridge, p)])
  {
    var columns: Columns := map[Name := One(Text(p.name)), VlanMode := One(Text("trunk"))];
    if p.vlans != [] {
      columns := columns[Trunks := VlanSet(p.vlans)];
    }
    var _, _ := txn.AttachPort(c.bridge, map[Name := One(Text(p.name)), Type := One(Text(p.ifaceType))], columns);
    CompileSnoc(ps, TrunkPiece(c.bridge, p), 0);
  }

  lemma {:induction false} NextPiece(first: seq<Piece>, so: seq<Piece>, far: seq<Piece>, p: Piece)
    requires |far| == |so| + 1 && (forall i :: 0 <= i < |so| ==> far[i] == so[i]) && far[|so|] == p
    ensures first + so + [p] == first + far
  {
  }

  method AddAccessPorts(c: VlanTrunk, txn: Transaction, ghost ps: seq<Piece>)
    requires Holds(txn, ps)
    modifies txn
    ensures Holds(txn, ps + AccessPieces(c, |c.access|))
  {
    assert ps + AccessPieces(c, 0) == ps;
    for i := 0 to |c.access|
      invariant Holds(txn, ps + AccessPieces(c, i))
    {
      AddAccessPort(c, txn, c.access[i], ps + AccessPieces(c, i));
      NextPiece(ps, AccessPieces(c, i), AccessPieces(c, i + 1), AccessPiece(c.bridge, c.access[i]));
    }
  }

  method AddTrunkPorts(c: VlanTrunk, txn: Transaction, ghost ps: seq<Piece>)
    requires Holds(txn, ps)
    modifies txn
    ensures Holds(txn, ps + TrunkPieces(c, |c.trunks|))
  {
    assert ps + TrunkPieces(c, 0) == ps;
    for i := 0 to |c.trunks|
      invariant Holds(txn, ps + TrunkPieces(c, i))
    {
      AddTrunkPort(c, txn, c.trunks[i], ps + TrunkPieces(c, i));
      NextPiece(ps, TrunkPieces(c, i), TrunkPieces(c, i + 1), TrunkPiece(c.bridge, c.trunks[i]));
    }
  }

  method BuildVlanTrunk(c: VlanTrunk) returns (txn: Transaction)
    ensures fresh(txn) && Holds(txn, VlanTrunkPieces(c))
  {
    txn := new Transaction("Open_vSwitch");
    if c.create {
      MakeBridge(txn, c.bridge, []);
      assert [] + [NewBridge(c.bridge)] == FirstPieces(c);
    }
    ghost var ps := FirstPieces(c);
    AddAccessPorts(c, txn, ps);
    ps := ps + AccessPieces(c, |c.access|);
    AddTrunkPorts(c, txn, ps);
    ps := ps + TrunkPieces(c, |c.trunks|);
    if c.secure {
      MakeSecure(txn, c.bridge, ps);
    } else {
      assert ps + [] == ps;
    }
  }

  /**
   Executing a VLAN trunk: on a new name when it creates the bridge, on the name of exactly one bridge when it does not.
   */
  lemma {:induction false} VlanTrunkKeepsIntegrity(c: VlanTrunk, db: Database, ids: seq<Uuid>)
    requires Inv(db) && FreshIds(db, ids, 0) && TotalInserted(VlanTrunkPieces(c)) <= |ids|
    requires if c.create then Unused(db, c.bridge) else OneBridge(db, c.bridge)
    ensures var r := Run(Exec(db, map[], 0), Compile(VlanTrunkPieces(c), 0), ids);
            r.Some? && Inv(r.value.db) && OneBridge(r.value.db, c.bridge)
  {
    var ps := VlanTrunkPieces(c);
    TrunkLegal(c, db);
    RunKeepsIntegrity(db, ps, ids);
    if c.create {
      assert ps[0] == NewBridge(c.bridge);
    }
  }

  lemma {:induction false} VlanTrunkLegal(c: VlanTrunk, db: Database, k: nat)
    requires if c.create then Unused(db, c.bridge) else OneBridge(db, c.bridge)
    requires k < |VlanTrunkPieces(c)|
    ensures LegalAt(db, VlanTrunkPieces(c), k)
  {
    var ps := VlanTrunkPieces(c);
    if c.create && k > 0 {
      assert ps[..k][0] == NewBridge(c.bridge);
    }
    VlanTrunkPiece(c, k);
  }

  /** What piece `k` of a VLAN trunk can be. */
  lemma {:induction false} VlanTrunkPiece(c: VlanTrunk, k: nat)
    requires k < |VlanTrunkPieces(c)|
    ensures var p := VlanTrunkPieces(c)[k];
            && PlainPiece(p) && (p.NewBridge? ==> k == 0 && c.create && p.name == c.bridge)
               && (p.NewPort? ==> p.bridge == c.bridge)
            && (k == 0 && c.create ==> p.NewBridge?)
  {
  }

  // --------------------------------------------------- a VLAN trunk in the database

  /** An execution of a VLAN trunk. */
  ghost predicate TrunkRun(c: VlanTrunk, db: Database, ids: seq<Uuid>, end: Exec) {
    && Inv(db) && FreshIds(db, ids, 0) && TotalInserted(VlanTrunkPieces(c)) <= |ids|
    && (if c.create then Unused(db, c.bridge) else OneBridge(db, c.bridge))
    && Run(Exec(db, map[], 0), Compile(VlanTrunkPieces(c), 0), ids) == Some(end)
  }

  lemma {:induction false} TrunkLegal(c: VlanTrunk, db: Database)
    requires if c.create then Unused(db, c.bridge) else OneBridge(db, c.bridge)
    ensures Legal(db, VlanTrunkPieces(c))
  {
    forall k | 0 <= k < |VlanTrunkPieces(c)|
      ensures LegalAt(db, VlanTrunkPieces(c), k)
    {
      VlanTrunkLegal(c, db, k);
    }
  }

  /** How many rows come before the ports. */
  function RowsOfBridge(c: VlanTrunk): nat { if c.create then 3 else 0 }

  /** The first of the two rows of an access or trunk port. */
  function AccessRow(c: VlanTrunk, i: nat): nat { RowsOfBridge(c) + 2 * i }
  function TrunkRow(c: VlanTrunk, i: nat): nat { RowsOfBridge(c) + 2 * (|c.access| + i) }

  lemma {:induction false} PortsBefore(c: VlanTrunk, n: nat)
    requires n <= |c.access| + |c.trunks|
    ensures |FirstPieces(c)| + n <= |VlanTrunkPieces(c)|
    ensures TotalInserted(VlanTrunkPieces(c)[..|FirstPieces(c)| + n]) == RowsOfBridge(c) + 2 * n
  {
    var ps, first := VlanTrunkPieces(c), FirstPieces(c);
    if n == 0 {
      assert ps[..|first|] == first;
      if c.create {
        assert first[..0] == [];
      }
    } else {
      PortsBefore(c, n - 1);
      assert ps[..|first| + n][..|first| + n - 1] == ps[..|first| + n - 1];
      assert ps[|first| + n - 1].NewPort?;
    }
  }

  /** Where the piece of an access port is, and the first of its two rows. */
  lemma {:induction false} AccessPlace(c: VlanTrunk, i: nat) returns (k: nat)
    requires i < |c.access|
    ensures k < |VlanTrunkPieces(c)| && VlanTrunkPieces(c)[k] == AccessPiece(c.bridge, c.access[i])
    ensures TotalInserted(VlanTrunkPieces(c)[..k]) == AccessRow(c, i)
  {
    k := |FirstPieces(c)| + i;
    PortsBefore(c, i);
  }

  lemma {:induction false} TrunkPlace(c: VlanTrunk, i: nat) returns (k: nat)
    requires i < |c.trunks|
    ensures k < |VlanTrunkPieces(c)| && VlanTrunkPieces(c)[k] == TrunkPiece(c.bridge, c.trunks[i])
    ensures TotalInserted(VlanTrunkPieces(c)[..k]) == TrunkRow(c, i)
  {
    k := |FirstPieces(c)| + (|c.access| + i);
    PortsBefore(c, |c.access| + i);
    InThird(FirstPieces(c), AccessPieces(c, |c.access|), TrunkPieces(c, |c.trunks|), LastPieces(c), i);
  }

  lemma {:induction false} InThird<T>(a: seq<T>, b: seq<T>, third: seq<T>, d: seq<T>, i: nat)
    requires i < |third|
    ensures |a| + (|b| + i) < |a + b + third + d| && (a + b + third + d)[|a| + (|b| + i)] == third[i]
  {
  }

  /** Every access port is on the bridge, its tag is its VLAN, and its one interface has its name and type. */
  lemma {:induction false} AccessPortsStand(c: VlanTrunk, db: Database, ids: seq<Uuid>, end: Exec, i: nat)
    requires TrunkRun(c, db, ids, end) && i < |c.access|
    ensures var p := c.access[i];
            PortAt(end.db, c.bridge, ids, AccessRow(c, i), p.name, p.ifaceType, Access(p.vlan))
  {
    TrunkLegal(c, db);
    var k := AccessPlace(c, i);
    AccessPortStands(db, VlanTrunkPieces(c), ids, k, AccessRow(c, i), end, c.bridge, c.access[i]);
  }

  lemma {:induction false} AccessPortStands(
      db: Database, ps: seq<Piece>, ids: seq<Uuid>, k: nat, row: nat, end: Exec, bridge: string, p: AccessPort)
    requires Inv(db) && Legal(db, ps) && FreshIds(db, ids, 0) && TotalInserted(ps) <= |ids|
    requires k < |ps| && ps[k] == AccessPiece(bridge, p) && TotalInserted(ps[..k]) == row
    requires Run(Exec(db, map[], 0), Compile(ps, 0), ids) == Some(end)
    ensures PortAt(end.db, bridge, ids, row, p.name, p.ifaceType, Access(p.vlan))
  {
    VlanPortStands(db, ps, ids, k, end, bridge, p.name, p.ifaceType, p.vlan);
  }

  /** Every trunk port is on the bridge and carries exactly its VLANs, or all when none are given. */
  lemma {:induction false} TrunkPortsStand(c: VlanTrunk, db: Database, ids: seq<Uuid>, end: Exec, i: nat)
    requires TrunkRun(c, db, ids, end) && i < |c.trunks|
    ensures var p := c.trunks[i];
            PortAt(end.db, c.bridge, ids, TrunkRow(c, i), p.name, p.ifaceType, Carried(p))
  {
    TrunkLegal(c, db);
    var k := TrunkPlace(c, i);
    TrunkPortStands(db, VlanTrunkPieces(c), ids, k, TrunkRow(c, i), end, c.bridge, c.trunks[i]);
  }

  lemma {:induction false} TrunkPortStands(
      db: Database, ps: seq<Piece>, ids: seq<Uuid>, k: nat, row: nat, end: Exec, bridge: string, p: TrunkPort)
    requires Inv(db) && Legal(db, ps) && FreshIds(db, ids, 0) && TotalInserted(ps) <= |ids|
    requires k < |ps| && ps[k] == TrunkPiece(bridge, p) && TotalInserted(ps[..k]) == row
    requires Run(Exec(db, map[], 0), Compile(ps, 0), ids) == Some(end)
    ensures PortAt(end.db, bridge, ids, row, p.name, p.ifaceType, Carried(p))
  {
    TrunkSays(p);
    PortSays(db, ps, ids, k, end, p.name, p.ifaceType, Carried(p));
  }

  function Carried(p: TrunkPort): Vlans { if p.vlans == [] then AllVlans else Only(p.vlans) }

  lemma {:induction false} TrunkSays(p: TrunkPort)
    ensures Says(TrunkColumns(p), p.name, Carried(p))
  {
    if p.vlans == [] {
      AllVlansSays(p.name);
    } else {
      OnlySays(p.name, p.vlans);
      assert TrunkColumns(p)
          == map[Name := One(Text(p.name)), VlanMode := One(Text("trunk")), Trunks := VlanSet(p.vlans)];
    }
  }

  /**
   The bridge of a VLAN trunk: new or as it was, with the fail mode that is asked for; no rows are inserted but its own
   and two for each port.
   */
  lemma {:induction false} TrunkBridgeStands(
      c: VlanTrunk, db: Database, ids: seq<Uuid>, end: Exec, mode: Option<set<Value>>)
    requires TrunkRun(c, db, ids, end) && FailModes(db, c.bridge, mode)
    ensures c.create ==> BridgeAt(end.db, c.bridge, ids, 0)
    ensures FailModes(end.db, c.bridge, if c.secure || c.create then TemplateMode(c.secure) else mode)
    ensures end.next == RowsOfBridge(c) + 2 * (|c.access| + |c.trunks|)
  {
    var ps := VlanTrunkPieces(c);
    TrunkLegal(c, db);
    RunKeepsIntegrity(db, ps, ids);
    TrunkInserted(c);
    if c.create {
      assert ps[0] == NewBridge(c.bridge) && ps[..0] == [];
      BridgesOfRun(db, ps, ids, 0, end);
    }
    FailModesOfRun(db, ps, ids, end, c.bridge, mode);
    TrunkMode(c, mode);
  }

  lemma {:induction false} TrunkInserted(c: VlanTrunk)
    ensures TotalInserted(VlanTrunkPieces(c)) == RowsOfBridge(c) + 2 * (|c.access| + |c.trunks|)
  {
    var n := |FirstPieces(c)| + (|c.access| + |c.trunks|);
    PortsBefore(c, |c.access| + |c.trunks|);
    PieceCount(c);
    LastInserted(VlanTrunkPieces(c), n);
  }

  lemma {:induction false} PieceCount(c: VlanTrunk)
    ensures var ps, n := VlanTrunkPieces(c), |FirstPieces(c)| + (|c.access| + |c.trunks|);
            && |ps| == n + |LastPieces(c)| <= n + 1
            && (|ps| > n ==> ps[n].SetFailMode?)
  {
  }

  lemma {:induction false} LastInserted(ps: seq<Piece>, n: nat)
    requires n <= |ps| <= n + 1 && (|ps| > n ==> ps[n].SetFailMode?)
    ensures TotalInserted(ps) == TotalInserted(ps[..n])
  {
    if |ps| == n {
      assert ps[..n] == ps;
    }
  }

  lemma {:induction false} TrunkMode(c: VlanTrunk, mode: Option<set<Value>>)
    ensures ModeAfter(VlanTrunkPieces(c), c.bridge, mode)
            == if c.secure || c.create then TemplateMode(c.secure) else mode
  {
    var ps := VlanTrunkPieces(c);
    if c.secure {
      assert ps[|ps| - 1] == SetFailMode(c.bridge, "secure");
    } else {
      ModeUnset(ps, c.bridge, mode);
      assert c.create ==> ps[0] == NewBridge(c.bridge);
    }
  }
}
