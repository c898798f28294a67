/** What the rows that topology calls write say once the whole transaction has been executed. */
module Standing {
  import opened Common
  import opened Replica
  import opened Transactions
  import opened Ovsdb
  import opened Topology

  // --------------------------------------------------------------- what to see

  type Cells = map<Column, set<Value>>

  /** What the VLAN columns of a port say. */
  datatype Vlans = Untagged | Access(vlan: nat) | AllVlans | Only(vlans: seq<nat>)

  function VlanColumns(v: Vlans): Cells {
    match v
    case Untagged => map[]
    case Access(vlan) => map[Tag := {NumV(vlan)}]
    case AllVlans => map[VlanMode := {TextV("trunk")}]
    case Only(vlans) => map[VlanMode := {TextV("trunk")}, Trunks := set n | n in vlans :: NumV(n)]
  }

  /** Only the bridges with the name refer to the port, in their list of ports. */
  ghost predicate OnBridge(db: Database, bridge: string, port: Uuid) {
    forall u, col :: Refs(db, u, col, port) <==> col == Ports && HasName(db, u, Bridge, bridge)
  }

  /** A port of a bridge, the VLANs it carries, and its one interface, which has the same name. */
  ghost predicate PortIs(
      db: Database, bridge: string, port: Uuid, iface: Uuid, name: string, ifaceType: string, vlans: Vlans)
  {
    && port in db
    && db[port] == DbRow(Port, VlanColumns(vlans) + map[Name := {TextV(name)}, Interfaces := {Id(iface)}])
    && iface in db && db[iface] == DbRow(Interface, map[Name := {TextV(name)}, Type := {TextV(ifaceType)}])
    && OnBridge(db, bridge, port)
  }

  /** A port of a bridge whose one interface is a patch to the interface named `peer`. */
  ghost predicate PatchIs(
      db: Database, bridge: string, port: Uuid, iface: Uuid, name: string, peer: string, vlans: Vlans)
  {
    && port in db
    && db[port] == DbRow(Port, VlanColumns(vlans) + map[Name := {TextV(name)}, Interfaces := {Id(iface)}])
    && PeerIs(db, iface, name, peer)
    && OnBridge(db, bridge, port)
  }

  /** The rows of a port stand at its two uuids. */
  ghost predicate PortAt(
      db: Database, bridge: string, ids: seq<Uuid>, c: nat, name: string, ifaceType: string, vlans: Vlans)
  {
    c + 2 <= |ids| && PortIs(db, bridge, ids[c + 1], ids[c], name, ifaceType, vlans)
  }

  ghost predicate PatchAt(
      db: Database, bridge: string, ids: seq<Uuid>, c: nat, name: string, peer: string, vlans: Vlans)
  {
    c + 2 <= |ids| && PatchIs(db, bridge, ids[c + 1], ids[c], name, peer, vlans)
  }

  /** A bridge known to the root row, with its internal port of the same name. */
  ghost predicate BridgeIs(db: Database, bridge: Uuid, port: Uuid, iface: Uuid, name: string) {
    && PortIs(db, name, port, iface, name, "internal", Untagged)
    && (forall u :: HasName(db, u, Bridge, name) <==> u == bridge)
    && (forall u :: Refs(db, u, Bridges, bridge) <==> IsRoot(db, u))
  }

  ghost predicate BridgeAt(db: Database, name: string, ids: seq<Uuid>, c: nat) {
    c + 3 <= |ids| && BridgeIs(db, ids[c + 2], ids[c + 1], ids[c], name)
  }

  // -------------------------------------------------------------- one more piece

  /** A new port is on the bridge it was made for. */
  lemma {:induction false} PortAttached(p: Piece, db: Database, ids: seq<Uuid>, c: nat)
    requires p.NewPort? && Resolved(db) && PlainPiece(p) && FreshIds(db, ids, c) && c + 2 <= |ids|
    ensures OnBridge(PieceDb(p, db, ids, c), p.bridge, ids[c + 1])
  {
    PieceExtends(p, db, ids, c);
    forall u
      ensures HasName(PieceDb(p, db, ids, c), u, Bridge, p.bridge) <==> HasName(db, u, Bridge, p.bridge)
    {
      NamesAfter(p, db, ids, c, u, p.bridge);
    }
    assert ids[c] != ids[c + 1];
  }

  /** The rows of a new bridge. */
  lemma {:induction false} BridgeWritten(name: string, db: Database, ids: seq<Uuid>, c: nat)
    requires Resolved(db) && Unused(db, name) && FreshIds(db, ids, c) && c + 3 <= |ids|
    ensures BridgeAt(PieceDb(NewBridge(name), db, ids, c), name, ids, c)
  {
    BridgeNamed(name, db, ids, c);
    BridgeKnown(name, db, ids, c);
    BridgePort(name, db, ids, c);
  }

  lemma {:induction false} BridgeNamed(name: string, db: Database, ids: seq<Uuid>, c: nat)
    requires Unused(db, name) && FreshIds(db, ids, c) && c + 3 <= |ids|
    ensures forall u :: HasName(PieceDb(NewBridge(name), db, ids, c), u, Bridge, name) <==> u == ids[c + 2]
  {
    forall u
      ensures HasName(PieceDb(NewBridge(name), db, ids, c), u, Bridge, name) <==> u == ids[c + 2]
    {
      NamesAfter(NewBridge(name), db, ids, c, u, name);
    }
  }

  lemma {:induction false} BridgeKnown(name: string, db: Database, ids: seq<Uuid>, c: nat)
    requires Resolved(db) && FreshIds(db, ids, c) && c + 3 <= |ids|
    ensures var after := PieceDb(NewBridge(name), db, ids, c);
            forall u :: Refs(after, u, Bridges, ids[c + 2]) <==> IsRoot(after, u)
  {
    var p := NewBridge(name);
    var after := PieceDb(p, db, ids, c);
    PieceExtends(p, db, ids, c);
    assert ids[c] != ids[c + 1] && ids[c] != ids[c + 2] && ids[c + 1] != ids[c + 2];
    forall u
      ensures Refs(after, u, Bridges, ids[c + 2]) <==> IsRoot(after, u)
    {
      assert Adds(p, db, ids, c, u, Bridges, ids[c + 2]) <==> IsRoot(db, u);
      assert Refs(after, u, Bridges, ids[c + 2]) <==> Added(p, db, ids, c)(u, Bridges, ids[c + 2]);
    }
  }

  lemma {:induction false} BridgePort(name: string, db: Database, ids: seq<Uuid>, c: nat)
    requires Resolved(db) && Unused(db, name) && FreshIds(db, ids, c) && c + 3 <= |ids|
    ensures PortIs(PieceDb(NewBridge(name), db, ids, c), name, ids[c + 1], ids[c], name, "internal", Untagged)
  {
    var after := PieceDb(NewBridge(name), db, ids, c);
    PieceExtends(NewBridge(name), db, ids, c);
    BridgeNamed(name, db, ids, c);
    assert ids[c] != ids[c + 1] && ids[c] != ids[c + 2] && ids[c + 1] != ids[c + 2];
    assert after[ids[c + 1]].cols == VlanColumns(Untagged) + map[Name := {TextV(name)}, Interfaces := {Id(ids[c])}];
  }

  /** Later pieces leave a port on its bridge. */
  lemma {:induction false} StaysAttached(
      p: Piece, db: Database, ids: seq<Uuid>, c: nat, bridge: string, port: Uuid)
    requires Resolved(db) && PlainPiece(p) && FreshIds(db, ids, c) && c + Inserted(p) <= |ids|
    requires p != NewBridge(bridge) && port in db && OnBridge(db, bridge, port)
    ensures OnBridge(PieceDb(p, db, ids, c), bridge, port)
  {
    PieceExtends(p, db, ids, c);
    forall u
      ensures HasName(PieceDb(p, db, ids, c), u, Bridge, bridge) <==> HasName(db, u, Bridge, bridge)
    {
      NamesAfter(p, db, ids, c, u, bridge);
    }
  }

  /** Later pieces leave a bridge what it is. */
  lemma {:induction false} StaysBridge(
      p: Piece, db: Database, ids: seq<Uuid>, c: nat, bridge: Uuid, port: Uuid, iface: Uuid, name: string)
    requires Resolved(db) && PlainPiece(p) && FreshIds(db, ids, c) && c + Inserted(p) <= |ids|
    requires p != NewBridge(name) && BridgeIs(db, bridge, port, iface, name)
    ensures BridgeIs(PieceDb(p, db, ids, c), bridge, port, iface, name)
  {
    var after := PieceDb(p, db, ids, c);
    StaysAttached(p, db, ids, c, name, port);
    PortsUntouched(p, db, ids, c, port);
    PortsUntouched(p, db, ids, c, iface);
    PieceExtends(p, db, ids, c);
    forall u
      ensures HasName(after, u, Bridge, name) <==> u == bridge
    {
      NamesAfter(p, db, ids, c, u, name);
    }
    assert HasName(db, bridge, Bridge, name);
    assert forall u :: IsRoot(after, u) <==> IsRoot(db, u);
  }

  // ---------------------------------------------------------------- whole runs

  lemma {:induction false} BridgesOfRun(db: Database, ps: seq<Piece>, ids: seq<Uuid>, k: nat, end: Exec)
    requires Inv(db) && Legal(db, ps) && FreshIds(db, ids, 0) && TotalInserted(ps) <= |ids|
    requires k < |ps| && ps[k].NewBridge?
    requires Run(Exec(db, map[], 0), Compile(ps, 0), ids) == Some(end)
    ensures BridgeAt(end.db, ps[k].name, ids, TotalInserted(ps[..k]))
  {
    var name, c := ps[k].name, TotalInserted(ps[..k]);
    forall mid | Before(ps[k], mid, ids) && mid.next == c
      ensures BridgeAt(PieceDb(ps[k], mid.db, ids, mid.next), name, ids, c)
    {
      NewBridgeLast(ps[k], mid, ids);
    }
    forall p, mid | Before(p, mid, ids) && p != NewBridge(name) && BridgeAt(mid.db, name, ids, c)
      ensures BridgeAt(PieceDb(p, mid.db, ids, mid.next), name, ids, c)
    {
      StillBridge(p, mid, ids, c, name);
    }
    TrueAtEnd(db, ps, ids, k, end, name, d => BridgeAt(d, name, ids, c));
  }

  lemma {:induction false} NewBridgeLast(p: Piece, mid: Exec, ids: seq<Uuid>)
    requires Before(p, mid, ids) && p.NewBridge?
    ensures BridgeAt(PieceDb(p, mid.db, ids, mid.next), p.name, ids, mid.next)
  {
    BridgeWritten(p.name, mid.db, ids, mid.next);
  }

  lemma {:induction false} StillBridge(p: Piece, mid: Exec, ids: seq<Uuid>, c: nat, name: string)
    requires Before(p, mid, ids) && p != NewBridge(name) && BridgeAt(mid.db, name, ids, c)
    ensures BridgeAt(PieceDb(p, mid.db, ids, mid.next), name, ids, c)
  {
    StaysBridge(p, mid.db, ids, mid.next, ids[c + 2], ids[c + 1], ids[c], name);
  }

  /** Every port of a run is on the bridge it was made for when the run is over. */
  lemma {:induction false} AttachedOfRun(db: Database, ps: seq<Piece>, ids: seq<Uuid>, k: nat, end: Exec)
    requires Inv(db) && Legal(db, ps) && FreshIds(db, ids, 0) && TotalInserted(ps) <= |ids|
    requires k < |ps| && ps[k].NewPort?
    requires Run(Exec(db, map[], 0), Compile(ps, 0), ids) == Some(end)
    ensures TotalInserted(ps[..k]) + 2 <= |ids|
    ensures OnBridge(end.db, ps[k].bridge, ids[TotalInserted(ps[..k]) + 1])
  {
    PrefixInserted(ps, k);
    var port := ids[TotalInserted(ps[..k]) + 1];
    PortMakes(ps[k], ids, TotalInserted(ps[..k]));
    PortKeeps(ps[k].bridge, port, ids);
    TrueAtEnd(db, ps, ids, k, end, ps[k].bridge, HasPortOn(ps[k].bridge, port));
  }

  ghost function HasPortOn(bridge: string, port: Uuid): Database -> bool {
    db => port in db && OnBridge(db, bridge, port)
  }

  lemma {:induction false} PortMakes(p: Piece, ids: seq<Uuid>, c: nat)
    requires p.NewPort? && c + 2 <= |ids|
    ensures Makes(p, c, ids, HasPortOn(p.bridge, ids[c + 1]))
  {
    forall mid | Before(p, mid, ids) && mid.next == c
      ensures HasPortOn(p.bridge, ids[c + 1])(PieceDb(p, mid.db, ids, mid.next))
    {
      PortAttached(p, mid.db, ids, mid.next);
    }
  }

  lemma {:induction false} PortKeeps(bridge: string, port: Uuid, ids: seq<Uuid>)
    ensures Keeps(bridge, ids, HasPortOn(bridge, port))
  {
    forall p, mid | Before(p, mid, ids) && p != NewBridge(bridge) && HasPortOn(bridge, port)(mid.db)
      ensures HasPortOn(bridge, port)(PieceDb(p, mid.db, ids, mid.next))
    {
      StaysAttached(p, mid.db, ids, mid.next, bridge, port);
    }
  }

  // --------------------------------------------------- what each call has written

  lemma {:induction false} VlanValues(vlans: seq<nat>)
    ensures NoLinks(VlanSet(vlans)) && Values(VlanSet(vlans), map[]) == set n | n in vlans :: NumV(n)
  {
    if |vlans| == 1 {
      assert forall n :: n in vlans <==> n == vlans[0];
    } else {
      var d := VlanSet(vlans);
      assert forall i :: 0 <= i < |vlans| ==> d.atoms[i] == Num(vlans[i]);
      forall v
        ensures v in Values(d, map[]) <==> v in set n | n in vlans :: NumV(n)
      {
        if v.NumV? && v.n in vlans {
          var i :| 0 <= i < |vlans| && vlans[i] == v.n;
          assert ValueOf(d.atoms[i], map[]).value == v;
        }
      }
    }
  }

  function TypedInterface(name: string, ifaceType: string): Columns {
    map[Name := One(Text(name)), Type := One(Text(ifaceType))]
  }

  lemma {:induction false} InterfaceValues(name: string, ifaceType: string)
    ensures var row := TypedInterface(name, ifaceType);
            Plain(row) && PlainValues(row) == map[Name := {TextV(name)}, Type := {TextV(ifaceType)}]
  {
  }

  /** The columns of a port, from those of the piece that made it. */
  ghost predicate Says(port: Columns, name: string, vlans: Vlans) {
    Plain(port) && PlainValues(port) == VlanColumns(vlans) + map[Name := {TextV(name)}]
  }

  lemma {:induction false} PortSays(
      db: Database, ps: seq<Piece>, ids: seq<Uuid>, k: nat, end: Exec, name: string, ifaceType: string, vlans: Vlans)
    requires Inv(db) && Legal(db, ps) && FreshIds(db, ids, 0) && TotalInserted(ps) <= |ids|
    requires k < |ps| && ps[k].NewPort? && Says(ps[k].port, name, vlans)
    requires ps[k].iface == TypedInterface(name, ifaceType)
    requires Run(Exec(db, map[], 0), Compile(ps, 0), ids) == Some(end)
    ensures PortAt(end.db, ps[k].bridge, ids, TotalInserted(ps[..k]), name, ifaceType, vlans)
  {
    PortsOfRun(db, ps, ids, k, end);
    AttachedOfRun(db, ps, ids, k, end);
    PortSeen(end.db, ps[k], ids, TotalInserted(ps[..k]), name, ifaceType, vlans);
  }

  lemma {:induction false} PortSeen(
      db: Database, p: Piece, ids: seq<Uuid>, c: nat, name: string, ifaceType: string, vlans: Vlans)
    requires p.NewPort? && PlainPiece(p) && c + 2 <= |ids| && HasPort(db, p, ids, c)
    requires OnBridge(db, p.bridge, ids[c + 1]) && Says(p.port, name, vlans)
    requires p.iface == TypedInterface(name, ifaceType)
    ensures PortAt(db, p.bridge, ids, c, name, ifaceType, vlans)
  {
    InterfaceValues(name, ifaceType);
    assert PlainValues(p.port)[Interfaces := {Id(ids[c])}]
        == VlanColumns(vlans) + map[Name := {TextV(name)}, Interfaces := {Id(ids[c])}];
  }

  lemma {:induction false} PatchSays(
      db: Database, ps: seq<Piece>, ids: seq<Uuid>, k: nat, end: Exec, name: string, peer: string, vlans: Vlans)
    requires Inv(db) && Legal(db, ps) && FreshIds(db, ids, 0) && TotalInserted(ps) <= |ids|
    requires k < |ps| && ps[k].NewPort? && Says(ps[k].port, name, vlans) && ps[k].iface == PatchInterface(name, peer)
    requires Run(Exec(db, map[], 0), Compile(ps, 0), ids) == Some(end)
    ensures PatchAt(end.db, ps[k].bridge, ids, TotalInserted(ps[..k]), name, peer, vlans)
  {
    PortsOfRun(db, ps, ids, k, end);
    AttachedOfRun(db, ps, ids, k, end);
    PatchSeen(end.db, ps[k], ids, TotalInserted(ps[..k]), name, peer, vlans);
  }

  lemma {:induction false} PatchSeen(
      db: Database, p: Piece, ids: seq<Uuid>, c: nat, name: string, peer: string, vlans: Vlans)
    requires p.NewPort? && PlainPiece(p) && c + 2 <= |ids| && HasPort(db, p, ids, c)
    requires OnBridge(db, p.bridge, ids[c + 1]) && Says(p.port, name, vlans) && p.iface == PatchInterface(name, peer)
    ensures PatchAt(db, p.bridge, ids, c, name, peer, vlans)
  {
    PeerWritten(db, p, ids, c, name, peer);
    assert PlainValues(p.port)[Interfaces := {Id(ids[c])}]
        == VlanColumns(vlans) + map[Name := {TextV(name)}, Interfaces := {Id(ids[c])}];
  }

  lemma {:induction false} UntaggedSays(name: string)
    ensures Says(map[Name := One(Text(name))], name, Untagged)
  {
  }

  lemma {:induction false} AccessSays(name: string, vlan: nat)
    ensures Says(map[Name := One(Text(name)), Tag := One(Num(vlan))], name, Access(vlan))
  {
  }

  lemma {:induction false} AllVlansSays(name: string)
    ensures Says(map[Name := One(Text(name)), VlanMode := One(Text("trunk"))], name, AllVlans)
  {
  }

  lemma {:induction false} OnlySays(name: string, vlans: seq<nat>)
    ensures Says(map[Name := One(Text(name)), VlanMode := One(Text("trunk")), Trunks := VlanSet(vlans)], name,
              Only(vlans))
  {
    VlanValues(vlans);
  }

  /** What `add_port` has written: a port without VLAN settings, and its interface of the given type. */
  lemma {:induction false} PlainPortStands(db: Database, ps: seq<Piece>, ids: seq<Uuid>, k: nat, end: Exec,
        bridge: string, name: string, ifaceType: string)
    requires Inv(db) && Legal(db, ps) && FreshIds(db, ids, 0) && TotalInserted(ps) <= |ids|
    requires k < |ps| && ps[k] == PlainPort(bridge, name, ifaceType)
    requires Run(Exec(db, map[], 0), Compile(ps, 0), ids) == Some(end)
    ensures PortAt(end.db, bridge, ids, TotalInserted(ps[..k]), name, ifaceType, Untagged)
  {
    UntaggedSays(name);
    PortSays(db, ps, ids, k, end, name, ifaceType, Untagged);
  }

  /** What `add_vlan_port` has written: the port has the VLAN as its tag. */
  lemma {:induction false} VlanPortStands(db: Database, ps: seq<Piece>, ids: seq<Uuid>, k: nat, end: Exec,
        bridge: string, name: string, ifaceType: string, vlan: nat)
    requires Inv(db) && Legal(db, ps) && FreshIds(db, ids, 0) && TotalInserted(ps) <= |ids|
    requires k < |ps| && ps[k] == VlanPort(bridge, name, ifaceType, vlan)
    requires Run(Exec(db, map[], 0), Compile(ps, 0), ids) == Some(end)
    ensures PortAt(end.db, bridge, ids, TotalInserted(ps[..k]), name, ifaceType, Access(vlan))
  {
    AccessSays(name, vlan);
    PortSays(db, ps, ids, k, end, name, ifaceType, Access(vlan));
  }

  /** What one end of `add_patch_ports` has written. */
  lemma {:induction false} PatchPortStands(db: Database, ps: seq<Piece>, ids: seq<Uuid>, k: nat, end: Exec,
        bridge: string, name: string, peer: string)
    requires Inv(db) && Legal(db, ps) && FreshIds(db, ids, 0) && TotalInserted(ps) <= |ids|
    requires k < |ps| && ps[k] == PatchPort(bridge, name, peer)
    requires Run(Exec(db, map[], 0), Compile(ps, 0), ids) == Some(end)
    ensures PatchAt(end.db, bridge, ids, TotalInserted(ps[..k]), name, peer, Untagged)
  {
    UntaggedSays(name);
    PatchSays(db, ps, ids, k, end, name, peer, Untagged);
  }

  /** What one end of `add_trunk_patch_ports` has written: a trunk of exactly the given VLANs. */
  lemma {:induction false} TrunkPatchPortStands(db: Database, ps: seq<Piece>, ids: seq<Uuid>, k: nat, end: Exec,
        bridge: string, name: string, peer: string, vlans: seq<nat>)
    requires Inv(db) && Legal(db, ps) && FreshIds(db, ids, 0) && TotalInserted(ps) <= |ids|
    requires k < |ps| && ps[k] == TrunkPatchPort(bridge, name, peer, vlans)
    requires Run(Exec(db, map[], 0), Compile(ps, 0), ids) == Some(end)
    ensures PatchAt(end.db, bridge, ids, TotalInserted(ps[..k]), name, peer, Only(vlans))
  {
    OnlySays(name, vlans);
    PatchSays(db, ps, ids, k, end, name, peer, Only(vlans));
  }

  // ---------------------------------------------------------------- fail modes

  /** The fail mode of every bridge with the name, if it has one. */
  ghost predicate FailModes(db: Database, bridge: string, mode: Option<set<Value>>) {
    forall u :: HasName(db, u, Bridge, bridge) ==>
      (if FailMode in db[u].cols then Some(db[u].cols[FailMode]) else None) == mode
  }

  /** What a list of pieces makes of the fail mode of a bridge: the last setting since it was created, if any. */
  function ModeAfter(ps: seq<Piece>, bridge: string, mode: Option<set<Value>>): Option<set<Value>> {
    if ps == [] then mode
    else
      var p := ps[|ps| - 1];
      if p.SetFailMode? && p.bridge == bridge then Some({TextV(p.mode)})
      else if p == NewBridge(bridge) then None
      else ModeAfter(ps[..|ps| - 1], bridge, mode)
  }

  lemma {:induction false} ModeAfterPiece(
      p: Piece, db: Database, ids: seq<Uuid>, c: nat, bridge: string, mode: Option<set<Value>>)
    requires PlainPiece(p) && FreshIds(db, ids, c) && c + Inserted(p) <= |ids| && FailModes(db, bridge, mode)
    requires p == NewBridge(bridge) ==> Unused(db, bridge)
    ensures FailModes(PieceDb(p, db, ids, c), bridge, ModeAfter([p], bridge, mode))
  {
    var after := PieceDb(p, db, ids, c);
    assert [p][..0] == [];
    forall u | HasName(after, u, Bridge, bridge)
      ensures (if FailMode in after[u].cols then Some(after[u].cols[FailMode]) else None)
              == ModeAfter([p], bridge, mode)
    {
      NamesAfter(p, db, ids, c, u, bridge);
      if u in db {
        assert HasName(db, u, Bridge, bridge);
      }
    }
  }

  lemma {:induction false} ModeAfterSnoc(ps: seq<Piece>, bridge: string, mode: Option<set<Value>>)
    requires ps != []
    ensures var n := |ps| - 1;
            ModeAfter(ps, bridge, mode) == ModeAfter([ps[n]], bridge, ModeAfter(ps[..n], bridge, mode))
  {
  }

  /** Fail modes after a run: those set last stay, and no other piece changes them. */
  lemma {:induction false} FailModesOfRun(
      db: Database, ps: seq<Piece>, ids: seq<Uuid>, end: Exec, bridge: string, mode: Option<set<Value>>)
    requires Inv(db) && Legal(db, ps) && FreshIds(db, ids, 0) && TotalInserted(ps) <= |ids|
    requires FailModes(db, bridge, mode)
    requires Run(Exec(db, map[], 0), Compile(ps, 0), ids) == Some(end)
    ensures FailModes(end.db, bridge, ModeAfter(ps, bridge, mode))
    decreases |ps|
  {
    if ps != [] {
      var n := |ps| - 1;
      var mid := LastPiece(db, ps, ids, end);
      FailModesOfRun(db, ps[..n], ids, mid, bridge, mode);
      ModeAfterPiece(ps[n], mid.db, ids, mid.next, bridge, ModeAfter(ps[..n], bridge, mode));
      ModeAfterSnoc(ps, bridge, mode);
    }
  }

  // ---------------------------------------------------------------- controllers

  /** The bridges with the name have the new controller and no other; nothing else changes. */
  ghost predicate ControllerIs(before: Database, after: Database, controller: Uuid, bridge: string, target: string) {
    && after.Keys == before.Keys + {controller} && controller !in before
    && after[controller] == DbRow(Controller, map[Target := {TextV(target)}])
    && forall u :: u in before ==>
         after[u] == if HasName(before, u, Bridge, bridge)
           then before[u].(cols := before[u].cols[Controllers := {Id(controller)}]) else before[u]
  }

  /** What `set_controller` has done. */
  lemma {:induction false} ControllerStands(s: Exec, bridge: string, target: string, ids: seq<Uuid>)
    requires Tracks(s, ids) && FreshIds(s.db, ids, s.next) && s.next + 1 <= |ids|
    ensures var r := Run(s, PieceOps(NewController(bridge, target), s.next), ids);
            r.Some? && ControllerIs(s.db, r.value.db, ids[s.next], bridge, target)
  {
    NewControllerRuns(s, bridge, target, ids);
    ControllerWritten(s.db, bridge, target, ids, s.next);
  }

  lemma {:induction false} ControllerWritten(db: Database, bridge: string, target: string, ids: seq<Uuid>, c: nat)
    requires FreshIds(db, ids, c) && c + 1 <= |ids|
    ensures ControllerIs(db, PieceDb(NewController(bridge, target), db, ids, c), ids[c], bridge, target)
  {
    var cells: Cells := map[Controllers := {Id(ids[c])}];
    forall u | u in db
      ensures db[u].cols + cells == db[u].cols[Controllers := {Id(ids[c])}]
    {
    }
  }
}
