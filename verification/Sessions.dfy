/** session.py run to completion: `start_session`, `end_session` and the reaper over the kernel's
    tables, the shared target and the active_session table. What an admin session does to image files
    and versions is in ImageProfiles; here are its loop, its target entries and its row. */
module Sessions {
  import opened Bytes
  import opened Lio
  import opened SessionNames

  type Path = bytes

  datatype LoopFile = LoopFile(path: Path, readonly: bool)
  datatype SnapshotTable = SnapshotTable(origin: nat, overlay: nat)

  /** One row of active_session: a client's (readonly = 1), or an admin's, whose snapshot and overlay
      columns are NULL. */
  datatype Row =
    | ClientRow(iqn: Iqn, clientMac: bytes, version: nat, snapshotName: Name, baseLoop: nat,
        overlayLoop: nat, overlayPath: Path)
    | AdminRow(iqn: Iqn, clientMac: bytes, version: nat, baseLoop: nat)

  datatype ClientSession = ClientSession(
    iqn: Iqn, lunName: Name, backing: Dev, baseLoop: nat, profileId: int, version: nat,
    overlayLoop: nat, overlayPath: Path, snapshotName: Name)

  /** `overlays` are the files of the overlay directory with what they hold. */
  datatype Host = Host(
    loops: map<nat, LoopFile>, snapshots: map<Name, SnapshotTable>, overlays: map<Path, bytes>,
    rows: seq<Row>, tpg: Tpg)

  /** The call of a client start that raises for reasons of its own: the image lookup, either loop,
      the overlay file (before it is opened, or once it is empty), the snapshot, a call to the target,
      or the INSERT. */
  datatype StartFault =
    | NoFault | LookupFails | BaseLoopFails | OverlayFails | OverlayGrowFails | OverlayLoopFails
    | SnapshotFails | TargetFails(at: LunFault) | RowFails

  /** What a start is asked for: the client, its image, and the numbers the kernel is about to give. */
  datatype Request = Request(
    iqn: Iqn, clientMac: bytes, profileId: int, version: nat, image: Path, imageSize: nat,
    base: nat, over: nat, lun: nat, fault: StartFault)

  function Without(rows: seq<Row>, iqn: Iqn): seq<Row> {
    if |rows| == 0 then []
    else (if rows[0].iqn == iqn then [] else [rows[0]]) + Without(rows[1..], iqn)
  }

  /** INSERT OR REPLACE */
  function Put(rows: seq<Row>, row: Row): seq<Row> { Without(rows, row.iqn) + [row] }

  function Built(q: Request): ClientSession {
    ClientSession(q.iqn, SnapshotName(q.iqn), Mapper(SnapshotName(q.iqn)), q.base, q.profileId, q.version,
      q.over, OverlayName(q.iqn), SnapshotName(q.iqn))
  }

  function RowOf(q: Request): Row {
    ClientRow(q.iqn, q.clientMac, q.version, SnapshotName(q.iqn), q.base, q.over, OverlayName(q.iqn))
  }

  /** `_session_from_active_row`, for a row of a client session. */
  function FromRow(row: Row): ClientSession
    requires row.ClientRow?
  {
    ClientSession(row.iqn, row.snapshotName, Mapper(row.snapshotName), row.baseLoop, -1, row.version,
      row.overlayLoop, row.overlayPath, row.snapshotName)
  }

  function Start(h: Host, q: Request): (Host, Option<ClientSession>) {
    var name, overlay := SnapshotName(q.iqn), OverlayName(q.iqn);
    if q.fault.LookupFails? || q.fault.BaseLoopFails? then (h, None)
    else
      var a := h.(loops := h.loops[q.base := LoopFile(q.image, true)]);
      if q.fault.OverlayFails? then (a, None)
      else if q.fault.OverlayGrowFails? then (a.(overlays := h.overlays[overlay := []]), None)
      else
        var b := a.(overlays := h.overlays[overlay := Zeros(q.imageSize)]);
        if q.fault.OverlayLoopFails? then (b, None)
        else
          var c := b.(loops := a.loops[q.over := LoopFile(overlay, false)]);
          if q.fault.SnapshotFails? || name in h.snapshots then (c, None)
          else
            var d := c.(snapshots := h.snapshots[name := SnapshotTable(q.base, q.over)]);
            var (tpg, number) := Register(h.tpg, q.iqn, name, Mapper(name), q.lun, TargetFault(q));
            if number.None? || q.fault.RowFails? then (d.(tpg := tpg), None)
            else (d.(tpg := tpg, rows := Put(h.rows, RowOf(q))), Some(Built(q)))
  }

  function TargetFault(q: Request): Option<LunFault> { if q.fault.TargetFails? then Some(q.fault.at) else None }

  function End(h: Host, s: ClientSession): Host {
    Host(h.loops - {s.overlayLoop} - {s.baseLoop}, h.snapshots - {s.snapshotName}, h.overlays - {s.overlayPath},
      Without(h.rows, s.iqn), Remove(h.tpg, s.iqn, s.lunName))
  }

  /** What an admin start is asked for, once its image has been copied to `file`. */
  datatype AdminRequest = AdminRequest(
    iqn: Iqn, clientMac: bytes, profile: nat, base: nat, version: nat, file: Path, device: nat, lun: nat,
    fault: Option<LunFault>)

  function LunName(q: AdminRequest): Name { AdminLunName(q.profile, q.version) }

  function StartAdmin(h: Host, q: AdminRequest): (Host, bool) {
    var attached := h.loops[q.device := LoopFile(q.file, false)];
    var (tpg, number) := Register(h.tpg, q.iqn, LunName(q), LoopDevice(q.device), q.lun, q.fault);
    (h.(loops := attached, tpg := tpg,
        rows := if number.Some? then Put(h.rows, AdminRow(q.iqn, q.clientMac, q.version, q.device)) else h.rows),
     number.Some?)
  }

  function EndAdmin(h: Host, q: AdminRequest): Host {
    h.(loops := h.loops - {q.device}, rows := Without(h.rows, q.iqn), tpg := Remove(h.tpg, q.iqn, LunName(q)))
  }

  /** The reaper's loop over the rows it selected. */
  function Reap(h: Host, rows: seq<Row>, connected: set<Iqn>): (Host, seq<Iqn>)
    decreases |rows|
  {
    if |rows| == 0 then (h, [])
    else if !rows[0].ClientRow? || rows[0].iqn in connected then Reap(h, rows[1..], connected)
    else
      var (g, reaped) := Reap(End(h, FromRow(rows[0])), rows[1..], connected);
      (g, [rows[0].iqn] + reaped)
  }

  class Orchestrator {
    const target: SharedTarget
    var loops: map<nat, LoopFile>
    var snapshots: map<Name, SnapshotTable>
    var overlays: map<Path, bytes>
    var rows: seq<Row>

    function View(): Host
      reads this, target
    {
      Host(loops, snapshots, overlays, rows, target.View())
    }

    constructor (target: SharedTarget)
      ensures this.target == target && View() == Host(map[], map[], map[], [], target.View())
    {
      this.target := target;
      loops, snapshots, overlays, rows := map[], map[], map[], [];
    }

    method AttachLoop(device: nat, path: Path, readonly: bool)
      requires device !in loops
      modifies this`loops
      ensures loops == old(loops)[device := LoopFile(path, readonly)]
    {
      loops := loops[device := LoopFile(path, readonly)];
    }

    method DeleteRow(iqn: Iqn)
      modifies this`rows
      ensures rows == Without(old(rows), iqn)
    {
      var kept: seq<Row> := [];
      for i := 0 to |rows|
        invariant rows == old(rows)
        invariant kept + Without(rows[i..], iqn) == Without(rows, iqn)
      {
        assert rows[i..][1..] == rows[i + 1..];
        if rows[i].iqn != iqn {
          kept := kept + [rows[i]];
        }
      }
      rows := kept;
    }

    /** Opening the file for writing empties it, whoever is using it. */
    method CreateSparseOverlay(q: Request) returns (made: bool)
      modifies this`overlays
      ensures made == !(q.fault.OverlayFails? || q.fault.OverlayGrowFails?)
      ensures overlays == if q.fault.OverlayFails? then old(overlays)
        else old(overlays)[OverlayName(q.iqn) := if made then Zeros(q.imageSize) else []]
    {
      if q.fault.OverlayFails? {
        return false;
      }
      overlays := overlays[OverlayName(q.iqn) := []];
      if q.fault.OverlayGrowFails? {
        return false;
      }
      overlays := overlays[OverlayName(q.iqn) := Zeros(q.imageSize)];
      assert overlays == old(overlays)[OverlayName(q.iqn) := Zeros(q.imageSize)];
      made := true;
    }

    method StartClientSession(q: Request) returns (s: Option<ClientSession>)
      requires q.base != q.over && q.base !in loops && q.over !in loops && q.lun !in target.luns
      modifies this, target
      ensures (View(), s) == Start(old(View()), q)
    {
      if q.fault.LookupFails? || q.fault.BaseLoopFails? {
        return None;
      }
      AttachLoop(q.base, q.image, true);
      var made := CreateSparseOverlay(q);
      if !made || q.fault.OverlayLoopFails? {
        return None;
      }
      AttachLoop(q.over, OverlayName(q.iqn), false);
      var name := SnapshotName(q.iqn);
      if q.fault.SnapshotFails? || name in snapshots {
        return None;
      }
      snapshots := snapshots[name := SnapshotTable(q.base, q.over)];
      var number := target.RegisterLun(q.iqn, name, Mapper(name), q.lun, TargetFault(q));
      if number.None? || q.fault.RowFails? {
        return None;
      }
      DeleteRow(q.iqn);
      rows := rows + [RowOf(q)];
      s := Some(Built(q));
    }

    method EndSession(s: ClientSession)
      requires target.View().Valid()
      modifies this, target
      ensures View() == End(old(View()), s) && target.View().Valid()
    {
      RemoveValid(target.View(), s.iqn, s.lunName);
      target.RemoveLun(s.iqn, s.lunName);
      DeleteRow(s.iqn);
      snapshots := snapshots - {s.snapshotName};
      loops := loops - {s.overlayLoop};
      loops := loops - {s.baseLoop};
      overlays := overlays - {s.overlayPath};
    }

    method StartAdminSession(q: AdminRequest) returns (started: bool)
      requires q.device !in loops && q.lun !in target.luns
      modifies this, target
      ensures (View(), started) == StartAdmin(old(View()), q)
    {
      AttachLoop(q.device, q.file, false);
      var number := target.RegisterLun(q.iqn, AdminLunName(q.profile, q.version), LoopDevice(q.device), q.lun, q.fault);
      if number.None? {
        return false;
      }
      DeleteRow(q.iqn);
      rows := rows + [AdminRow(q.iqn, q.clientMac, q.version, q.device)];
      started := true;
    }

    method EndAdminSession(q: AdminRequest)
      requires target.View().Valid()
      modifies this, target
      ensures View() == EndAdmin(old(View()), q) && target.View().Valid()
    {
      RemoveValid(target.View(), q.iqn, LunName(q));
      target.RemoveLun(q.iqn, AdminLunName(q.profile, q.version));
      DeleteRow(q.iqn);
      loops := loops - {q.device};
    }

    method ReapDisconnected(connected: set<Iqn>) returns (reaped: seq<Iqn>)
      requires target.View().Valid()
      modifies this, target
      ensures (View(), reaped) == Reap(old(View()), old(rows), connected) && target.View().Valid()
    {
      var selected := rows;
      reaped := [];
      assert selected[0..] == selected && forall rest: seq<Iqn> :: [] + rest == rest;
      for i := 0 to |selected|
        invariant target.View().Valid()
        invariant var (g, rest) := Reap(View(), selected[i..], connected);
          (g, reaped + rest) == Reap(old(View()), selected, connected)
      {
        assert selected[i..][1..] == selected[i + 1..];
        if !selected[i].ClientRow? || selected[i].iqn in connected {
          continue;
        }
        ghost var rest := Reap(View(), selected[i..], connected).1;
        EndSession(FromRow(selected[i]));
        assert rest == [selected[i].iqn] + Reap(View(), selected[i + 1..], connected).1;
        assert reaped + rest == reaped + [selected[i].iqn] + Reap(View(), selected[i + 1..], connected).1;
        reaped := reaped + [selected[i].iqn];
      }
      assert selected[|selected|..] == [] && reaped + [] == reaped;
    }
  }

  // ---------- what they mean ----------

  /** Nothing of this client is left over anywhere, the numbers are free and no call raises. */
  ghost predicate Clear(h: Host, q: Request) {
    && q.fault.NoFault?
    && q.base != q.over && q.base !in h.loops && q.over !in h.loops && q.lun !in h.tpg.luns
    && SnapshotName(q.iqn) !in h.snapshots && OverlayName(q.iqn) !in h.overlays
    && SnapshotName(q.iqn) !in h.tpg.stores && q.iqn !in h.tpg.acls
    && forall r :: r in h.rows ==> r.iqn != q.iqn
  }

  lemma {:induction false} WithoutAbsent(rows: seq<Row>, iqn: Iqn)
    requires forall r :: r in rows ==> r.iqn != iqn
    ensures Without(rows, iqn) == rows
  {
    if |rows| > 0 { WithoutAbsent(rows[1..], iqn); }
  }

  lemma {:induction false} WithoutAppend(a: seq<Row>, b: seq<Row>, iqn: Iqn)
    ensures Without(a + b, iqn) == Without(a, iqn) + Without(b, iqn)
  {
    if |a| == 0 {
      assert a + b == b;
    } else {
      assert (a + b)[1..] == a[1..] + b;
      WithoutAppend(a[1..], b, iqn);
    }
  }

  lemma RemoveHead(first: Row, rest: seq<Row>)
    requires forall r :: r in rest ==> r.iqn != first.iqn
    ensures Without([first] + rest, first.iqn) == rest
  {
    assert ([first] + rest)[1..] == rest;
    WithoutAbsent(rest, first.iqn);
  }

  lemma RemoveMiddle(done: seq<Row>, first: Row, rest: seq<Row>)
    requires forall r :: r in done || r in rest ==> r.iqn != first.iqn
    ensures Without(done + [first] + rest, first.iqn) == done + rest
  {
    WithoutAppend(done, [first] + rest, first.iqn);
    WithoutAbsent(done, first.iqn);
    RemoveHead(first, rest);
    assert done + [first] + rest == done + ([first] + rest);
  }

  lemma PutThenRemove(rows: seq<Row>, row: Row)
    requires forall r :: r in rows ==> r.iqn != row.iqn
    ensures Put(rows, row) == rows + [row] && Without(Put(rows, row), row.iqn) == rows
  {
    WithoutAbsent(rows, row.iqn);
    RemoveMiddle(rows, row, []);
    assert rows + [row] + [] == rows + [row] && rows + [] == rows;
  }

  lemma AddThenRemove<K, V>(m: map<K, V>, k: K, v: V)
    requires k !in m
    ensures m[k := v] - {k} == m
  {
  }

  lemma AddThenRemoveOther<K, V>(m: map<K, V>, k: K, v: V, other: K)
    requires k != other
    ensures m[k := v] - {other} == (m - {other})[k := v]
  {
  }

  lemma StartOfClear(h: Host, q: Request)
    requires Clear(h, q)
    ensures var name := SnapshotName(q.iqn);
      Start(h, q) == (Host(
        h.loops[q.base := LoopFile(q.image, true)][q.over := LoopFile(OverlayName(q.iqn), false)],
        h.snapshots[name := SnapshotTable(q.base, q.over)], h.overlays[OverlayName(q.iqn) := Zeros(q.imageSize)],
        Put(h.rows, RowOf(q)), Register(h.tpg, q.iqn, name, Mapper(name), q.lun, None).0), Some(Built(q)))
  {
  }

  /** Ending a session undoes its start exactly, on every table at once, and ending the session that
      the reaper rebuilds from the stored row does the same. */
  lemma EndUndoesStart(h: Host, q: Request)
    requires h.tpg.Valid() && Clear(h, q)
    ensures Start(h, q).1 == Some(Built(q))
    ensures End(Start(h, q).0, Built(q)) == h
    ensures RowOf(q) in Start(h, q).0.rows && End(Start(h, q).0, FromRow(RowOf(q))) == h
  {
    StartOfClear(h, q);
    var name, base, over := SnapshotName(q.iqn), LoopFile(q.image, true), LoopFile(OverlayName(q.iqn), false);
    AddThenRemove(h.loops[q.base := base], q.over, over);
    AddThenRemove(h.loops, q.base, base);
    AddThenRemove(h.snapshots, name, SnapshotTable(q.base, q.over));
    AddThenRemove(h.overlays, OverlayName(q.iqn), Zeros(q.imageSize));
    RemoveUndoesRegister(h.tpg, q.iqn, name, Mapper(name), q.lun);
    PutThenRemove(h.rows, RowOf(q));
  }

  // ---------- what a row says ----------

  /** The row of a client session that came up says where everything of it is: the base loop read-only on the
      image, the overlay loop writable on a blank overlay of the image's size, the snapshot of the one over
      the other, and that snapshot as the only disk its initiator sees. The session rebuilt from it is the
      one that was started, its profile aside. */
  lemma RowDescribesSession(h: Host, q: Request)
    requires q.base != q.over && Start(h, q).1.Some?
    ensures var (g, s) := Start(h, q);
      && |g.rows| > 0
      && var row := g.rows[|g.rows| - 1];
         && row.ClientRow? && row.iqn == q.iqn && row.clientMac == q.clientMac && row.version == q.version
         && row.baseLoop in g.loops && g.loops[row.baseLoop] == LoopFile(q.image, true)
         && row.overlayLoop in g.loops && g.loops[row.overlayLoop] == LoopFile(row.overlayPath, false)
         && row.overlayPath in g.overlays && g.overlays[row.overlayPath] == Zeros(q.imageSize)
         && row.snapshotName in g.snapshots && g.snapshots[row.snapshotName] == SnapshotTable(row.baseLoop, row.overlayLoop)
         && Sees(g.tpg, q.iqn) == Some(row.snapshotName)
         && row.snapshotName in g.tpg.stores && g.tpg.stores[row.snapshotName] == Mapper(row.snapshotName)
         && s.value.profileId == q.profileId && FromRow(row) == s.value.(profileId := -1)
         && g.rows[..|g.rows| - 1] == Without(h.rows, q.iqn)
  {
    RegisteredIsShown(h.tpg, q.iqn, SnapshotName(q.iqn), Mapper(SnapshotName(q.iqn)), q.lun, TargetFault(q));
  }

  /** The rows without an initiator's are the others' in their order. */
  lemma {:induction false} WithoutIs(rows: seq<Row>, iqn: Iqn)
    ensures forall r :: r in Without(rows, iqn) <==> r in rows && r.iqn != iqn
    ensures (forall r :: r in rows ==> r.iqn != iqn) ==> Without(rows, iqn) == rows
  {
    if |rows| > 0 {
      WithoutIs(rows[1..], iqn);
      assert forall r :: r in rows <==> r == rows[0] || r in rows[1..];
    }
  }

  /** An admin session's loop is writable on its file, and that loop is the disk its initiator sees. */
  lemma AdminRowDescribesSession(h: Host, q: AdminRequest)
    requires StartAdmin(h, q).1
    ensures var g := StartAdmin(h, q).0;
      && |g.rows| > 0 && g.rows[..|g.rows| - 1] == Without(h.rows, q.iqn)
      && var row := g.rows[|g.rows| - 1];
         && row.AdminRow? && row.iqn == q.iqn && row.clientMac == q.clientMac && row.version == q.version
         && row.baseLoop in g.loops && g.loops[row.baseLoop] == LoopFile(q.file, false)
         && Sees(g.tpg, q.iqn) == Some(LunName(q)) && LunName(q) in g.tpg.stores && g.tpg.stores[LunName(q)] == LoopDevice(row.baseLoop)
  {
    RegisteredIsShown(h.tpg, q.iqn, LunName(q), LoopDevice(q.device), q.lun, q.fault);
  }

  ghost predicate NameTaken(h: Host, q: Request) {
    SnapshotName(q.iqn) in h.snapshots || SnapshotName(q.iqn) in h.tpg.stores || (q.iqn in h.tpg.acls && h.tpg.acls[q.iqn].Some?)
  }

  /** The loops by the time the start raises or returns. */
  function LoopsOf(loops: map<nat, LoopFile>, q: Request): map<nat, LoopFile> {
    if q.fault.LookupFails? || q.fault.BaseLoopFails? then loops
    else if q.fault.OverlayFails? || q.fault.OverlayGrowFails? || q.fault.OverlayLoopFails? then
      loops[q.base := LoopFile(q.image, true)]
    else loops[q.base := LoopFile(q.image, true)][q.over := LoopFile(OverlayName(q.iqn), false)]
  }

  /** The start gets as far as opening its overlay file. */
  predicate OpensOverlay(q: Request) { !q.fault.LookupFails? && !q.fault.BaseLoopFails? && !q.fault.OverlayFails? }

  predicate ReachesSnapshot(q: Request) { OpensOverlay(q) && !q.fault.OverlayGrowFails? && !q.fault.OverlayLoopFails? }

  predicate ReachesTarget(h: Host, q: Request) {
    ReachesSnapshot(q) && !q.fault.SnapshotFails? && SnapshotName(q.iqn) !in h.snapshots
  }

  predicate NumbersLun(h: Host, q: Request) {
    ReachesTarget(h, q) && SnapshotName(q.iqn) !in h.tpg.stores
    && TargetFault(q) != Some(StoreFails) && TargetFault(q) != Some(LunFails)
  }

  /** A start fails exactly when one of its calls raises by itself or on a name: the snapshot or the
      backstore exists, or the initiator has a LUN mapped. Then it writes no row for a reaper to find, and
      everything it made stays: the loops it attached, an overlay emptied before it, the snapshot, and at the
      target a backstore and a LUN that no initiator is shown, unless it was the INSERT that raised. */
  lemma StartFailsIff(h: Host, q: Request)
    requires h.tpg.Valid() && q.lun !in h.tpg.luns
    ensures Start(h, q).1.None? <==> !q.fault.NoFault? || NameTaken(h, q)
    ensures var (g, s) := Start(h, q); s.None? ==>
      && g.rows == h.rows && g.loops == LoopsOf(h.loops, q)
      && (g.overlays == if !OpensOverlay(q) then h.overlays
            else h.overlays[OverlayName(q.iqn) := if q.fault.OverlayGrowFails? then [] else Zeros(q.imageSize)])
      && (g.snapshots == if ReachesTarget(h, q) then h.snapshots[SnapshotName(q.iqn) := SnapshotTable(q.base, q.over)]
                         else h.snapshots)
    ensures var (g, s) := Start(h, q); s.None? ==>
      && (!ReachesTarget(h, q) ==> g.tpg == h.tpg)
      && g.tpg.stores.Keys == h.tpg.stores.Keys + (if ReachesTarget(h, q) && TargetFault(q) != Some(StoreFails)
                                                  then {SnapshotName(q.iqn)} else {})
      && g.tpg.luns.Keys == h.tpg.luns.Keys + (if NumbersLun(h, q) then {q.lun} else {})
      && (forall other :: Sees(g.tpg, other) == Sees(h.tpg, other) || (q.fault.RowFails? && other == q.iqn))
  {
    var name := SnapshotName(q.iqn);
    if ReachesTarget(h, q) {
      RegisterFailsIff(h.tpg, q.iqn, name, Mapper(name), q.lun, TargetFault(q));
      RegisterKeys(h.tpg, q.iqn, name, Mapper(name), q.lun, TargetFault(q));
      if Start(h, q).1.None? {
        forall other ensures Sees(Start(h, q).0.tpg, other) == Sees(h.tpg, other) || (q.fault.RowFails? && other == q.iqn) {
          RegisterShows(h.tpg, q.iqn, name, Mapper(name), q.lun, TargetFault(q), other);
          if !q.fault.RowFails? { RefusalShowsNothing(h.tpg, q.iqn, name, Mapper(name), q.lun, TargetFault(q)); }
        }
      }
    }
  }

  lemma RegisterKeys(t: Tpg, iqn: Iqn, name: Name, dev: Dev, number: nat, fault: Option<LunFault>)
    ensures var u := Register(t, iqn, name, dev, number, fault).0;
      && u.stores.Keys == t.stores.Keys + (if fault != Some(StoreFails) then {name} else {})
      && u.luns.Keys == t.luns.Keys
           + (if name !in t.stores && fault != Some(StoreFails) && fault != Some(LunFails) then {number} else {})
  {
  }

  lemma RefusalShowsNothing(t: Tpg, iqn: Iqn, name: Name, dev: Dev, number: nat, fault: Option<LunFault>)
    requires t.Valid() && number !in t.luns && Register(t, iqn, name, dev, number, fault).1.None?
    ensures forall other :: Sees(Register(t, iqn, name, dev, number, fault).0, other) == Sees(t, other)
  {
  }

  lemma StartOverRunning(g: Host, again: Request)
    requires SnapshotName(again.iqn) in g.snapshots
    ensures var (after, s) := Start(g, again);
      && s.None? && after.loops == LoopsOf(g.loops, again)
      && after.snapshots == g.snapshots && after.tpg == g.tpg && after.rows == g.rows
      && after.overlays == if !OpensOverlay(again) then g.overlays
           else g.overlays[OverlayName(again.iqn) := if again.fault.OverlayGrowFails? then [] else Zeros(again.imageSize)]
  {
  }

  /** Once a client session is running, every further start for its IQN fails, and harms it: if it gets
      as far as the overlay file, all the client has written is gone, while the snapshot still uses that
      file. The session itself still ends, but the loops of the second start outlive it. */
  lemma SecondStartFails(h: Host, q: Request, again: Request, written: bytes)
    requires h.tpg.Valid() && Clear(h, q) && again.iqn == q.iqn
    requires again.base !in h.loops && again.over !in h.loops && {again.base, again.over} !! {q.base, q.over}
    ensures var overlay := OverlayName(q.iqn);
      var started := Start(h, q).0;
      var running := started.(overlays := started.overlays[overlay := written]);
      var (after, s) := Start(running, again);
      && s.None? && after.snapshots == running.snapshots && after.tpg == running.tpg && after.rows == running.rows
      && overlay in after.overlays
      && after.overlays[overlay] == (if !OpensOverlay(again) then written
                                     else if again.fault.OverlayGrowFails? then [] else Zeros(again.imageSize))
      && End(after, Built(q)) == h.(loops := LoopsOf(h.loops, again))
  {
    var overlay, started := OverlayName(q.iqn), Start(h, q).0;
    StartOfClear(h, q);
    EndUndoesStart(h, q);
    var running := started.(overlays := started.overlays[overlay := written]);
    StartOverRunning(running, again);
    var after := Start(running, again).0;
    OverlayGone(h.overlays, overlay, after.overlays);
    LoopsCommute(h.loops, q.base, LoopFile(q.image, true), q.over, LoopFile(overlay, false), again);
  }

  lemma LoopsCommute(loops: map<nat, LoopFile>, base: nat, x: LoopFile, over: nat, y: LoopFile, again: Request)
    requires base !in loops && over !in loops && {again.base, again.over} !! {base, over}
    ensures LoopsOf(loops[base := x][over := y], again) - {over} - {base} == LoopsOf(loops, again)
  {
    assert LoopsOf(loops[base := x][over := y], again) - {over} - {base} == LoopsOf(loops, again);
  }

  lemma OverlayGone(overlays: map<Path, bytes>, overlay: Path, after: map<Path, bytes>)
    requires overlay !in overlays && overlay in after && after - {overlay} == overlays - {overlay}
    ensures after - {overlay} == overlays
  {
    assert overlays - {overlay} == overlays;
  }

  /** A failed start that never made its snapshot does not stand in the way of the client's next start, which
      has the overlay file anew; only the failed one's loops stay. With the snapshot made, every further
      start fails. */
  lemma RetrySucceedsIff(h: Host, q: Request, again: Request)
    requires h.tpg.Valid() && !q.fault.NoFault? && Clear(h, again) && again.iqn == q.iqn
    requires q.base !in h.loops && q.over !in h.loops && {again.base, again.over} !! {q.base, q.over}
    ensures var (g, s) := Start(h, q);
      && s.None?
      && (Start(g, again).1.Some? <==> !ReachesTarget(h, q))
      && (Start(g, again).1.Some? ==>
            && Start(g, again).1 == Some(Built(again))
            && End(Start(g, again).0, Built(again)) == h.(loops := LoopsOf(h.loops, q)))
  {
    var g := Start(h, q).0;
    if ReachesTarget(h, q) {
      RegisterFailsIff(h.tpg, q.iqn, SnapshotName(q.iqn), Mapper(SnapshotName(q.iqn)), q.lun, TargetFault(q));
      StartOverRunning(g, again);
    } else {
      var clean := h.(loops := LoopsOf(h.loops, q));
      assert Clear(clean, again);
      OverlayIsMadeAnew(clean, g.overlays, again);
      EndUndoesStart(clean, again);
    }
  }

  lemma OverlayIsMadeAnew(h: Host, overlays: map<Path, bytes>, q: Request)
    requires Clear(h, q) && OverlayName(q.iqn) !in h.overlays && overlays - {OverlayName(q.iqn)} == h.overlays
    ensures Start(h.(overlays := overlays), q) == Start(h, q)
  {
    assert overlays[OverlayName(q.iqn) := Zeros(q.imageSize)] == h.overlays[OverlayName(q.iqn) := Zeros(q.imageSize)];
  }

  // ---------- admin sessions ----------

  ghost predicate AdminClear(h: Host, q: AdminRequest) {
    && q.fault.None? && q.device !in h.loops && q.lun !in h.tpg.luns && LunName(q) !in h.tpg.stores && q.iqn !in h.tpg.acls
    && forall r :: r in h.rows ==> r.iqn != q.iqn
  }

  lemma StartOfAdminClear(h: Host, q: AdminRequest)
    requires AdminClear(h, q)
    ensures StartAdmin(h, q) == (Host(h.loops[q.device := LoopFile(q.file, false)], h.snapshots, h.overlays,
              Put(h.rows, AdminRow(q.iqn, q.clientMac, q.version, q.device)),
              Tpg(h.tpg.stores[LunName(q) := LoopDevice(q.device)], h.tpg.luns[q.lun := LunName(q)], h.tpg.acls[q.iqn := Some(q.lun)])), true)
  {
  }

  /** Ending an admin session gives back its loop, its target entries and its row, and nothing else. */
  lemma AdminEndUndoesStart(h: Host, q: AdminRequest)
    requires h.tpg.Valid() && AdminClear(h, q)
    ensures StartAdmin(h, q).1 && EndAdmin(StartAdmin(h, q).0, q) == h
  {
    AddThenRemove(h.loops, q.device, LoopFile(q.file, false));
    RemoveUndoesRegister(h.tpg, q.iqn, LunName(q), LoopDevice(q.device), q.lun);
    PutThenRemove(h.rows, AdminRow(q.iqn, q.clientMac, q.version, q.device));
  }

  /** The target with the backstore and LUN of a registration refused at its mapping. */
  function Orphaned(t: Tpg, q: AdminRequest): Tpg {
    t.(stores := t.stores[LunName(q) := LoopDevice(q.device)], luns := t.luns[q.lun := LunName(q)])
  }

  lemma LunsKeepOrphans(t: Tpg, q: AdminRequest, name: Name)
    requires q.lun !in t.luns && LunName(q) != name
    ensures LunsWithout(Orphaned(t, q), name) == LunsWithout(t, name)[q.lun := LunName(q)]
  {
  }

  lemma RemoveKeepsOrphans(t: Tpg, q: AdminRequest, iqn: Iqn, name: Name)
    requires t.Valid() && q.lun !in t.luns && LunName(q) !in t.stores && LunName(q) != name
    ensures Remove(Orphaned(t, q), iqn, name) == Orphaned(Remove(t, iqn, name), q)
  {
    var u, v := Remove(Orphaned(t, q), iqn, name), Orphaned(Remove(t, iqn, name), q);
    LunsKeepOrphans(t, q, name);
    AddThenRemoveOther(t.stores, LunName(q), LoopDevice(q.device), name);
    forall other | other in t.acls && other != iqn ensures u.acls[other] == v.acls[other] {
      assert t.acls[other].Some? ==> t.acls[other].value != q.lun;
    }
    assert u.acls == v.acls;
  }

  lemma RefusedStart(h: Host, again: AdminRequest)
    requires again.fault.None? && LunName(again) !in h.tpg.stores && again.iqn in h.tpg.acls && h.tpg.acls[again.iqn].Some?
    ensures StartAdmin(h, again)
         == (h.(loops := h.loops[again.device := LoopFile(again.file, false)], tpg := Orphaned(h.tpg, again)), false)
  {
  }

  /** All sessions of one administrator share an initiator, so while one is open a second, on another
      profile, always fails. It leaves the first one as it was, but its own writable loop, backstore
      and LUN remain, with no row, even after the first session ends. */
  lemma SecondAdminStartFails(h: Host, q: AdminRequest, again: AdminRequest)
    requires h.tpg.Valid() && AdminClear(h, q) && AdminClear(h, again)
    requires again.iqn == q.iqn && again.profile != q.profile && again.device != q.device && again.lun != q.lun
    ensures var open := StartAdmin(h, q).0;
      var (after, started) := StartAdmin(open, again);
      && !started && after.rows == open.rows && after.tpg == Orphaned(open.tpg, again)
      && EndAdmin(after, q) == h.(loops := h.loops[again.device := LoopFile(again.file, false)], tpg := Orphaned(h.tpg, again))
  {
    if LunName(q) == LunName(again) { AdminNamesAreInjective(q.profile, q.version, again.profile, again.version); }
    var open := StartAdmin(h, q).0;
    StartOfAdminClear(h, q);
    AdminEndUndoesStart(h, q);
    RegisterValid(h.tpg, q.iqn, LunName(q), LoopDevice(q.device), q.lun, None);
    RefusedStart(open, again);
    RemoveKeepsOrphans(open.tpg, again, q.iqn, LunName(q));
    AddThenRemoveOther(open.loops, again.device, LoopFile(again.file, false), q.device);
  }

  // ---------- the reaper ----------

  predicate Doomed(r: Row, connected: set<Iqn>) { r.ClientRow? && r.iqn !in connected }

  function Keep(rows: seq<Row>, connected: set<Iqn>): seq<Row> {
    if |rows| == 0 then [] else (if Doomed(rows[0], connected) then [] else [rows[0]]) + Keep(rows[1..], connected)
  }

  function DoomedIqns(rows: seq<Row>, connected: set<Iqn>): seq<Iqn> {
    if |rows| == 0 then []
    else (if Doomed(rows[0], connected) then [rows[0].iqn] else []) + DoomedIqns(rows[1..], connected)
  }

  ghost predicate DistinctIqns(rows: seq<Row>) { forall i, j :: 0 <= i < j < |rows| ==> rows[i].iqn != rows[j].iqn }

  lemma {:induction false} KeptAreOriginal(rows: seq<Row>, connected: set<Iqn>)
    ensures forall r :: r in Keep(rows, connected) <==> r in rows && !Doomed(r, connected)
  {
    if |rows| > 0 {
      KeptAreOriginal(rows[1..], connected);
      assert forall r :: r in rows <==> r == rows[0] || r in rows[1..];
    }
  }

  lemma DistinctParts(done: seq<Row>, first: Row, rest: seq<Row>)
    requires DistinctIqns(done + [first] + rest)
    ensures DistinctIqns(done + rest)
    ensures forall r :: r in done || r in rest ==> r.iqn != first.iqn
  {
    var all := done + [first] + rest;
    assert all[|done|] == first;
    assert forall i :: 0 <= i < |done| ==> all[i] == done[i];
    assert forall i :: 0 <= i < |rest| ==> all[|done| + 1 + i] == rest[i];
    assert forall i :: 0 <= i < |done + rest| ==> (done + rest)[i] == all[if i < |done| then i else i + 1];
  }

  lemma {:induction false} ReapRows(h: Host, done: seq<Row>, rows: seq<Row>, connected: set<Iqn>)
    requires h.rows == done + rows && DistinctIqns(done + rows)
    ensures Reap(h, rows, connected).0.rows == done + Keep(rows, connected)
    ensures Reap(h, rows, connected).1 == DoomedIqns(rows, connected)
    decreases |rows|
  {
    if |rows| > 0 {
      var first, rest := rows[0], rows[1..];
      assert done + rows == done + [first] + rest;
      if !Doomed(first, connected) {
        ReapRows(h, done + [first], rest, connected);
        assert done + [first] + Keep(rest, connected) == done + ([first] + Keep(rest, connected));
      } else {
        DistinctParts(done, first, rest);
        RemoveMiddle(done, first, rest);
        ReapRows(End(h, FromRow(first)), done, rest, connected);
        assert done + ([] + Keep(rest, connected)) == done + Keep(rest, connected);
      }
    }
  }

  // What a pass takes with the rows it reaps.

  ghost predicate TakesLoop(rows: seq<Row>, connected: set<Iqn>, d: nat) {
    exists r :: r in rows && Doomed(r, connected) && (r.baseLoop == d || r.overlayLoop == d)
  }

  ghost predicate TakesName(rows: seq<Row>, connected: set<Iqn>, name: Name) {
    exists r :: r in rows && Doomed(r, connected) && r.snapshotName == name
  }

  ghost predicate TakesFile(rows: seq<Row>, connected: set<Iqn>, path: Path) {
    exists r :: r in rows && Doomed(r, connected) && r.overlayPath == path
  }

  ghost predicate TakesIqn(rows: seq<Row>, connected: set<Iqn>, iqn: Iqn) {
    exists r :: r in rows && Doomed(r, connected) && r.iqn == iqn
  }

  /** The loops, snapshots, overlays and target entries that are not of a reaped row. */
  ghost function Spared(h: Host, rows: seq<Row>, connected: set<Iqn>): Host {
    var luns := map n | n in h.tpg.luns && !TakesName(rows, connected, h.tpg.luns[n]) :: h.tpg.luns[n];
    Host(map d | d in h.loops && !TakesLoop(rows, connected, d) :: h.loops[d],
         map n | n in h.snapshots && !TakesName(rows, connected, n) :: h.snapshots[n],
         map p | p in h.overlays && !TakesFile(rows, connected, p) :: h.overlays[p],
         h.rows,
         Tpg(map n | n in h.tpg.stores && !TakesName(rows, connected, n) :: h.tpg.stores[n], luns,
             map q | q in h.tpg.acls && !TakesIqn(rows, connected, q) :: Unmap(h.tpg.acls[q], luns)))
  }

  lemma TakesOfCons(first: Row, rest: seq<Row>, connected: set<Iqn>)
    ensures forall d :: TakesLoop([first] + rest, connected, d) <==>
      TakesLoop(rest, connected, d) || (Doomed(first, connected) && (first.baseLoop == d || first.overlayLoop == d))
    ensures forall n :: TakesName([first] + rest, connected, n) <==>
      TakesName(rest, connected, n) || (Doomed(first, connected) && first.snapshotName == n)
    ensures forall p :: TakesFile([first] + rest, connected, p) <==>
      TakesFile(rest, connected, p) || (Doomed(first, connected) && first.overlayPath == p)
    ensures forall q :: TakesIqn([first] + rest, connected, q) <==>
      TakesIqn(rest, connected, q) || (Doomed(first, connected) && first.iqn == q)
  {
    assert forall r :: r in [first] + rest <==> r == first || r in rest;
  }

  lemma SparedOfNone(h: Host, connected: set<Iqn>)
    requires h.tpg.Valid()
    ensures Spared(h, [], connected) == h
  {
    var g := Spared(h, [], connected);
    assert g.loops == h.loops && g.snapshots == h.snapshots && g.overlays == h.overlays;
    assert g.tpg.luns == h.tpg.luns && g.tpg.stores == h.tpg.stores;
    assert g.tpg.acls == h.tpg.acls;
  }

  lemma SparedOfConnected(h: Host, first: Row, rest: seq<Row>, connected: set<Iqn>)
    requires !Doomed(first, connected)
    ensures Spared(h, [first] + rest, connected) == Spared(h, rest, connected)
  {
    TakesOfCons(first, rest, connected);
    var g, k := Spared(h, [first] + rest, connected), Spared(h, rest, connected);
    assert g.loops == k.loops && g.snapshots == k.snapshots && g.overlays == k.overlays;
    assert g.tpg.luns == k.tpg.luns && g.tpg.stores == k.tpg.stores;
    assert g.tpg.acls == k.tpg.acls;
  }

  lemma SparedOfDoomed(h: Host, first: Row, rest: seq<Row>, connected: set<Iqn>)
    requires Doomed(first, connected)
    ensures Spared(End(h, FromRow(first)), rest, connected)
         == Spared(h, [first] + rest, connected).(rows := End(h, FromRow(first)).rows)
  {
    TakesOfCons(first, rest, connected);
    var e := End(h, FromRow(first));
    var g, k := Spared(e, rest, connected), Spared(h, [first] + rest, connected);
    SparedTarget(h, first, rest, connected);
    assert g.loops == k.loops && g.snapshots == k.snapshots && g.overlays == k.overlays;
  }

  lemma SparedTarget(h: Host, first: Row, rest: seq<Row>, connected: set<Iqn>)
    requires Doomed(first, connected)
    ensures Spared(End(h, FromRow(first)), rest, connected).tpg == Spared(h, [first] + rest, connected).tpg
  {
    TakesOfCons(first, rest, connected);
    var g, k := Spared(End(h, FromRow(first)), rest, connected).tpg, Spared(h, [first] + rest, connected).tpg;
    assert g.luns == k.luns;
    assert g.stores == k.stores;
    assert g.acls == k.acls;
  }

  lemma {:induction false} ReapSpares(h: Host, rows: seq<Row>, connected: set<Iqn>)
    requires h.tpg.Valid()
    ensures Reap(h, rows, connected).0 == Spared(h, rows, connected).(rows := Reap(h, rows, connected).0.rows)
    decreases |rows|
  {
    if |rows| == 0 {
      SparedOfNone(h, connected);
    } else {
      var first, rest := rows[0], rows[1..];
      assert rows == [first] + rest;
      if !Doomed(first, connected) {
        ReapSpares(h, rest, connected);
        SparedOfConnected(h, first, rest, connected);
      } else {
        RemoveValid(h.tpg, first.iqn, first.snapshotName);
        ReapSpares(End(h, FromRow(first)), rest, connected);
        SparedOfDoomed(h, first, rest, connected);
      }
    }
  }

  /** One pass of the reaper: the rows left are, in order, the admin rows and the connected client
      rows; the IQNs returned are those of the other rows, in row order; and exactly the loops,
      snapshots, overlays and target entries of those other rows are gone. */
  lemma ReaperIsExact(h: Host, connected: set<Iqn>)
    requires DistinctIqns(h.rows) && h.tpg.Valid()
    ensures Reap(h, h.rows, connected).0 == Spared(h, h.rows, connected).(rows := Keep(h.rows, connected))
    ensures Reap(h, h.rows, connected).0.rows == Keep(h.rows, connected)
    ensures Reap(h, h.rows, connected).1 == DoomedIqns(h.rows, connected)
    ensures forall r :: r in Reap(h, h.rows, connected).0.rows <==> r in h.rows && (r.AdminRow? || r.iqn in connected)
  {
    assert [] + h.rows == h.rows;
    ReapRows(h, [], h.rows, connected);
    assert [] + Keep(h.rows, connected) == Keep(h.rows, connected);
    KeptAreOriginal(h.rows, connected);
    ReapSpares(h, h.rows, connected);
  }

  // ---------- a row ended twice ----------

  lemma {:induction false} WithoutClears(rows: seq<Row>, iqn: Iqn)
    ensures forall r :: r in Without(rows, iqn) ==> r.iqn != iqn
  {
    if |rows| > 0 { WithoutClears(rows[1..], iqn); }
  }

  lemma EndTwice(h: Host, s: ClientSession)
    ensures End(End(h, s), s) == End(h, s)
  {
    var once := End(h, s);
    var twice := End(once, s);
    WithoutClears(h.rows, s.iqn);
    WithoutAbsent(once.rows, s.iqn);
    assert twice.loops == once.loops && twice.snapshots == once.snapshots && twice.overlays == once.overlays;
    assert twice.tpg.luns == once.tpg.luns && twice.tpg.stores == once.tpg.stores;
    assert twice.tpg.acls == once.tpg.acls;
  }

  /** A pass does not wait for the one before, so two may have selected the same row. Ending it a second
      time changes nothing, unless its client has started anew in between: then it is the new session that
      loses its row, target entries, snapshot and overlay, and its loops stay behind. */
  lemma StalePassEndsTheNext(h: Host, q: Request, again: Request)
    requires h.tpg.Valid() && Clear(h, q) && Clear(h, again) && again.iqn == q.iqn
    requires {again.base, again.over} !! {q.base, q.over}
    ensures var row := FromRow(RowOf(q));
      var reaped := End(Start(h, q).0, row);
      var restarted := Start(reaped, again).0;
      && End(reaped, row) == reaped
      && RowOf(again) in restarted.rows
      && End(restarted, row) == h.(loops := LoopsOf(h.loops, again))
  {
    EndUndoesStart(h, q);
    EndTwice(Start(h, q).0, FromRow(RowOf(q)));
    EndUndoesStart(h, again);
    StartOfClear(h, again);
    StaleEnd(h, q, again);
  }

  /** The two sessions share every name and no loop. */
  lemma StaleEnd(h: Host, q: Request, again: Request)
    requires Clear(h, q) && Clear(h, again) && again.iqn == q.iqn && {again.base, again.over} !! {q.base, q.over}
    ensures var g := Start(h, again).0;
      End(g, FromRow(RowOf(q))) == End(g, Built(again)).(loops := LoopsOf(h.loops, again))
  {
    StartOfClear(h, again);
    var g := Start(h, again).0;
    assert g.loops - {q.over} - {q.base} == g.loops;
  }
}
