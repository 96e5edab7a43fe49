/** Image profiles, their versions and the admin write sessions: web/image_profiles.py on top of
    lock.py and the admin half of session.py. A handler runs to its end on the reactor thread; any
    external call inside it may raise, and the process may crash and restart between any two calls. */
module ImageProfiles {
  import opened Bytes
  import opened ImagePaths

  /** `storageDir` is the directory that the profile's text resolves to. */
  datatype Profile = Profile(storageDir: Dir, lockedBy: Option<bytes>)
  datatype Version = Version(fileName: bytes, createdBy: bytes)
  datatype AdminSession = AdminSession(profile: nat, version: nat, file: FilePath, username: bytes)

  /** The images root; the profile, version and binding tables; the image and overlay files and how many
      writable loops each has; at the target, the backstores of admin sessions by the profile and version
      in their names, and the administrators whose initiator has a LUN mapped; and the handlers'
      in-memory map of open admin sessions. */
  datatype World = World(
    root: Dir,
    profiles: map<nat, Profile>,
    versions: map<(nat, nat), Version>,
    bindings: map<nat, (nat, nat)>,
    files: map<FilePath, bytes>,
    writers: multiset<FilePath>,
    stores: set<(nat, nat)>,
    mapped: set<bytes>,
    sessions: map<nat, AdminSession>)

  datatype Reply = Redirect | Conflict | NotFound | Raised | Done

  /** The first external call to raise for reasons of its own in `start_session` (a failed copy leaves
      any part of the new file behind, or has not opened it) and in `end_session`. */
  datatype StartFault =
    | StartsWell | CopyFails(partial: Option<bytes>) | AttachFails | StoreFails | MappingFails | RowFails
  datatype EndFault = EndsWell | AclStays | StoreStays | DetachFails | RecordFails

  /** How far a client start got with its overlay file, and a client's end with its own. */
  datatype StartReach = NotOpened | Emptied | Sized | Attached
  datatype EndReach = NothingFreed | LoopDetached | FileRemoved

  /** `_grow_file`: the copy is extended with zeros, never cut. */
  function Grown(content: bytes, additional: int): bytes {
    if additional <= 0 then content else content + Zeros(additional)
  }

  // ---------- version numbers ----------

  /** `n` is one more than the highest version of the profile, or 1 if it has none. */
  ghost predicate IsNext(versions: map<(nat, nat), Version>, p: nat, n: nat) {
    && n >= 1
    && (forall v: nat :: (p, v) in versions ==> v < n)
    && (n == 1 || (p, n - 1) in versions)
  }

  lemma NextIsUnique(versions: map<(nat, nat), Version>, p: nat, m: nat, n: nat)
    requires IsNext(versions, p, m) && IsNext(versions, p, n)
    ensures m == n
  {
  }

  ghost function NextVersion(versions: map<(nat, nat), Version>, p: nat): (n: nat)
    ensures IsNext(versions, p, n)
  {
    NextExists(versions, p);
    var n :| IsNext(versions, p, n);
    n
  }

  lemma {:induction false} NextExists(versions: map<(nat, nat), Version>, p: nat)
    ensures exists n :: IsNext(versions, p, n)
    decreases |versions|
  {
    if key :| key in versions {
      var rest := versions - {key};
      assert |rest.Keys| < |versions.Keys| by { assert rest.Keys == versions.Keys - {key}; }
      NextExists(rest, p);
      var n :| IsNext(rest, p, n);
      assert forall v: nat :: (p, v) in versions ==> (p, v) in rest || (p, v) == key;
      if key.0 == p && key.1 >= n {
        assert (p, key.1) in versions && IsNext(versions, p, key.1 + 1);
      } else {
        assert IsNext(versions, p, n);
      }
    } else {
      assert IsNext(versions, p, 1);
    }
  }

  // ---------- lock.py ----------

  function Release(w: World, p: nat): World {
    if p in w.profiles then w.(profiles := w.profiles[p := w.profiles[p].(lockedBy := None)]) else w
  }

  function Lock(w: World, p: nat, username: bytes): World
    requires p in w.profiles
  {
    w.(profiles := w.profiles[p := w.profiles[p].(lockedBy := Some(username))])
  }

  predicate IsLocked(w: World, p: nat) { p in w.profiles && w.profiles[p].lockedBy.Some? }

  function ReleaseAll(w: World): World {
    w.(profiles := map p | p in w.profiles :: w.profiles[p].(lockedBy := None))
  }

  // ---------- the admin half of session.py ----------

  function Unlink(w: World, f: FilePath): World { w.(files := w.files - {f}, writers := w.writers[f := 0]) }

  function NewFile(w: World, p: nat, n: nat): FilePath
    requires p in w.profiles
  {
    FilePath(w.profiles[p].storageDir, BaseName(n))
  }

  ghost function StartSession(w: World, p: nat, username: bytes, base: nat, additional: int, fault: StartFault)
    : (World, Option<AdminSession>)
  {
    if p !in w.profiles || (p, base) !in w.versions then (w, None)
    else
      var source := FilePath(w.profiles[p].storageDir, w.versions[(p, base)].fileName);
      var n := NextVersion(w.versions, p);
      var file := NewFile(w, p, n);
      if source !in w.files then (w, None)
      else if fault.CopyFails? then
        (if fault.partial.Some? then w.(files := w.files[file := fault.partial.value]) else w, None)
      else
        var copied := w.(files := w.files[file := Grown(w.files[source], additional)]);
        if fault.AttachFails? then (copied, None)
        else
          var attached := copied.(writers := copied.writers + multiset{file});
          var (registered, ok) := RegisterAdmin(attached, p, n, username, fault);
          (registered, if ok then Some(AdminSession(p, n, file, username)) else None)
  }

  /** The target and the row: refused if the backstore is there already, or if the administrator's
      initiator has a LUN mapped. */
  function RegisterAdmin(w: World, p: nat, n: nat, username: bytes, fault: StartFault): (World, bool) {
    if fault.StoreFails? || (p, n) in w.stores then (w, false)
    else
      var stored := w.(stores := w.stores + {(p, n)});
      if fault.MappingFails? || username in w.mapped then (stored, false)
      else (stored.(mapped := w.mapped + {username}), !fault.RowFails?)
  }

  /** `remove_lun` takes the ACL first and the backstore last; a row that cannot be deleted leaves the
      files and loops as a loop that cannot be detached does. */
  function EndSession(w: World, s: AdminSession, merge: bool, fault: EndFault): (World, bool) {
    if fault.AclStays? then (w, false)
    else
      var unmapped := w.(mapped := w.mapped - {s.username});
      if fault.StoreStays? then (unmapped, false)
      else
        var removed := unmapped.(stores := w.stores - {(s.profile, s.version)});
        if fault.DetachFails? then (removed, false) else Conclude(removed, s, merge, fault)
  }

  function Conclude(w: World, s: AdminSession, merge: bool, fault: EndFault): (World, bool) {
    var detached := w.(writers := w.writers - multiset{s.file});
    if fault.RecordFails? then (detached, false)
    else if !merge then (Unlink(detached, s.file), true)
    else if s.file !in w.files || (s.profile, s.version) in w.versions || s.profile !in w.profiles then (detached, false)
    else (detached.(versions := w.versions[(s.profile, s.version) := Version(s.file.name, s.username)]), true)
  }

  // ---------- what client sessions do to files ----------

  /** The overlay is emptied and sized to the image; the image itself is opened read-only. */
  function StartClient(w: World, iqn: bytes, p: nat, v: nat, reach: StartReach): World {
    if p !in w.profiles || (p, v) !in w.versions then w
    else
      var image, overlay := FilePath(w.profiles[p].storageDir, w.versions[(p, v)].fileName), OverlayFile(w.root, iqn);
      if image !in w.files || reach.NotOpened? then w
      else if reach.Emptied? then w.(files := w.files[overlay := []])
      else
        var sized := w.(files := w.files[overlay := Zeros(|w.files[image]|)]);
        if reach.Sized? then sized else sized.(writers := w.writers + multiset{overlay})
  }

  /** `end_session` for a client, called by the reaper. */
  function EndClient(w: World, iqn: bytes, reach: EndReach): World {
    var overlay := OverlayFile(w.root, iqn);
    if reach.NothingFreed? then w
    else if reach.LoopDetached? then w.(writers := w.writers - multiset{overlay})
    else Unlink(w, overlay)
  }

  // ---------- the handlers ----------

  datatype Event =
    | CreateProfile(id: nat, text: bytes)
    | DeleteProfile(profile: nat)
    | ForceUnlock(profile: nat)
    | DeleteVersion(profile: nat, version: nat)
    | StartUpdate(profile: nat, username: bytes, base: nat, additional: int, startFault: StartFault)
    | FinishUpdate(profile: nat, merge: bool, endFault: EndFault)
    | Bind(client: nat, profile: nat, version: nat)
    | ClientStarts(iqn: bytes, profile: nat, version: nat, startReach: StartReach)
    | ClientEnds(iqn: bytes, endReach: EndReach)
    | Write(file: FilePath, content: bytes)
    | Restart

  /** A new profile gets an unused id; only a file with a writable loop can be written through it. */
  predicate Enabled(w: World, e: Event) {
    match e
    case CreateProfile(id, _) => id !in w.profiles
    case Write(file, _) => w.writers[file] > 0
    case _ => true
  }

  predicate Referenced(w: World, p: nat) {
    (exists key :: key in w.versions && key.0 == p) || (exists c :: c in w.bindings && w.bindings[c].0 == p)
  }

  predicate Bound(w: World, p: nat, v: nat) { exists c :: c in w.bindings && w.bindings[c] == (p, v) }

  ghost function StartHandler(w: World, p: nat, username: bytes, base: nat, additional: int, fault: StartFault): (World, Reply) {
    if p !in w.profiles then (w, Raised)
    else if IsLocked(w, p) then (w, Conflict)
    else
      var (after, s) := StartSession(Lock(w, p, username), p, username, base, additional, fault);
      if s.None? then (Release(after, p), Raised) else (after.(sessions := after.sessions[p := s.value]), Redirect)
  }

  function FinishHandler(w: World, p: nat, merge: bool, fault: EndFault): (World, Reply) {
    if p !in w.sessions then (w, NotFound)
    else
      var (after, ok) := EndSession(w.(sessions := w.sessions - {p}), w.sessions[p], merge, fault);
      (Release(after, p), if ok then Redirect else Raised)
  }

  function DeleteVersionHandler(w: World, p: nat, v: nat): (World, Reply) {
    if Bound(w, p, v) then (w, Conflict)
    else if (p, v) !in w.versions then (w, NotFound)
    else if p !in w.profiles then (w, Raised)
    else
      var gone := Unlink(w, FilePath(w.profiles[p].storageDir, w.versions[(p, v)].fileName));
      (gone.(versions := w.versions - {(p, v)}), Redirect)
  }

  function DeleteProfileHandler(w: World, p: nat): (World, Reply) {
    if IsLocked(w, p) then (w, Conflict)
    else if p in w.profiles && Referenced(w, p) then (w, Conflict)
    else (w.(profiles := w.profiles - {p}), Redirect)
  }

  function ForceUnlockHandler(w: World, p: nat): (World, Reply) {
    if p in w.sessions then (w, Conflict) else (Release(w, p), Redirect)
  }

  ghost function Step(w: World, e: Event): (World, Reply) {
    match e
    case CreateProfile(id, text) => (w.(profiles := w.profiles[id := Profile(Directory(w.root, text), None)]), Redirect)
    case DeleteProfile(p) => DeleteProfileHandler(w, p)
    case ForceUnlock(p) => ForceUnlockHandler(w, p)
    case DeleteVersion(p, v) => DeleteVersionHandler(w, p, v)
    case StartUpdate(p, username, base, additional, fault) => StartHandler(w, p, username, base, additional, fault)
    case FinishUpdate(p, merge, fault) => FinishHandler(w, p, merge, fault)
    case Bind(c, p, v) => if p in w.profiles then (w.(bindings := w.bindings[c := (p, v)]), Redirect) else (w, Conflict)
    case ClientStarts(iqn, p, v, reach) => (StartClient(w, iqn, p, v, reach), Done)
    case ClientEnds(iqn, reach) => (EndClient(w, iqn, reach), Done)
    case Write(file, content) => (if file in w.files then w.(files := w.files[file := content]) else w, Done)
    case Restart => (ReleaseAll(w).(sessions := map[]), Done)
  }

  // ---------- what always holds ----------

  /** The lock table and the session map agree; an open session's number is above every version of
      its profile; rows refer to existing profiles and keep the naming scheme. */
  ghost predicate Core(w: World) {
    && LocksMatch(w)
    && (forall p :: p in w.sessions ==> SessionOk(w, p))
    && (forall key :: key in w.versions ==> key.0 in w.profiles && w.versions[key].fileName == BaseName(key.1))
    && (forall c :: c in w.bindings ==> w.bindings[c].0 in w.profiles)
  }

  /** A profile is locked exactly while this process has an admin session open on it, by its administrator. */
  ghost predicate LocksMatch(w: World) {
    && (forall p :: IsLocked(w, p) <==> p in w.sessions)
    && (forall p :: p in w.sessions && p in w.profiles ==> w.profiles[p].lockedBy == Some(w.sessions[p].username))
  }

  ghost predicate SessionOk(w: World, p: nat)
    requires p in w.sessions
  {
    var s := w.sessions[p];
    && p in w.profiles && s.profile == p && s.version >= 1 && s.file == NewFile(w, p, s.version)
    && (forall v: nat :: (p, v) in w.versions ==> v < s.version)
  }

  /** The tables and the session map, which is all that `Core` speaks of. */
  ghost predicate SameTables(w: World, v: World) {
    w.profiles == v.profiles && w.versions == v.versions && w.bindings == v.bindings && w.sessions == v.sessions
  }

  lemma StartSessionEffect(w: World, p: nat, username: bytes, base: nat, additional: int, fault: StartFault)
    ensures var (after, s) := StartSession(w, p, username, base, additional, fault);
      && SameTables(w, after)
      && (s.Some? ==> p in w.profiles)
      && (s.Some? ==>
            s.value == AdminSession(p, NextVersion(w.versions, p), NewFile(w, p, NextVersion(w.versions, p)), username))
  {
  }

  lemma RegisterLocked(w: World, profiles: map<nat, Profile>, p: nat, n: nat, username: bytes, fault: StartFault)
    ensures RegisterAdmin(w.(profiles := profiles), p, n, username, fault)
         == (RegisterAdmin(w, p, n, username, fault).0.(profiles := profiles), RegisterAdmin(w, p, n, username, fault).1)
  {
  }

  /** Locking changes nothing for the session started under the lock. */
  lemma SessionUnderLock(w: World, p: nat, username: bytes, base: nat, additional: int, fault: StartFault)
    requires p in w.profiles
    ensures var (inner, s) := StartSession(w, p, username, base, additional, fault);
      var v := Lock(w, p, username);
      StartSession(v, p, username, base, additional, fault) == (inner.(profiles := v.profiles), s)
  {
    var v := Lock(w, p, username);
    if (p, base) in w.versions {
      var n := NextVersion(w.versions, p);
      var file, source := NewFile(w, p, n), FilePath(w.profiles[p].storageDir, w.versions[(p, base)].fileName);
      assert NewFile(v, p, n) == file;
      if source in w.files {
        var attached := w.(files := w.files[file := Grown(w.files[source], additional)], writers := w.writers + multiset{file});
        RegisterLocked(attached, v.profiles, p, n, username, fault);
      }
    }
  }

  /** A start either opens a session under the lock, or, however it fails, changes no table. */
  lemma StartEffect(w: World, p: nat, username: bytes, base: nat, additional: int, fault: StartFault)
    requires Core(w)
    ensures var (after, reply) := StartHandler(w, p, username, base, additional, fault);
      if reply.Redirect? then
        && p in w.profiles && !IsLocked(w, p)
        && SameTables(after, Lock(w, p, username).(sessions := w.sessions[p :=
             AdminSession(p, NextVersion(w.versions, p), NewFile(w, p, NextVersion(w.versions, p)), username)]))
      else SameTables(after, w)
  {
    if p in w.profiles && !IsLocked(w, p) {
      StartSessionEffect(Lock(w, p, username), p, username, base, additional, fault);
      var after := StartSession(Lock(w, p, username), p, username, base, additional, fault).0;
      assert Release(after, p).profiles == w.profiles;
    }
  }

  lemma StartSessions(w: World, p: nat, username: bytes, base: nat, additional: int, fault: StartFault)
    requires Core(w)
    ensures var (after, reply) := StartHandler(w, p, username, base, additional, fault);
      && after.versions == w.versions && after.profiles.Keys == w.profiles.Keys
      && (forall q :: q in w.profiles ==> after.profiles[q].storageDir == w.profiles[q].storageDir)
      && (reply.Redirect? ==> p in w.profiles && p !in w.sessions)
      && after.sessions ==
           if reply.Redirect? then
             w.sessions[p := AdminSession(p, NextVersion(w.versions, p), NewFile(w, p, NextVersion(w.versions, p)), username)]
           else w.sessions
  {
    StartEffect(w, p, username, base, additional, fault);
  }

  lemma OpenedCore(w: World, p: nat, s: AdminSession, username: bytes)
    requires Core(w) && p in w.profiles && !IsLocked(w, p)
    requires s == AdminSession(p, NextVersion(w.versions, p), NewFile(w, p, NextVersion(w.versions, p)), username)
    ensures Core(Lock(w, p, username).(sessions := w.sessions[p := s]))
  {
  }

  lemma StartCore(w: World, p: nat, username: bytes, base: nat, additional: int, fault: StartFault)
    requires Core(w)
    ensures Core(StartHandler(w, p, username, base, additional, fault).0)
  {
    StartEffect(w, p, username, base, additional, fault);
    var (after, reply) := StartHandler(w, p, username, base, additional, fault);
    if reply.Redirect? {
      var s := AdminSession(p, NextVersion(w.versions, p), NewFile(w, p, NextVersion(w.versions, p)), username);
      OpenedCore(w, p, s, username);
      CoreReadsTables(Lock(w, p, username).(sessions := w.sessions[p := s]), after);
    } else {
      CoreReadsTables(w, after);
    }
  }

  lemma CoreReadsTables(w: World, v: World)
    requires Core(w) && SameTables(w, v)
    ensures Core(v)
  {
  }

  lemma EndSessionEffect(w: World, s: AdminSession, merge: bool, fault: EndFault)
    ensures var (after, ok) := EndSession(w, s, merge, fault);
      && after.profiles == w.profiles && after.bindings == w.bindings && after.sessions == w.sessions
      && (after.versions == w.versions
          || (merge && ok && after.versions == w.versions[(s.profile, s.version) := Version(s.file.name, s.username)]))
  {
  }

  /** Finishing closes the session and the lock whatever happens, and adds the one version if it merges. */
  lemma FinishEffect(w: World, p: nat, merge: bool, fault: EndFault)
    requires Core(w) && p in w.sessions
    ensures var (after, reply) := FinishHandler(w, p, merge, fault);
      && after.profiles == Release(w, p).profiles && after.bindings == w.bindings && after.sessions == w.sessions - {p}
      && (after.versions == w.versions
          || (merge && reply.Redirect? && after.versions == w.versions[(p, w.sessions[p].version) :=
                Version(BaseName(w.sessions[p].version), w.sessions[p].username)]))
  {
    assert SessionOk(w, p);
    EndSessionEffect(w.(sessions := w.sessions - {p}), w.sessions[p], merge, fault);
  }

  lemma FinishCore(w: World, p: nat, merge: bool, fault: EndFault)
    requires Core(w)
    ensures Core(FinishHandler(w, p, merge, fault).0)
  {
    if p in w.sessions {
      FinishEffect(w, p, merge, fault);
      ClosedCore(w, p, FinishHandler(w, p, merge, fault).0);
    }
  }

  lemma ClosedCore(w: World, p: nat, after: World)
    requires Core(w) && p in w.sessions
    requires after.profiles == Release(w, p).profiles && after.bindings == w.bindings && after.sessions == w.sessions - {p}
    requires after.versions == w.versions
      || after.versions == w.versions[(p, w.sessions[p].version) := Version(BaseName(w.sessions[p].version), w.sessions[p].username)]
    ensures Core(after)
  {
    assert SessionOk(w, p);
    assert forall q :: q in after.sessions ==> SessionOk(w, q) && SessionOk(after, q);
    assert forall key :: key in after.versions ==> key in w.versions || key == (p, w.sessions[p].version);
  }

  lemma DeleteVersionCore(w: World, p: nat, v: nat)
    requires Core(w)
    ensures Core(DeleteVersionHandler(w, p, v).0)
  {
    var after := DeleteVersionHandler(w, p, v).0;
    assert forall q :: q in after.sessions ==> SessionOk(w, q) && SessionOk(after, q);
  }

  lemma CreateProfileCore(w: World, id: nat, dir: Dir)
    requires Core(w) && id !in w.profiles
    ensures Core(w.(profiles := w.profiles[id := Profile(dir, None)]))
  {
    var after := w.(profiles := w.profiles[id := Profile(dir, None)]);
    assert forall q :: q in after.sessions ==> SessionOk(w, q) && q != id && SessionOk(after, q);
  }

  lemma DeleteProfileCore(w: World, p: nat)
    requires Core(w)
    ensures Core(DeleteProfileHandler(w, p).0)
  {
    var after := DeleteProfileHandler(w, p).0;
    if after != w {
      assert forall q :: q in w.sessions ==> IsLocked(w, q) && q != p && SessionOk(w, q) && SessionOk(after, q);
    }
  }

  lemma ForceUnlockIsIdle(w: World, p: nat)
    requires Core(w)
    ensures ForceUnlockHandler(w, p).0 == w
  {
    if p !in w.sessions && p in w.profiles {
      assert !IsLocked(w, p);
      assert w.profiles[p := w.profiles[p].(lockedBy := None)] == w.profiles;
    }
  }

  /** A client session is all files and loops. */
  lemma ClientTables(w: World, iqn: bytes, p: nat, v: nat, reach: StartReach, end: EndReach)
    ensures var u := StartClient(w, iqn, p, v, reach);
      SameTables(w, u) && u.root == w.root && u.stores == w.stores && u.mapped == w.mapped
    ensures var u := EndClient(w, iqn, end);
      SameTables(w, u) && u.root == w.root && u.stores == w.stores && u.mapped == w.mapped
  {
  }

  lemma ClientCore(w: World, iqn: bytes, p: nat, v: nat, reach: StartReach, end: EndReach)
    requires Core(w)
    ensures Core(StartClient(w, iqn, p, v, reach)) && Core(EndClient(w, iqn, end))
  {
    ClientTables(w, iqn, p, v, reach, end);
    CoreReadsTables(w, StartClient(w, iqn, p, v, reach));
    CoreReadsTables(w, EndClient(w, iqn, end));
  }

  /** Every event keeps `Core`: whatever is asked for in whatever order, wherever a call raises or the
      process crashes, and however the profiles' directories are named. */
  lemma StepCore(w: World, e: Event)
    requires Core(w) && Enabled(w, e)
    ensures Core(Step(w, e).0)
  {
    match e
    case StartUpdate(p, username, base, additional, fault) => StartCore(w, p, username, base, additional, fault);
    case FinishUpdate(p, merge, fault) => FinishCore(w, p, merge, fault);
    case DeleteVersion(p, v) => DeleteVersionCore(w, p, v);
    case CreateProfile(id, text) => CreateProfileCore(w, id, Directory(w.root, text));
    case DeleteProfile(p) => DeleteProfileCore(w, p);
    case ForceUnlock(p) => ForceUnlockIsIdle(w, p);
    case Bind(_, _, _) => assert forall q :: q in w.sessions ==> SessionOk(w, q) && SessionOk(Step(w, e).0, q);
    case ClientStarts(iqn, p, v, reach) => ClientCore(w, iqn, p, v, reach, NothingFreed);
    case ClientEnds(iqn, reach) => ClientCore(w, iqn, 0, 0, NotOpened, reach);
    case Write(_, _) => CoreReadsTables(w, Step(w, e).0);
    case Restart =>
  }

  // ---------- whole runs ----------

  ghost predicate Run(w: World, events: seq<Event>, end: World)
    decreases |events|
  {
    if |events| == 0 then w == end else Enabled(w, events[0]) && Run(Step(w, events[0]).0, events[1..], end)
  }

  lemma {:induction false} RunCore(w: World, events: seq<Event>, end: World)
    requires Core(w) && Run(w, events, end)
    ensures Core(end)
    decreases |events|
  {
    if |events| > 0 {
      StepCore(w, events[0]);
      RunCore(Step(w, events[0]).0, events[1..], end);
    }
  }

  /** The tables as some earlier process may have left them: sound rows, any locks at all. */
  ghost predicate SoundRows(w: World) {
    && (forall key :: key in w.versions ==> key.0 in w.profiles && w.versions[key].fileName == BaseName(key.1))
    && (forall c :: c in w.bindings ==> w.bindings[c].0 in w.profiles)
  }

  /** From process start on, through every run of the handlers with any exceptions and restarts, the
      locked profiles are exactly those with an open session; so a profile never has two writers, and
      a forced unlock changes nothing at all. */
  lemma LocksAreSessions(left: World, events: seq<Event>, end: World, p: nat)
    requires SoundRows(left) && Run(Step(left, Restart).0, events, end)
    ensures IsLocked(end, p) <==> p in end.sessions
    ensures IsLocked(end, p) ==> end.profiles[p].lockedBy == Some(end.sessions[p].username)
    ensures Step(end, ForceUnlock(p)).0 == end
  {
    var booted := Step(left, Restart).0;
    assert Core(booted);
    RunCore(booted, events, end);
    ForceUnlockIsIdle(end, p);
  }

  /** The version number fixed when a session opened is still free, and above every version of its
      profile, whenever the session is finished; so merging fails only for want of the file itself. */
  lemma MergeNeverCollides(left: World, events: seq<Event>, end: World, p: nat)
    requires SoundRows(left) && Run(Step(left, Restart).0, events, end) && p in end.sessions
    ensures var s := end.sessions[p];
      && p in end.profiles && (p, s.version) !in end.versions
      && (forall v: nat :: (p, v) in end.versions ==> v < s.version)
      && var (after, reply) := FinishHandler(end, p, true, EndsWell);
         if s.file in end.files then
           reply == Redirect && after.versions == end.versions[(p, s.version) := Version(BaseName(s.version), s.username)]
         else reply == Raised && after.versions == end.versions
  {
    assert Core(Step(left, Restart).0);
    RunCore(Step(left, Restart).0, events, end);
    assert SessionOk(end, p);
    var closed := end.(sessions := end.sessions - {p});
    var (after, ok) := EndSession(closed, end.sessions[p], true, EndsWell);
    assert ok <==> end.sessions[p].file in end.files;
    assert Release(after, p).versions == after.versions;
  }
}
