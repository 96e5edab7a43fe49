/** The running web process of image_profiles.py, lock.py and the admin half of session.py: the same
    handlers as ImageProfiles, changing their tables, files and session map in place. */
module ImageAdmin {
  import opened Bytes
  import opened ImagePaths
  import opened ImageProfiles

  /** `acquire`: what it raises, if it does not get the lock. */
  datatype Acquired = Granted | UnknownProfile | HeldBy(username: bytes)

  class WebProcess {
    const root: Dir
    var profiles: map<nat, Profile>
    var versions: map<(nat, nat), Version>
    var bindings: map<nat, (nat, nat)>
    var files: map<FilePath, bytes>
    var writers: multiset<FilePath>
    var stores: set<(nat, nat)>
    var mapped: set<bytes>
    var sessions: map<nat, AdminSession>

    function View(): World
      reads this
    {
      World(root, profiles, versions, bindings, files, writers, stores, mapped, sessions)
    }

    /** Process start: tables, files, loops and target as the last process left them, orphaned locks released. */
    constructor (left: World)
      ensures View() == Step(left, Restart).0
    {
      profiles := map p | p in left.profiles :: left.profiles[p].(lockedBy := None);
      root, versions, bindings := left.root, left.versions, left.bindings;
      files, writers, stores, mapped := left.files, left.writers, left.stores, left.mapped;
      sessions := map[];
    }

    // ---------- lock.py ----------

    method Acquire(p: nat, username: bytes) returns (r: Acquired)
      modifies this`profiles
      ensures match r
              case Granted =>
                p in old(profiles) && !IsLocked(old(View()), p) && View() == Lock(old(View()), p, username)
              case UnknownProfile => p !in profiles && View() == old(View())
              case HeldBy(other) => IsLocked(View(), p) && profiles[p].lockedBy == Some(other) && View() == old(View())
    {
      if p !in profiles {
        return UnknownProfile;
      }
      if profiles[p].lockedBy.Some? {
        return HeldBy(profiles[p].lockedBy.value);
      }
      profiles := profiles[p := profiles[p].(lockedBy := Some(username))];
      r := Granted;
    }

    method ReleaseLock(p: nat)
      modifies this`profiles
      ensures View() == Release(old(View()), p)
    {
      if p in profiles {
        profiles := profiles[p := profiles[p].(lockedBy := None)];
      }
    }

    /** Releases every lock and returns the profiles that were locked. */
    method ReleaseAllLocks() returns (orphaned: set<nat>)
      modifies this`profiles
      ensures View() == ReleaseAll(old(View()))
      ensures orphaned == set p | p in old(profiles) && IsLocked(old(View()), p)
      ensures forall p :: !IsLocked(View(), p)
    {
      orphaned := set p | p in profiles && profiles[p].lockedBy.Some?;
      profiles := map p | p in profiles :: profiles[p].(lockedBy := None);
    }

    // ---------- the admin half of session.py ----------

    method NextVersionNumber(p: nat) returns (n: nat)
      ensures n == NextVersion(versions, p)
    {
      var left: set<(nat, nat)> := versions.Keys;
      var highest: nat := 0;
      while left != {}
        invariant left <= versions.Keys
        invariant forall v: nat :: (p, v) in versions && (p, v) !in left ==> v <= highest
        invariant highest == 0 || (p, highest) in versions
      {
        var key: (nat, nat) :| key in left;
        if key.0 == p && key.1 > highest {
          highest := key.1;
        }
        left := left - {key};
      }
      n := highest + 1;
      NextIsUnique(versions, p, n, NextVersion(versions, p));
    }

    method GrowFile(file: FilePath, additional: int)
      requires file in files
      modifies this`files
      ensures files == old(files)[file := Grown(old(files)[file], additional)]
    {
      if additional <= 0 {
        assert files == files[file := files[file]];
        return;
      }
      files := files[file := files[file] + Zeros(additional)];
    }

    method StartAdminSession(p: nat, username: bytes, base: nat, additional: int, fault: StartFault)
      returns (s: Option<AdminSession>)
      modifies this`files, this`writers, this`stores, this`mapped
      ensures (View(), s) == StartSession(old(View()), p, username, base, additional, fault)
    {
      if p !in profiles || (p, base) !in versions {
        return None;
      }
      var source := FilePath(profiles[p].storageDir, versions[(p, base)].fileName);
      var n := NextVersionNumber(p);
      var file := FilePath(profiles[p].storageDir, BaseName(n));
      if source !in files {
        return None;
      }
      if fault.CopyFails? {
        if fault.partial.Some? {
          files := files[file := fault.partial.value];
        }
        return None;
      }
      ghost var was := files;
      files := files[file := files[source]];
      GrowFile(file, additional);
      assert files == was[file := Grown(was[source], additional)];
      if fault.AttachFails? {
        return None;
      }
      writers := writers + multiset{file};
      var ok := RegisterWithTarget(p, n, username, fault);
      s := if ok then Some(AdminSession(p, n, file, username)) else None;
    }

    /** `register_lun` and the INSERT, as far as other admin sessions can notice. */
    method RegisterWithTarget(p: nat, n: nat, username: bytes, fault: StartFault) returns (ok: bool)
      modifies this`stores, this`mapped
      ensures (View(), ok) == RegisterAdmin(old(View()), p, n, username, fault)
    {
      if fault.StoreFails? || (p, n) in stores {
        return false;
      }
      stores := stores + {(p, n)};
      if fault.MappingFails? || username in mapped {
        return false;
      }
      mapped := mapped + {username};
      ok := !fault.RowFails?;
    }

    method EndAdminSession(s: AdminSession, merge: bool, fault: EndFault) returns (ok: bool)
      modifies this`files, this`writers, this`versions, this`stores, this`mapped
      ensures (View(), ok) == EndSession(old(View()), s, merge, fault)
    {
      if fault.AclStays? {
        return false;
      }
      mapped := mapped - {s.username};
      if fault.StoreStays? {
        return false;
      }
      stores := stores - {(s.profile, s.version)};
      if fault.DetachFails? {
        return false;
      }
      ok := ConcludeSession(s, merge, fault);
    }

    /** Once the target entries are gone and the loop can be detached. */
    method ConcludeSession(s: AdminSession, merge: bool, fault: EndFault) returns (ok: bool)
      modifies this`files, this`writers, this`versions
      ensures (View(), ok) == Conclude(old(View()), s, merge, fault)
    {
      writers := writers - multiset{s.file};
      if fault.RecordFails? {
        return false;
      }
      if !merge {
        files := files - {s.file};
        writers := writers[s.file := 0];
        return true;
      }
      if s.file !in files || (s.profile, s.version) in versions || s.profile !in profiles {
        return false;
      }
      versions := versions[(s.profile, s.version) := Version(s.file.name, s.username)];
      ok := true;
    }

    // ---------- the handlers ----------

    method StartUpdateSession(p: nat, username: bytes, base: nat, additional: int, fault: StartFault) returns (reply: Reply)
      modifies this
      ensures (View(), reply) == StartHandler(old(View()), p, username, base, additional, fault)
    {
      var lock := Acquire(p, username);
      match lock {
        case UnknownProfile => return Raised;
        case HeldBy(_) => return Conflict;
        case Granted =>
      }
      var s := StartAdminSession(p, username, base, additional, fault);
      if s.None? {
        ReleaseLock(p);
        return Raised;
      }
      sessions := sessions[p := s.value];
      reply := Redirect;
    }

    method FinishUpdateSession(p: nat, merge: bool, fault: EndFault) returns (reply: Reply)
      modifies this
      ensures (View(), reply) == FinishHandler(old(View()), p, merge, fault)
    {
      if p !in sessions {
        return NotFound;
      }
      var s := sessions[p];
      sessions := sessions - {p};
      ghost var popped := View();
      var ok := EndAdminSession(s, merge, fault);
      assert (View(), ok) == EndSession(popped, s, merge, fault);
      ReleaseLock(p);
      reply := if ok then Redirect else Raised;
    }

    method ForceUnlockProfile(p: nat) returns (reply: Reply)
      modifies this
      ensures (View(), reply) == ForceUnlockHandler(old(View()), p)
    {
      if p in sessions {
        return Conflict;
      }
      ReleaseLock(p);
      reply := Redirect;
    }

    method DeleteImageVersion(p: nat, v: nat) returns (reply: Reply)
      modifies this
      ensures (View(), reply) == DeleteVersionHandler(old(View()), p, v)
    {
      if exists c :: c in bindings && bindings[c] == (p, v) {
        return Conflict;
      }
      if (p, v) !in versions {
        return NotFound;
      }
      if p !in profiles {
        return Raised;
      }
      var file := FilePath(profiles[p].storageDir, versions[(p, v)].fileName);
      files := files - {file};
      writers := writers[file := 0];
      versions := versions - {(p, v)};
      reply := Redirect;
    }

    method CreateImageProfile(id: nat, text: bytes)
      requires id !in profiles
      modifies this`profiles
      ensures View() == Step(old(View()), CreateProfile(id, text)).0
    {
      profiles := profiles[id := Profile(Directory(root, text), None)];
    }

    method DeleteImageProfile(p: nat) returns (reply: Reply)
      modifies this
      ensures (View(), reply) == DeleteProfileHandler(old(View()), p)
    {
      if p in profiles && profiles[p].lockedBy.Some? {
        return Conflict;
      }
      if p in profiles
         && ((exists key :: key in versions && key.0 == p) || (exists c :: c in bindings && bindings[c].0 == p)) {
        return Conflict;
      }
      profiles := profiles - {p};
      reply := Redirect;
    }
  }
}
