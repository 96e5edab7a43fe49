/** The image files under the profiles and versions of ImageProfiles: what each event does to them and to
    the loops they are open through, and exactly which events leave something of a session behind. */
module ImageFiles {
  import opened Bytes
  import opened ImagePaths
  import opened ImageProfiles

  ghost predicate Registered(w: World, f: FilePath) {
    exists key :: key in w.versions && key.0 in w.profiles && f == NewFile(w, key.0, key.1)
  }

  ghost predicate SessionFile(w: World, f: FilePath) { exists p :: p in w.sessions && w.sessions[p].file == f }

  ghost predicate DistinctDirs(w: World) {
    forall p, q :: p in w.profiles && q in w.profiles && p != q ==> w.profiles[p].storageDir != w.profiles[q].storageDir
  }

  ghost predicate HasVersion(w: World, p: nat) { exists v: nat :: (p, v) in w.versions }

  /** A profile that has come to hold images. */
  ghost predicate Used(w: World, p: nat) { p in w.sessions || HasVersion(w, p) }

  ghost predicate SeparateDirs(w: World) {
    forall p, q :: p in w.profiles && q in w.profiles && p != q && Used(w, p) && Used(w, q) ==>
      w.profiles[p].storageDir != w.profiles[q].storageDir
  }

  /** Every profile has its own directory, apart from overlays the writable loops are exactly those of
      the open sessions, and the target has exactly their backstores and initiators. */
  ghost predicate Tidy(w: World) { DistinctDirs(w) && WritersMatch(w) && TargetMatches(w) }

  ghost predicate WritersMatch(w: World) {
    forall f :: !IsOverlay(f) ==> w.writers[f] == if SessionFile(w, f) then 1 else 0
  }

  ghost predicate TargetMatches(w: World) {
    && (forall key :: key in w.stores <==> key.0 in w.sessions && w.sessions[key.0].version == key.1)
    && (forall u :: u in w.mapped <==> OpenUser(w, u))
    && (forall p, q :: p in w.sessions && q in w.sessions && p != q ==> w.sessions[p].username != w.sessions[q].username)
  }

  ghost predicate OpenUser(w: World, u: bytes) { exists p :: p in w.sessions && w.sessions[p].username == u }

  lemma SameFileSameVersion(w: World, p: nat, m: nat, q: nat, n: nat)
    requires SeparateDirs(w) && p in w.profiles && q in w.profiles && NewFile(w, p, m) == NewFile(w, q, n)
    requires Used(w, p) && Used(w, q)
    ensures p == q && m == n
  {
    BaseNameInjective(m, n);
  }

  /** The file of an open session, or of the next one, is not a registered image. */
  lemma OpenFilesAreNew(w: World, f: FilePath)
    requires Core(w) && SeparateDirs(w) && SessionFile(w, f)
    ensures !Registered(w, f)
  {
    var p :| p in w.sessions && w.sessions[p].file == f;
    assert SessionOk(w, p);
    forall key | key in w.versions && key.0 in w.profiles ensures f != NewFile(w, key.0, key.1) {
      if f == NewFile(w, key.0, key.1) {
        assert (key.0, key.1) in w.versions;
        SameFileSameVersion(w, p, w.sessions[p].version, key.0, key.1);
      }
    }
  }

  lemma NextFileIsNew(w: World, p: nat)
    requires Core(w) && SeparateDirs(w) && p in w.profiles && p !in w.sessions && HasVersion(w, p)
    ensures !Registered(w, NewFile(w, p, NextVersion(w.versions, p)))
    ensures !SessionFile(w, NewFile(w, p, NextVersion(w.versions, p)))
  {
    var n := NextVersion(w.versions, p);
    forall key | key in w.versions && key.0 in w.profiles ensures NewFile(w, p, n) != NewFile(w, key.0, key.1) {
      if NewFile(w, p, n) == NewFile(w, key.0, key.1) {
        assert (key.0, key.1) in w.versions;
        SameFileSameVersion(w, p, n, key.0, key.1);
      }
    }
    forall q | q in w.sessions ensures w.sessions[q].file != NewFile(w, p, n) {
      assert SessionOk(w, q);
      if w.sessions[q].file == NewFile(w, p, n) {
        SameFileSameVersion(w, p, n, q, w.sessions[q].version);
      }
    }
  }

  ghost predicate SameContent(w: World, v: World, f: FilePath) {
    (f in w.files <==> f in v.files) && (f in w.files ==> w.files[f] == v.files[f])
  }

  /** Beside locking, the handler does to files, loops and target what `start_session` does. */
  lemma HandlerRunsSession(w: World, p: nat, username: bytes, base: nat, additional: int, fault: StartFault)
    requires p in w.profiles && !IsLocked(w, p)
    ensures var (after, reply) := StartHandler(w, p, username, base, additional, fault);
      var (inner, s) := StartSession(w, p, username, base, additional, fault);
      && after.root == inner.root && after.files == inner.files && after.writers == inner.writers
      && after.stores == inner.stores && after.mapped == inner.mapped && (reply.Redirect? <==> s.Some?)
  {
    SessionUnderLock(w, p, username, base, additional, fault);
  }

  lemma SessionTouchesOnlyTheNewFile(w: World, p: nat, username: bytes, base: nat, additional: int, fault: StartFault, f: FilePath)
    requires p in w.profiles ==> f != NewFile(w, p, NextVersion(w.versions, p))
    ensures var after := StartSession(w, p, username, base, additional, fault).0;
      SameContent(w, after, f) && after.writers[f] == w.writers[f]
  {
  }

  lemma StartTouchesOnlyTheNewFile(w: World, p: nat, username: bytes, base: nat, additional: int, fault: StartFault, f: FilePath)
    requires p in w.profiles ==> f != NewFile(w, p, NextVersion(w.versions, p))
    ensures var after := StartHandler(w, p, username, base, additional, fault).0;
      SameContent(w, after, f) && after.writers[f] == w.writers[f]
  {
    if p in w.profiles && !IsLocked(w, p) {
      HandlerRunsSession(w, p, username, base, additional, fault);
      SessionTouchesOnlyTheNewFile(w, p, username, base, additional, fault, f);
    }
  }

  lemma FinishTouchesOnlyItsFile(w: World, p: nat, merge: bool, fault: EndFault, f: FilePath)
    requires p in w.sessions ==> f != w.sessions[p].file
    ensures var after := FinishHandler(w, p, merge, fault).0;
      SameContent(w, after, f) && after.writers[f] == w.writers[f]
  {
  }

  lemma NoCopyNoChange(w: World, p: nat, username: bytes, base: nat, additional: int, fault: StartFault)
    requires !ReachesCopy(w, p, base)
    ensures var after := StartHandler(w, p, username, base, additional, fault).0; after.files == w.files && after.writers == w.writers
  {
    if p in w.profiles && !IsLocked(w, p) { HandlerRunsSession(w, p, username, base, additional, fault); }
  }

  lemma StartKeepsImages(w: World, p: nat, username: bytes, base: nat, additional: int, fault: StartFault, f: FilePath)
    requires Core(w) && SeparateDirs(w) && Registered(w, f)
    ensures SameContent(w, StartHandler(w, p, username, base, additional, fault).0, f)
  {
    if ReachesCopy(w, p, base) {
      NextFileIsNew(w, p);
      StartTouchesOnlyTheNewFile(w, p, username, base, additional, fault, f);
    } else {
      NoCopyNoChange(w, p, username, base, additional, fault);
    }
  }

  lemma DeleteKeepsImages(w: World, p: nat, v: nat, f: FilePath)
    requires Core(w) && SeparateDirs(w) && Registered(DeleteVersionHandler(w, p, v).0, f)
    ensures SameContent(w, DeleteVersionHandler(w, p, v).0, f)
  {
    var after := DeleteVersionHandler(w, p, v).0;
    var key :| key in after.versions && key.0 in after.profiles && f == NewFile(after, key.0, key.1);
    if (p, v) in w.versions && f == NewFile(w, p, v) {
      SameFileSameVersion(w, p, v, key.0, key.1);
    }
  }

  lemma QuietKeepsImages(w: World, e: Event, f: FilePath)
    requires Enabled(w, e) && w.writers[f] == 0
    requires !e.StartUpdate? && !e.FinishUpdate? && !e.DeleteVersion? && !e.ClientStarts? && !e.ClientEnds?
    ensures SameContent(w, Step(w, e).0, f)
  {
  }

  /** A client session touches no file but its overlay. */
  lemma ClientKeepsImages(w: World, iqn: bytes, p: nat, v: nat, reach: StartReach, end: EndReach, f: FilePath)
    requires !IsOverlay(f)
    ensures var u := StartClient(w, iqn, p, v, reach); SameContent(w, u, f) && u.writers[f] == w.writers[f]
    ensures var u := EndClient(w, iqn, end); SameContent(w, u, f) && u.writers[f] == w.writers[f]
  {
    OverlaysAreNotImages(w.root, iqn, [], 0);
  }

  lemma ImagesAreNotOverlays(w: World, f: FilePath)
    requires Registered(w, f) || (Core(w) && SessionFile(w, f))
    ensures !IsOverlay(f)
  {
    if Registered(w, f) {
      var key :| key in w.versions && key.0 in w.profiles && f == NewFile(w, key.0, key.1);
      OverlaysAreNotImages([], [], f.dir, key.1);
    } else {
      var p :| p in w.sessions && w.sessions[p].file == f;
      assert SessionOk(w, p);
      OverlaysAreNotImages([], [], f.dir, w.sessions[p].version);
    }
  }

  // ---------- what keeps a world tidy ----------

  /** The start gets as far as copying its image. */
  ghost predicate ReachesCopy(w: World, p: nat, base: nat) {
    && p in w.profiles && !IsLocked(w, p) && (p, base) in w.versions
    && FilePath(w.profiles[p].storageDir, w.versions[(p, base)].fileName) in w.files
  }

  /** The start gets as far as attaching a loop to its copy. */
  ghost predicate Attaches(w: World, p: nat, base: nat, fault: StartFault) {
    ReachesCopy(w, p, base) && !fault.CopyFails? && !fault.AttachFails?
  }

  /** The events that leave a mess: a profile created with the directory of another; a start that
      attaches its loop and then raises, which it does too if its administrator has another session
      open; a finish that raises before its loop was detached; a restart with a session open. */
  ghost predicate Untidies(w: World, e: Event) {
    match e
    case CreateProfile(_, text) => exists p :: p in w.profiles && w.profiles[p].storageDir == Directory(w.root, text)
    case StartUpdate(p, username, base, _, fault) => Attaches(w, p, base, fault) && (!fault.StartsWell? || OpenUser(w, username))
    case FinishUpdate(p, _, fault) => p in w.sessions && (fault.AclStays? || fault.StoreStays? || fault.DetachFails?)
    case Restart => w.sessions != map[]
    case _ => false
  }

  ghost predicate NoNewDirs(w: World, v: World) {
    forall p :: p in v.profiles ==> p in w.profiles && w.profiles[p].storageDir == v.profiles[p].storageDir
  }

  lemma StaysTidy(w: World, v: World)
    requires Tidy(w) && NoNewDirs(w, v) && v.sessions == w.sessions && v.stores == w.stores && v.mapped == w.mapped
    requires forall f :: !IsOverlay(f) ==> v.writers[f] == w.writers[f]
    ensures Tidy(v)
  {
    assert forall f :: SessionFile(v, f) <==> SessionFile(w, f);
    assert forall u :: OpenUser(v, u) <==> OpenUser(w, u);
  }

  lemma StrayIsUntidy(w: World, v: World, file: FilePath)
    requires Tidy(w) && !IsOverlay(file) && v.sessions == w.sessions && v.writers == w.writers + multiset{file}
    ensures !Tidy(v)
  {
    assert SessionFile(v, file) <==> SessionFile(w, file);
    assert v.writers[file] == w.writers[file] + 1;
  }

  lemma OpenedIsTidy(w: World, v: World, p: nat)
    requires Tidy(w) && NoNewDirs(w, v) && p !in w.sessions && p in v.sessions && v.sessions == w.sessions[p := v.sessions[p]]
    requires !SessionFile(w, v.sessions[p].file) && v.writers == w.writers + multiset{v.sessions[p].file}
    requires v.stores == w.stores + {(p, v.sessions[p].version)}
    requires !OpenUser(w, v.sessions[p].username) && v.mapped == w.mapped + {v.sessions[p].username}
    ensures Tidy(v)
  {
    forall f | !IsOverlay(f) ensures v.writers[f] == if SessionFile(v, f) then 1 else 0 {
      SessionFileAfterOpen(w, v, p, f);
    }
    TargetAfterOpen(w, v, p);
  }

  lemma TargetAfterOpen(w: World, v: World, p: nat)
    requires TargetMatches(w) && p !in w.sessions && p in v.sessions && v.sessions == w.sessions[p := v.sessions[p]]
    requires v.stores == w.stores + {(p, v.sessions[p].version)}
    requires !OpenUser(w, v.sessions[p].username) && v.mapped == w.mapped + {v.sessions[p].username}
    ensures TargetMatches(v)
  {
    forall u ensures OpenUser(v, u) <==> OpenUser(w, u) || u == v.sessions[p].username {
      UsersAfterOpen(w, v, p, u);
    }
  }

  lemma UsersAfterOpen(w: World, v: World, p: nat, u: bytes)
    requires p !in w.sessions && p in v.sessions && v.sessions == w.sessions[p := v.sessions[p]]
    ensures OpenUser(v, u) <==> OpenUser(w, u) || u == v.sessions[p].username
  {
    if q :| q in w.sessions && w.sessions[q].username == u {
      assert q in v.sessions && v.sessions[q].username == u;
    }
  }

  lemma SessionFileAfterOpen(w: World, v: World, p: nat, f: FilePath)
    requires p !in w.sessions && p in v.sessions && v.sessions == w.sessions[p := v.sessions[p]]
    ensures SessionFile(v, f) <==> SessionFile(w, f) || f == v.sessions[p].file
  {
    if q :| q in w.sessions && w.sessions[q].file == f {
      assert q in v.sessions && v.sessions[q].file == f;
    }
  }

  /** A start that is not locked out opens its session exactly if it gets to its loop, no call raises by
      itself, and neither its backstore nor a mapping of its administrator is there. */
  lemma StartOpensIff(w: World, p: nat, username: bytes, base: nat, additional: int, fault: StartFault)
    requires p in w.profiles && !IsLocked(w, p)
    ensures StartHandler(w, p, username, base, additional, fault).1.Redirect? <==>
            ReachesCopy(w, p, base) && fault.StartsWell? && (p, NextVersion(w.versions, p)) !in w.stores && username !in w.mapped
  {
    HandlerRunsSession(w, p, username, base, additional, fault);
  }

  lemma SessionLeaves(w: World, p: nat, username: bytes, base: nat, additional: int, fault: StartFault)
    requires p in w.profiles && !IsLocked(w, p)
    ensures var after, key := StartSession(w, p, username, base, additional, fault).0, (p, NextVersion(w.versions, p));
      && after.root == w.root
      && after.writers == (if Attaches(w, p, base, fault) then w.writers + multiset{NewFile(w, p, key.1)} else w.writers)
      && after.stores == (if Attaches(w, p, base, fault) && !fault.StoreFails? then w.stores + {key} else w.stores)
      && after.mapped == (if Attaches(w, p, base, fault) && !fault.StoreFails? && key !in w.stores && !fault.MappingFails?
                          then w.mapped + {username} else w.mapped)
  {
    var key := (p, NextVersion(w.versions, p));
    assert key in w.stores ==> w.stores + {key} == w.stores;
    assert username in w.mapped ==> w.mapped + {username} == w.mapped;
  }

  /** Which writable loop, backstore and mapping a start leaves, whether it opens its session or raises. */
  lemma StartLeaves(w: World, p: nat, username: bytes, base: nat, additional: int, fault: StartFault)
    requires p in w.profiles && !IsLocked(w, p)
    ensures var after, key := StartHandler(w, p, username, base, additional, fault).0, (p, NextVersion(w.versions, p));
      && after.root == w.root
      && after.writers == (if Attaches(w, p, base, fault) then w.writers + multiset{NewFile(w, p, key.1)} else w.writers)
      && after.stores == (if Attaches(w, p, base, fault) && !fault.StoreFails? then w.stores + {key} else w.stores)
      && after.mapped == (if Attaches(w, p, base, fault) && !fault.StoreFails? && key !in w.stores && !fault.MappingFails?
                          then w.mapped + {username} else w.mapped)
  {
    HandlerRunsSession(w, p, username, base, additional, fault);
    SessionLeaves(w, p, username, base, additional, fault);
  }

  lemma UnlockedTidyIff(w: World, p: nat, username: bytes, base: nat, additional: int, fault: StartFault, after: World, reply: Reply)
    requires Core(w) && Tidy(w) && p in w.profiles && p !in w.sessions && NoNewDirs(w, after)
    requires reply.Redirect? <==>
            ReachesCopy(w, p, base) && fault.StartsWell? && (p, NextVersion(w.versions, p)) !in w.stores && username !in w.mapped
    requires var n := NextVersion(w.versions, p);
      var file := NewFile(w, p, n);
      && (ReachesCopy(w, p, base) ==> !SessionFile(w, file))
      && after.writers == (if Attaches(w, p, base, fault) then w.writers + multiset{file} else w.writers)
      && after.stores == (if Attaches(w, p, base, fault) && !fault.StoreFails? then w.stores + {(p, n)} else w.stores)
      && after.mapped == (if Attaches(w, p, base, fault) && !fault.StoreFails? && (p, n) !in w.stores && !fault.MappingFails?
                          then w.mapped + {username} else w.mapped)
      && after.sessions == if reply.Redirect? then w.sessions[p := AdminSession(p, n, file, username)] else w.sessions
    ensures Tidy(after) <==> !(Attaches(w, p, base, fault) && (!fault.StartsWell? || OpenUser(w, username)))
  {
    var n := NextVersion(w.versions, p);
    OverlaysAreNotImages([], [], NewFile(w, p, n).dir, n);
    assert (p, n) !in w.stores;
    if reply.Redirect? {
      OpenedIsTidy(w, after, p);
    } else if Attaches(w, p, base, fault) {
      StrayIsUntidy(w, after, NewFile(w, p, n));
    } else {
      StaysTidy(w, after);
    }
  }

  lemma StartTidyIff(w: World, p: nat, username: bytes, base: nat, additional: int, fault: StartFault)
    requires Core(w) && Tidy(w)
    ensures Tidy(StartHandler(w, p, username, base, additional, fault).0) <==>
            !(Attaches(w, p, base, fault) && (!fault.StartsWell? || OpenUser(w, username)))
  {
    var (after, reply) := StartHandler(w, p, username, base, additional, fault);
    StartSessions(w, p, username, base, additional, fault);
    if p in w.profiles && !IsLocked(w, p) {
      if ReachesCopy(w, p, base) { NextFileIsNew(w, p); }
      StartLeaves(w, p, username, base, additional, fault);
      StartOpensIff(w, p, username, base, additional, fault);
      UnlockedTidyIff(w, p, username, base, additional, fault, after, reply);
    } else {
      assert after == w;
    }
  }

  lemma ClosedTidyIff(w: World, v: World, p: nat)
    requires Core(w) && Tidy(w) && NoNewDirs(w, v) && p in w.sessions && v.sessions == w.sessions - {p}
    requires forall f :: f != w.sessions[p].file ==> v.writers[f] == w.writers[f]
    requires v.writers[w.sessions[p].file] == 0 ==>
      v.stores == w.stores - {(p, w.sessions[p].version)} && v.mapped == w.mapped - {w.sessions[p].username}
    ensures Tidy(v) <==> v.writers[w.sessions[p].file] == 0
  {
    forall f ensures SessionFile(v, f) <==> SessionFile(w, f) && f != w.sessions[p].file {
      SessionFileAfterClose(w, v, p, f);
    }
    assert SessionFile(w, w.sessions[p].file);
    ImagesAreNotOverlays(w, w.sessions[p].file);
    if v.writers[w.sessions[p].file] == 0 {
      TargetAfterClose(w, v, p);
    }
  }

  lemma TargetAfterClose(w: World, v: World, p: nat)
    requires TargetMatches(w) && p in w.sessions && v.sessions == w.sessions - {p}
    requires v.stores == w.stores - {(p, w.sessions[p].version)} && v.mapped == w.mapped - {w.sessions[p].username}
    ensures TargetMatches(v)
  {
    forall u ensures OpenUser(v, u) <==> OpenUser(w, u) && u != w.sessions[p].username {
      if q :| q in w.sessions && w.sessions[q].username == u {
        if q != p { assert q in v.sessions && v.sessions[q].username == u; }
      }
    }
  }

  lemma SessionFileAfterClose(w: World, v: World, p: nat, f: FilePath)
    requires Core(w) && SeparateDirs(w) && p in w.sessions && v.sessions == w.sessions - {p}
    ensures SessionFile(v, f) <==> SessionFile(w, f) && f != w.sessions[p].file
  {
    assert SessionOk(w, p);
    if q :| q in w.sessions && w.sessions[q].file == f {
      assert SessionOk(w, q);
      if q != p {
        assert q in v.sessions && f != w.sessions[p].file;
      }
    }
  }

  predicate StopsBeforeDetach(fault: EndFault) { fault.AclStays? || fault.StoreStays? || fault.DetachFails? }

  lemma FinishTarget(w: World, p: nat, merge: bool, fault: EndFault)
    requires p in w.sessions && w.sessions[p].profile == p
    ensures var after, s := FinishHandler(w, p, merge, fault).0, w.sessions[p];
      && after.root == w.root
      && after.mapped == (if fault.AclStays? then w.mapped else w.mapped - {s.username})
      && after.stores == (if fault.AclStays? || fault.StoreStays? then w.stores else w.stores - {(p, s.version)})
  {
  }

  lemma FinishLeaves(w: World, p: nat, merge: bool, fault: EndFault)
    requires p in w.sessions && w.writers[w.sessions[p].file] == 1
    ensures var after, s := FinishHandler(w, p, merge, fault).0, w.sessions[p];
      && (forall f :: f != s.file ==> after.writers[f] == w.writers[f])
      && after.writers[s.file] == (if StopsBeforeDetach(fault) then 1 else 0)
  {
  }

  lemma FinishTidyIff(w: World, p: nat, merge: bool, fault: EndFault)
    requires Core(w) && Tidy(w)
    ensures Tidy(FinishHandler(w, p, merge, fault).0) <==> !(p in w.sessions && StopsBeforeDetach(fault))
  {
    if p in w.sessions {
      FinishEffect(w, p, merge, fault);
      assert SessionFile(w, w.sessions[p].file) && SessionOk(w, p);
      ImagesAreNotOverlays(w, w.sessions[p].file);
      FinishLeaves(w, p, merge, fault);
      FinishTarget(w, p, merge, fault);
      ClosedTidyIff(w, FinishHandler(w, p, merge, fault).0, p);
    }
  }

  lemma DeleteVersionTidy(w: World, p: nat, v: nat)
    requires Core(w) && Tidy(w)
    ensures Tidy(DeleteVersionHandler(w, p, v).0)
  {
    if (p, v) in w.versions {
      var file := NewFile(w, p, v);
      assert Registered(w, file);
      if SessionFile(w, file) { OpenFilesAreNew(w, file); }
      ImagesAreNotOverlays(w, file);
      StaysTidy(w, DeleteVersionHandler(w, p, v).0);
    }
  }

  lemma RestartTidyIff(w: World)
    requires Core(w) && Tidy(w)
    ensures Tidy(Step(w, Restart).0) <==> w.sessions == map[]
  {
    var after := Step(w, Restart).0;
    if p :| p in w.sessions {
      assert SessionFile(w, w.sessions[p].file) && !SessionFile(after, w.sessions[p].file);
      ImagesAreNotOverlays(w, w.sessions[p].file);
      assert w.writers[w.sessions[p].file] == 1;
    } else {
      StaysTidy(w, after);
    }
  }

  lemma CreateTidyIff(w: World, id: nat, text: bytes)
    requires Core(w) && Tidy(w) && id !in w.profiles
    ensures Tidy(Step(w, CreateProfile(id, text)).0) <==>
            forall p :: p in w.profiles ==> w.profiles[p].storageDir != Directory(w.root, text)
  {
    var after := Step(w, CreateProfile(id, text)).0;
    assert forall f :: SessionFile(after, f) <==> SessionFile(w, f);
    assert forall u :: OpenUser(after, u) <==> OpenUser(w, u);
    if p :| p in w.profiles && w.profiles[p].storageDir == Directory(w.root, text) {
      assert after.profiles[p].storageDir == after.profiles[id].storageDir;
    }
  }

  lemma QuietTidy(w: World, e: Event)
    requires Tidy(w) && (e.DeleteProfile? || e.ForceUnlock? || e.Bind? || e.Write?)
    ensures Tidy(Step(w, e).0)
  {
    var after := Step(w, e).0;
    QuietDirs(w, e);
    QuietTables(w, e);
    StaysTidy(w, after);
  }

  lemma QuietTables(w: World, e: Event)
    requires e.DeleteProfile? || e.ForceUnlock? || e.Bind? || e.Write?
    ensures var after := Step(w, e).0;
      after.sessions == w.sessions && after.stores == w.stores && after.mapped == w.mapped && after.writers == w.writers
  {
  }

  lemma QuietDirs(w: World, e: Event)
    requires e.DeleteProfile? || e.ForceUnlock? || e.Bind? || e.Write?
    ensures NoNewDirs(w, Step(w, e).0)
  {
  }

  lemma ClientTidy(w: World, iqn: bytes, p: nat, v: nat, reach: StartReach, end: EndReach)
    requires Tidy(w)
    ensures Tidy(StartClient(w, iqn, p, v, reach)) && Tidy(EndClient(w, iqn, end))
  {
    var started, ended := StartClient(w, iqn, p, v, reach), EndClient(w, iqn, end);
    ClientTables(w, iqn, p, v, reach, end);
    forall f | !IsOverlay(f) ensures started.writers[f] == w.writers[f] == ended.writers[f] {
      ClientKeepsImages(w, iqn, p, v, reach, end, f);
    }
    StaysTidy(w, started);
    StaysTidy(w, ended);
  }

  /** A world stays tidy through an event exactly when the event is not one of the four kinds. */
  lemma TidyIff(w: World, e: Event)
    requires Core(w) && Tidy(w) && Enabled(w, e)
    ensures Tidy(Step(w, e).0) <==> !Untidies(w, e)
  {
    match e
    case CreateProfile(id, text) => CreateTidyIff(w, id, text);
    case StartUpdate(p, username, base, additional, fault) => StartTidyIff(w, p, username, base, additional, fault);
    case FinishUpdate(p, merge, fault) => FinishTidyIff(w, p, merge, fault);
    case DeleteVersion(p, v) => DeleteVersionTidy(w, p, v);
    case Restart => RestartTidyIff(w);
    case ClientStarts(iqn, p, v, reach) => ClientTidy(w, iqn, p, v, reach, NothingFreed);
    case ClientEnds(iqn, reach) => ClientTidy(w, iqn, 0, 0, NotOpened, reach);
    case _ => QuietTidy(w, e);
  }

  /** A process starts in a tidy world exactly if the last one left separate directories, no writable loop
      but of overlays, and nothing of an admin session at the target. */
  lemma BootIsTidyIff(left: World)
    requires SoundRows(left)
    ensures var w := Step(left, Restart).0;
      && Core(w)
      && (Tidy(w) <==> DistinctDirs(left) && left.stores == {} && left.mapped == {}
                       && forall f :: !IsOverlay(f) ==> left.writers[f] == 0)
  {
    var w := Step(left, Restart).0;
    assert forall f :: !SessionFile(w, f);
    assert forall u :: !OpenUser(w, u);
    assert w.stores == left.stores && w.mapped == left.mapped && w.writers == left.writers;
    if DistinctDirs(w) {
      forall p, q | p in left.profiles && q in left.profiles && p != q
        ensures left.profiles[p].storageDir != left.profiles[q].storageDir
      {
        assert w.profiles[p].storageDir != w.profiles[q].storageDir;
      }
    }
  }

  /** The copy an admin works on: the base image followed by exactly the zeros asked for. */
  lemma AdminCopyIsBaseThenZeros(w: World, p: nat, username: bytes, base: nat, additional: int)
    requires Core(w) && SeparateDirs(w)
    requires StartHandler(w, p, username, base, additional, StartsWell).1.Redirect?
    ensures var after := StartHandler(w, p, username, base, additional, StartsWell).0;
      && ReachesCopy(w, p, base) && p in after.sessions && after.sessions[p].file in after.files
      && var image, copy := w.files[NewFile(w, p, base)], after.files[after.sessions[p].file];
         && image <= copy && |copy| == |image| + Max(0, additional)
         && (forall i :: |image| <= i < |copy| ==> copy[i] == 0)
         && NewFile(w, p, base) in after.files && after.files[NewFile(w, p, base)] == image
  {
    StartEffect(w, p, username, base, additional, StartsWell);
    StartOpensIff(w, p, username, base, additional, StartsWell);
    assert Registered(w, NewFile(w, p, base));
    StartKeepsImages(w, p, username, base, additional, StartsWell, NewFile(w, p, base));
  }
}
