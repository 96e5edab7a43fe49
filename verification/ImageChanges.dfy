/** Exactly which events change which table, file or session, and how a cancelled session and a deleted
    version leave the world. */
module ImageChanges {
  import opened Bytes
  import opened ImagePaths
  import opened ImageProfiles
  import opened ImageFiles
  import opened ImageLeftovers
  import opened ImageSafety

  // ---------- sessions ----------

  /** The start of a session on a profile without one that nothing and nobody refuses. */
  ghost predicate Opens(w: World, e: Event, p: nat) {
    && e.StartUpdate? && e.profile == p && p !in w.sessions && ReachesCopy(w, p, e.base) && e.startFault.StartsWell?
    && (p, NextVersion(w.versions, p)) !in w.stores && e.username !in w.mapped
  }

  predicate Closes(w: World, e: Event, p: nat) { p in w.sessions && (e.Restart? || (e.FinishUpdate? && e.profile == p)) }

  lemma SessionsChangeIff(w: World, e: Event, p: nat)
    requires Core(w) && Enabled(w, e)
    ensures var after := Step(w, e).0;
      && (p !in w.sessions && p in after.sessions <==> Opens(w, e, p))
      && (p in w.sessions && p !in after.sessions <==> Closes(w, e, p))
      && (p in w.sessions && p in after.sessions ==> after.sessions[p] == w.sessions[p])
      && (Opens(w, e, p) ==>
            var n := NextVersion(w.versions, p);
            after.sessions[p] == AdminSession(p, n, NewFile(w, p, n), e.username))
  {
    match e
    case StartUpdate(q, username, base, additional, fault) =>
      StartSessions(w, q, username, base, additional, fault);
      if q in w.profiles && !IsLocked(w, q) { StartOpensIff(w, q, username, base, additional, fault); }
    case FinishUpdate(q, merge, fault) => if q in w.sessions { FinishEffect(w, q, merge, fault); }
    case _ => QuietTarget(w, e);
  }

  // ---------- profiles and bindings ----------

  ghost predicate Refers(w: World, p: nat) { HasVersion(w, p) || exists c :: c in w.bindings && w.bindings[c].0 == p }

  lemma ReferencedIff(w: World, p: nat)
    ensures Referenced(w, p) <==> Refers(w, p)
  {
    if key :| key in w.versions && key.0 == p { assert (p, key.1) in w.versions; }
    if v: nat :| (p, v) in w.versions { assert (p, v).0 == p; }
  }

  /** Profiles come and go by their two handlers only: a deletion is refused exactly while a session is
      open or a version or binding refers to the profile. */
  lemma ProfilesChangeIff(w: World, e: Event, p: nat)
    requires Core(w) && Enabled(w, e)
    ensures var after := Step(w, e).0;
      && (p !in w.profiles && p in after.profiles <==> e.CreateProfile? && e.id == p)
      && (p in w.profiles && p !in after.profiles <==>
            e == DeleteProfile(p) && p in w.profiles && p !in w.sessions && !Refers(w, p))
      && (e.CreateProfile? && e.id == p ==> after.profiles[p] == Profile(Directory(w.root, e.text), None))
      && (p in w.profiles && p in after.profiles ==> after.profiles[p].storageDir == w.profiles[p].storageDir)
  {
    ReferencedIff(w, p);
    if p in w.profiles && p in Step(w, e).0.profiles { DirsStay(w, e, p); }
    match e
    case StartUpdate(q, username, base, additional, fault) => StartSessions(w, q, username, base, additional, fault);
    case FinishUpdate(q, merge, fault) => if q in w.sessions { FinishEffect(w, q, merge, fault); }
    case ClientStarts(iqn, q, v, reach) => ClientTables(w, iqn, q, v, reach, NothingFreed);
    case ClientEnds(iqn, reach) => ClientTables(w, iqn, 0, 0, NotOpened, reach);
    case DeleteProfile(q) => assert IsLocked(w, q) <==> q in w.sessions;
    case _ =>
  }

  /** Rows are left alone by most events. */
  lemma QuietRows(w: World, e: Event)
    requires !e.StartUpdate? && !e.FinishUpdate?
    ensures !e.DeleteVersion? ==> Step(w, e).0.versions == w.versions
    ensures !e.Bind? ==> Step(w, e).0.bindings == w.bindings
  {
    match e
    case ClientStarts(iqn, q, v, reach) => ClientTables(w, iqn, q, v, reach, NothingFreed);
    case ClientEnds(iqn, reach) => ClientTables(w, iqn, 0, 0, NotOpened, reach);
    case _ =>
  }

  lemma StartRows(w: World, p: nat, username: bytes, base: nat, additional: int, fault: StartFault)
    requires Core(w)
    ensures var after := StartHandler(w, p, username, base, additional, fault).0;
      after.versions == w.versions && after.bindings == w.bindings
  {
    StartEffect(w, p, username, base, additional, fault);
  }

  lemma BindingsChangeIff(w: World, e: Event)
    requires Core(w) && Enabled(w, e)
    ensures Step(w, e).0.bindings ==
      if e.Bind? && e.profile in w.profiles then w.bindings[e.client := (e.profile, e.version)] else w.bindings
  {
    match e
    case StartUpdate(q, username, base, additional, fault) => StartRows(w, q, username, base, additional, fault);
    case FinishUpdate(q, merge, fault) => if q in w.sessions { FinishEffect(w, q, merge, fault); }
    case Bind(_, _, _) =>
    case _ => QuietRows(w, e);
  }

  // ---------- versions ----------

  ghost predicate Merges(w: World, e: Event, p: nat, v: nat) {
    e == FinishUpdate(p, true, EndsWell) && p in w.sessions && w.sessions[p].version == v && w.sessions[p].file in w.files
  }

  ghost predicate Deletes(w: World, e: Event, p: nat, v: nat) {
    e == DeleteVersion(p, v) && (p, v) in w.versions && forall c :: c in w.bindings ==> w.bindings[c] != (p, v)
  }

  lemma FinishVersionsIff(w: World, p: nat, merge: bool, fault: EndFault)
    requires Core(w) && p in w.sessions
    ensures var after, s := FinishHandler(w, p, merge, fault).0, w.sessions[p];
      after.versions == if merge && fault.EndsWell? && s.file in w.files
        then w.versions[(p, s.version) := Version(BaseName(s.version), s.username)] else w.versions
  {
    assert SessionOk(w, p);
    var s := w.sessions[p];
    FinishEffect(w, p, merge, fault);
    if merge && fault.EndsWell? && s.file in w.files {
      MergeRegisters(w, p);
    } else {
      NoMergeNoVersion(w, p, merge, fault);
    }
  }

  lemma NoMergeNoVersion(w: World, p: nat, merge: bool, fault: EndFault)
    requires p in w.sessions && !(merge && fault.EndsWell? && w.sessions[p].file in w.files)
    ensures FinishHandler(w, p, merge, fault).0.versions == w.versions
  {
  }

  /** Versions come by merges without failure and go by deletions of unassigned ones, and never change. */
  lemma VersionsChangeIff(w: World, e: Event, p: nat, v: nat)
    requires Core(w)
    ensures var after := Step(w, e).0;
      && ((p, v) !in w.versions && (p, v) in after.versions <==> Merges(w, e, p, v))
      && ((p, v) in w.versions && (p, v) !in after.versions <==> Deletes(w, e, p, v))
      && ((p, v) in w.versions && (p, v) in after.versions ==> after.versions[(p, v)] == w.versions[(p, v)])
      && (Merges(w, e, p, v) ==> after.versions[(p, v)] == Version(BaseName(v), w.sessions[p].username))
  {
    match e
    case StartUpdate(q, username, base, additional, fault) => StartRows(w, q, username, base, additional, fault);
    case FinishUpdate(q, merge, fault) => if q in w.sessions { FinishChanges(w, q, merge, fault, p, v); }
    case DeleteVersion(q, u) => DeleteChanges(w, q, u, p, v);
    case _ => QuietRows(w, e);
  }

  lemma FinishChanges(w: World, q: nat, merge: bool, fault: EndFault, p: nat, v: nat)
    requires Core(w) && q in w.sessions
    ensures var after, e := FinishHandler(w, q, merge, fault).0, FinishUpdate(q, merge, fault);
      && ((p, v) !in w.versions && (p, v) in after.versions <==> Merges(w, e, p, v))
      && ((p, v) in w.versions ==> (p, v) in after.versions && after.versions[(p, v)] == w.versions[(p, v)])
      && (Merges(w, e, p, v) ==> after.versions[(p, v)] == Version(BaseName(v), w.sessions[p].username))
  {
    assert SessionOk(w, q);
    FinishVersionsIff(w, q, merge, fault);
  }

  lemma DeleteChanges(w: World, q: nat, u: nat, p: nat, v: nat)
    requires Core(w)
    ensures var after, e := DeleteVersionHandler(w, q, u).0, DeleteVersion(q, u);
      && ((p, v) in after.versions ==> (p, v) in w.versions && after.versions[(p, v)] == w.versions[(p, v)])
      && ((p, v) in w.versions && (p, v) !in after.versions <==> Deletes(w, e, p, v))
  {
    if (q, u) in w.versions { assert (q, u).0 in w.profiles; }
  }

  /** A version that some client is assigned is not deleted by any handler. */
  lemma AssignedVersionsStay(w: World, e: Event, p: nat, v: nat)
    requires Core(w) && Bound(w, p, v) && (p, v) in w.versions
    ensures (p, v) in Step(w, e).0.versions
  {
    VersionsChangeIff(w, e, p, v);
  }

  /** Deleting a version succeeds exactly if it exists and no client is assigned it. Then its row and its
      image are gone and everything else is as it was; refused, it changes nothing. */
  lemma DeleteVersionIff(w: World, p: nat, v: nat)
    requires Core(w)
    ensures var (after, reply) := Step(w, DeleteVersion(p, v));
      && (reply == Redirect <==> (p, v) in w.versions && !Bound(w, p, v))
      && (reply == Conflict <==> Bound(w, p, v))
      && (reply != Redirect ==> after == w)
      && (reply == Redirect ==>
            && (p, v) !in after.versions && p in w.profiles && NewFile(w, p, v) !in after.files
            && after.writers[NewFile(w, p, v)] == 0
            && (forall key :: key in w.versions && key != (p, v) ==> key in after.versions && after.versions[key] == w.versions[key])
            && (forall f :: f != NewFile(w, p, v) ==> SameContent(w, after, f) && after.writers[f] == w.writers[f])
            && after == w.(versions := after.versions, files := after.files, writers := after.writers)
            && (SeparateDirs(w) ==> !Registered(after, NewFile(w, p, v))))
  {
    var (after, reply) := Step(w, DeleteVersion(p, v));
    if reply == Redirect {
      assert (p, v).0 in w.profiles;
      if SeparateDirs(w) && Registered(after, NewFile(w, p, v)) {
        var key :| key in after.versions && key.0 in after.profiles && NewFile(w, p, v) == NewFile(after, key.0, key.1);
        assert (key.0, key.1) in w.versions && NewFile(after, key.0, key.1) == NewFile(w, key.0, key.1);
        SameFileSameVersion(w, p, v, key.0, key.1);
      }
    }
  }

  // ---------- files ----------

  ghost predicate Discards(w: World, e: Event, f: FilePath) {
    match e
    case FinishUpdate(p, merge, fault) => !merge && fault.EndsWell? && p in w.sessions && w.sessions[p].file == f
    case DeleteVersion(p, v) => Deletes(w, e, p, v) && p in w.profiles && NewFile(w, p, v) == f
    case ClientEnds(iqn, reach) => reach.FileRemoved? && f == OverlayFile(w.root, iqn)
    case _ => false
  }

  /** What an event writes to a file. */
  ghost function Writes(w: World, e: Event, f: FilePath): Option<bytes> {
    match e
    case StartUpdate(p, _, base, additional, fault) =>
      if ReachesCopy(w, p, base) && f == NewFile(w, p, NextVersion(w.versions, p)) then
        var source := FilePath(w.profiles[p].storageDir, w.versions[(p, base)].fileName);
        Copied(w.files[source], additional, fault)
      else None
    case ClientStarts(iqn, p, v, reach) =>
      if p in w.profiles && (p, v) in w.versions && f == OverlayFile(w.root, iqn) && !reach.NotOpened? then
        var image := FilePath(w.profiles[p].storageDir, w.versions[(p, v)].fileName);
        if image !in w.files then None else Some(if reach.Emptied? then [] else Zeros(|w.files[image]|))
      else None
    case Write(file, content) => if f == file && f in w.files then Some(content) else None
    case _ => None
  }

  /** A file goes exactly by a cancel, by the deletion of its version, or, an overlay, by its client's end;
      it is written exactly by a copy, by a client start, or through its loop; else it keeps its bytes. */
  lemma FilesChangeIff(w: World, e: Event, f: FilePath)
    requires Core(w) && Enabled(w, e)
    ensures var after := Step(w, e).0;
      if Discards(w, e, f) then f !in after.files
      else match Writes(w, e, f)
           case Some(content) => f in after.files && after.files[f] == content
           case None => SameContent(w, after, f)
  {
    match e
    case StartUpdate(p, username, base, additional, fault) => StartFiles(w, p, username, base, additional, fault, f);
    case FinishUpdate(p, merge, fault) => if p in w.sessions { FinishFile(w, p, merge, fault, f); }
    case DeleteVersion(p, v) => DeleteVersionIff(w, p, v);
    case ClientStarts(iqn, p, v, reach) => ClientFiles(w, iqn, p, v, reach, NothingFreed, f);
    case ClientEnds(iqn, reach) => ClientFiles(w, iqn, 0, 0, NotOpened, reach, f);
    case _ =>
  }

  lemma StartFiles(w: World, p: nat, username: bytes, base: nat, additional: int, fault: StartFault, f: FilePath)
    requires Core(w)
    ensures var after := StartHandler(w, p, username, base, additional, fault).0;
      match Writes(w, StartUpdate(p, username, base, additional, fault), f)
      case Some(content) => f in after.files && after.files[f] == content
      case None => SameContent(w, after, f)
  {
    if ReachesCopy(w, p, base) {
      HandlerRunsSession(w, p, username, base, additional, fault);
      CopyWrites(w, p, username, base, additional, fault);
    } else {
      NoCopyNoChange(w, p, username, base, additional, fault);
    }
  }

  lemma FinishFile(w: World, p: nat, merge: bool, fault: EndFault, f: FilePath)
    requires p in w.sessions
    ensures var after := FinishHandler(w, p, merge, fault).0;
      if !merge && fault.EndsWell? && w.sessions[p].file == f then f !in after.files else SameContent(w, after, f)
  {
  }

  lemma ClientFiles(w: World, iqn: bytes, p: nat, v: nat, reach: StartReach, end: EndReach, f: FilePath)
    ensures var after := StartClient(w, iqn, p, v, reach);
      match Writes(w, ClientStarts(iqn, p, v, reach), f)
      case Some(content) => f in after.files && after.files[f] == content
      case None => SameContent(w, after, f)
    ensures var after := EndClient(w, iqn, end);
      if end.FileRemoved? && f == OverlayFile(w.root, iqn) then f !in after.files else SameContent(w, after, f)
  {
  }

  /** The overlay of a client start that got through is as long as its image, all zeros, with one more loop;
      the client's end takes that loop and then the file. */
  lemma OverlayComesAndGoes(w: World, iqn: bytes, p: nat, v: nat)
    requires Core(w) && p in w.profiles && (p, v) in w.versions && NewFile(w, p, v) in w.files
    ensures var overlay := OverlayFile(w.root, iqn);
      var started := Step(w, ClientStarts(iqn, p, v, Attached)).0;
      && overlay in started.files && |started.files[overlay]| == |w.files[NewFile(w, p, v)]|
      && (forall i :: 0 <= i < |started.files[overlay]| ==> started.files[overlay][i] == 0)
      && started.writers == w.writers + multiset{overlay}
      && Step(started, ClientEnds(iqn, LoopDetached)).0.writers == w.writers
      && (w.writers[overlay] == 0 && overlay !in w.files ==> Step(started, ClientEnds(iqn, FileRemoved)).0 == w)
  {
    var overlay := OverlayFile(w.root, iqn);
    var started := Step(w, ClientStarts(iqn, p, v, Attached)).0;
    assert started.writers - multiset{overlay} == w.writers;
    if w.writers[overlay] == 0 && overlay !in w.files {
      assert started.files - {overlay} == w.files && started.writers[overlay := 0] == w.writers;
    }
  }

  // ---------- a session cancelled ----------

  /** A cancel that nothing stops answers with the redirect, discards the copy and keeps everything else. */
  lemma CancelDiscards(w: World, p: nat)
    requires Core(w) && p in w.sessions
    ensures var (after, reply) := Step(w, FinishUpdate(p, false, EndsWell));
      var s := w.sessions[p];
      && reply == Redirect && s.file !in after.files && after.writers[s.file] == 0
      && (forall f :: f != s.file ==> SameContent(w, after, f) && after.writers[f] == w.writers[f])
      && after.versions == w.versions && after.bindings == w.bindings && after.sessions == w.sessions - {p}
      && after.profiles == Release(w, p).profiles
      && after.stores == w.stores - {(p, s.version)} && after.mapped == w.mapped - {s.username}
  {
    assert SessionOk(w, p);
    FinishEffect(w, p, false, EndsWell);
    FinishTarget(w, p, false, EndsWell);
    NoMergeNoVersion(w, p, false, EndsWell);
  }

  /** A session opened and cancelled gives everything back, locks included; of its new file nothing is left. */
  lemma CancelUndoesStart(w: World, p: nat, username: bytes, base: nat, additional: int)
    requires Core(w) && Opens(w, StartUpdate(p, username, base, additional, StartsWell), p)
    ensures var f := NewFile(w, p, NextVersion(w.versions, p));
      var started := Step(w, StartUpdate(p, username, base, additional, StartsWell)).0;
      Step(started, FinishUpdate(p, false, EndsWell)) == (w.(files := w.files - {f}, writers := w.writers[f := 0]), Redirect)
  {
    var n := NextVersion(w.versions, p);
    var started := Step(w, StartUpdate(p, username, base, additional, StartsWell)).0;
    StartOpens(w, p, username, base, additional);
    StartLeaves(w, p, username, base, additional, StartsWell);
    CancelGivesBack(w, started, p, username, n, Grown(w.files[NewFile(w, p, base)], additional));
  }

  lemma CancelGivesBack(w: World, started: World, p: nat, username: bytes, n: nat, content: bytes)
    requires Core(w) && Core(started) && p in w.profiles && p !in w.sessions && started.root == w.root
    requires var s := AdminSession(p, n, NewFile(w, p, n), username);
      SameTables(started, Lock(w, p, username).(sessions := w.sessions[p := s]))
    requires started.files == w.files[NewFile(w, p, n) := content] && started.writers == w.writers + multiset{NewFile(w, p, n)}
    requires (p, n) !in w.stores && started.stores == w.stores + {(p, n)}
    requires username !in w.mapped && started.mapped == w.mapped + {username}
    ensures var f := NewFile(w, p, n);
      Step(started, FinishUpdate(p, false, EndsWell)) == (w.(files := w.files - {f}, writers := w.writers[f := 0]), Redirect)
  {
    CancelDiscards(started, p);
    FinishTarget(started, p, false, EndsWell);
    CancelledFiles(w, started, p, NewFile(w, p, n), content);
    TablesBack(w, started, p, username, started.sessions[p]);
    AddThenTake(w.stores, (p, n));
    AddThenTake(w.mapped, username);
  }

  lemma AddThenTake<T>(s: set<T>, x: T)
    requires x !in s
    ensures s + {x} - {x} == s
  {
  }

  lemma TablesBack(w: World, started: World, p: nat, username: bytes, s: AdminSession)
    requires Core(w) && p in w.profiles && p !in w.sessions
    requires SameTables(started, Lock(w, p, username).(sessions := w.sessions[p := s]))
    ensures Release(started, p).profiles == w.profiles && started.sessions - {p} == w.sessions
    ensures started.versions == w.versions && started.bindings == w.bindings
  {
    UnlockedAgain(w, p, username);
    assert Release(started, p).profiles == Release(Lock(w, p, username), p).profiles;
  }

  lemma UnlockedAgain(w: World, p: nat, username: bytes)
    requires Core(w) && p in w.profiles && p !in w.sessions
    ensures Release(Lock(w, p, username), p).profiles == w.profiles
  {
    assert !IsLocked(w, p);
  }

  lemma CancelledFiles(w: World, started: World, p: nat, f: FilePath, content: bytes)
    requires p in started.sessions && started.sessions[p].file == f
    requires started.files == w.files[f := content] && started.writers == w.writers + multiset{f}
    ensures var after := FinishHandler(started, p, false, EndsWell).0;
      after.files == w.files - {f} && after.writers == w.writers[f := 0]
  {
    assert w.files[f := content] - {f} == w.files - {f};
    assert (w.writers + multiset{f} - multiset{f})[f := 0] == w.writers[f := 0];
  }

  // ---------- replies ----------

  /** What the handlers refuse, and why. */
  lemma RefusalsIff(w: World, e: Event)
    requires Core(w) && Enabled(w, e)
    ensures Step(w, e).1 == Conflict <==>
      match e
      case StartUpdate(p, _, _, _, _) => p in w.sessions
      case ForceUnlock(p) => p in w.sessions
      case DeleteProfile(p) => p in w.sessions || (p in w.profiles && Refers(w, p))
      case DeleteVersion(p, v) => Bound(w, p, v)
      case Bind(_, p, _) => p !in w.profiles
      case _ => false
    ensures Step(w, e).1 == NotFound <==>
      match e
      case FinishUpdate(p, _, _) => p !in w.sessions
      case DeleteVersion(p, v) => !Bound(w, p, v) && (p, v) !in w.versions
      case _ => false
  {
    match e
    case DeleteProfile(p) => ReferencedIff(w, p); assert IsLocked(w, p) <==> p in w.sessions;
    case StartUpdate(p, username, base, additional, fault) =>
      assert IsLocked(w, p) <==> p in w.sessions;
      if p in w.sessions { assert SessionOk(w, p); }
    case DeleteVersion(p, v) => if (p, v) in w.versions { assert (p, v).0 in w.profiles; }
    case _ =>
  }
}
