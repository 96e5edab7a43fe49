/** Registered images are immutable: what keeps them so through exceptions, crashes, second sessions and
    shared directories, and the two events after which they no longer are. */
module ImageSafety {
  import opened Bytes
  import opened ImagePaths
  import opened ImageProfiles
  import opened ImageFiles
  import opened ImageLeftovers

  // ---------- the invariant ----------

  /** A version whose image is there to start from. */
  ghost predicate HasImage(w: World, p: nat)
    requires p in w.profiles
  {
    exists v: nat :: (p, v) in w.versions && NewFile(w, p, v) in w.files
  }

  ghost predicate Usable(w: World, p: nat)
    requires p in w.profiles
  {
    p in w.sessions || HasImage(w, p)
  }

  ghost predicate CappedBy(w: World, p: nat, n: nat) { exists m: nat :: m <= n && Capped(w, p, m) }

  /** The file of number `n` is not a registered image of the profile and will not become one. */
  ghost predicate Barred(w: World, p: nat, n: nat)
    requires p in w.profiles
  {
    (p, n) !in w.versions && (Usable(w, p) ==> CappedBy(w, p, n))
  }

  /** The file has a writable loop that no open session will detach. */
  ghost predicate Stray(w: World, f: FilePath) { w.writers[f] > if SessionFile(w, f) then 1 else 0 }

  ghost predicate LoopsGuarded(w: World) {
    && (forall p :: p in w.sessions ==> w.writers[w.sessions[p].file] >= 1)
    && (forall p: nat, n: nat :: p in w.profiles && Stray(w, NewFile(w, p, n)) ==> Barred(w, p, n))
  }

  /** Profiles that hold images have separate directories; the books of the target balance; and every
      stray loop is on a file that cannot be registered. */
  ghost predicate Guarded(w: World) { SeparateDirs(w) && Accounted(w) && LoopsGuarded(w) }

  lemma TidyIsGuarded(w: World)
    requires Core(w) && Tidy(w)
    ensures Guarded(w)
  {
    forall p: nat, n: nat | p in w.profiles ensures !Stray(w, NewFile(w, p, n)) {
      OverlaysAreNotImages([], [], NewFile(w, p, n).dir, n);
    }
    forall p | p in w.sessions ensures w.writers[w.sessions[p].file] >= 1 {
      assert SessionFile(w, w.sessions[p].file);
      ImagesAreNotOverlays(w, w.sessions[p].file);
    }
    forall p | p in w.sessions ensures w.sessions[p].username in w.mapped {
      assert OpenUser(w, w.sessions[p].username);
    }
  }

  /** A registered image is never open for writing. */
  lemma ImagesAreReadOnly(w: World, f: FilePath)
    requires Core(w) && Guarded(w) && Registered(w, f)
    ensures w.writers[f] == 0
  {
    var key :| key in w.versions && key.0 in w.profiles && f == NewFile(w, key.0, key.1);
    if SessionFile(w, f) { OpenFilesAreNew(w, f); }
    assert Stray(w, NewFile(w, key.0, key.1)) ==> Barred(w, key.0, key.1);
  }

  // ---------- what no event brings about ----------

  lemma SessionsComeFromImages(w: World, e: Event, p: nat)
    requires Core(w) && Enabled(w, e) && p !in w.sessions && p in Step(w, e).0.sessions
    ensures p in w.profiles && HasImage(w, p)
  {
    match e
    case StartUpdate(q, username, base, additional, fault) =>
      StartSessions(w, q, username, base, additional, fault);
      StartOpensIff(w, q, username, base, additional, fault);
    case FinishUpdate(q, merge, fault) => if q in w.sessions { FinishEffect(w, q, merge, fault); }
    case _ => QuietTarget(w, e);
  }

  lemma VersionsComeFromSessions(w: World, e: Event, p: nat, v: nat)
    requires Core(w) && Enabled(w, e) && (p, v) !in w.versions && (p, v) in Step(w, e).0.versions
    ensures e.FinishUpdate? && e.profile == p && p in w.sessions && w.sessions[p].version == v
  {
    match e
    case StartUpdate(q, username, base, additional, fault) => StartSessions(w, q, username, base, additional, fault);
    case FinishUpdate(q, merge, fault) => if q in w.sessions { FinishEffect(w, q, merge, fault); assert SessionOk(w, q); }
    case ClientStarts(iqn, q, u, reach) => ClientTables(w, iqn, q, u, reach, NothingFreed);
    case ClientEnds(iqn, reach) => ClientTables(w, iqn, 0, 0, NotOpened, reach);
    case _ =>
  }

  lemma QuietProfiles(w: World, e: Event, p: nat)
    requires Enabled(w, e) && !e.StartUpdate? && !e.FinishUpdate? && p in w.profiles && p in Step(w, e).0.profiles
    ensures Step(w, e).0.profiles[p].storageDir == w.profiles[p].storageDir
  {
    match e
    case ClientStarts(iqn, q, v, reach) => ClientTables(w, iqn, q, v, reach, NothingFreed);
    case ClientEnds(iqn, reach) => ClientTables(w, iqn, 0, 0, NotOpened, reach);
    case _ =>
  }

  lemma DirsStay(w: World, e: Event, p: nat)
    requires Core(w) && Enabled(w, e) && p in w.profiles && p in Step(w, e).0.profiles
    ensures Step(w, e).0.profiles[p].storageDir == w.profiles[p].storageDir
  {
    match e
    case StartUpdate(q, username, base, additional, fault) => StartSessions(w, q, username, base, additional, fault);
    case FinishUpdate(q, merge, fault) => if q in w.sessions { FinishEffect(w, q, merge, fault); }
    case _ => QuietProfiles(w, e, p);
  }

  /** No event makes a profile hold images that held none. */
  lemma UsedStays(w: World, e: Event, p: nat)
    requires Core(w) && Enabled(w, e) && Used(Step(w, e).0, p) && p in Step(w, e).0.profiles
    ensures p in w.profiles && Used(w, p) && Step(w, e).0.profiles[p].storageDir == w.profiles[p].storageDir
  {
    var after := Step(w, e).0;
    if p in after.sessions {
      if p !in w.sessions { SessionsComeFromImages(w, e, p); } else { assert SessionOk(w, p); }
    } else {
      var v: nat :| (p, v) in after.versions;
      if (p, v) in w.versions { assert (p, v).0 in w.profiles; } else { VersionsComeFromSessions(w, e, p, v); assert SessionOk(w, p); }
    }
    DirsStay(w, e, p);
  }

  lemma SeparateStep(w: World, e: Event)
    requires Core(w) && SeparateDirs(w) && Enabled(w, e)
    ensures SeparateDirs(Step(w, e).0)
  {
    var after := Step(w, e).0;
    forall p, q | p in after.profiles && q in after.profiles && p != q && Used(after, p) && Used(after, q)
      ensures after.profiles[p].storageDir != after.profiles[q].storageDir
    {
      UsedStays(w, e, p);
      UsedStays(w, e, q);
    }
  }

  lemma FilesShrink(w: World, e: Event)
    requires !e.StartUpdate? && !e.ClientStarts?
    ensures Step(w, e).0.files.Keys <= w.files.Keys
  {
    if e.FinishUpdate? { FinishFiles(w, e.profile, e.merge, e.endFault); }
  }

  lemma FinishFiles(w: World, p: nat, merge: bool, fault: EndFault)
    ensures FinishHandler(w, p, merge, fault).0.files.Keys <= w.files.Keys
  {
  }

  /** No event brings the image of a version back. */
  lemma ImageStays(w: World, e: Event, p: nat, v: nat)
    requires Core(w) && SeparateDirs(w) && Enabled(w, e) && p in w.profiles
    requires (p, v) in w.versions && NewFile(w, p, v) in Step(w, e).0.files
    ensures NewFile(w, p, v) in w.files
  {
    var f := NewFile(w, p, v);
    match e
    case StartUpdate(q, username, base, additional, fault) => StartBringsNoImage(w, q, username, base, additional, fault, p, v);
    case ClientStarts(iqn, q, u, reach) =>
      OverlaysAreNotImages([], [], f.dir, v);
      ClientKeepsImages(w, iqn, q, u, reach, NothingFreed, f);
    case _ => FilesShrink(w, e);
  }

  lemma StartBringsNoImage(w: World, q: nat, username: bytes, base: nat, additional: int, fault: StartFault, p: nat, v: nat)
    requires Core(w) && SeparateDirs(w) && p in w.profiles && (p, v) in w.versions
    ensures SameContent(w, StartHandler(w, q, username, base, additional, fault).0, NewFile(w, p, v))
  {
    assert Registered(w, NewFile(w, p, v)) by { assert (p, v).0 in w.profiles && NewFile(w, p, v) == NewFile(w, (p, v).0, (p, v).1); }
    StartKeepsImages(w, q, username, base, additional, fault, NewFile(w, p, v));
  }

  lemma UsableStays(w: World, e: Event, p: nat)
    requires Core(w) && SeparateDirs(w) && Enabled(w, e) && p in Step(w, e).0.profiles && Usable(Step(w, e).0, p)
    ensures p in w.profiles && Usable(w, p)
  {
    var after := Step(w, e).0;
    assert Used(after, p);
    UsedStays(w, e, p);
    if p !in w.sessions {
      if p in after.sessions {
        SessionsComeFromImages(w, e, p);
      } else {
        var v: nat :| (p, v) in after.versions && NewFile(after, p, v) in after.files;
        if (p, v) !in w.versions { VersionsComeFromSessions(w, e, p, v); }
        assert NewFile(after, p, v) == NewFile(w, p, v);
        ImageStays(w, e, p, v);
      }
    }
  }

  /** A barred number stays barred unless it is registered. */
  lemma BarredStays(w: World, e: Event, p: nat, n: nat)
    requires Core(w) && SeparateDirs(w) && Enabled(w, e) && p in w.profiles && p in Step(w, e).0.profiles && Barred(w, p, n)
    ensures Barred(Step(w, e).0, p, n)
  {
    var after := Step(w, e).0;
    if Usable(after, p) {
      UsableStays(w, e, p);
      var m: nat :| m <= n && Capped(w, p, m);
      CappedStep(w, e, p, m);
    }
    if (p, n) in after.versions {
      VersionsComeFromSessions(w, e, p, n);
    }
  }

  /** A profile that holds no images cannot come to hold any. */
  lemma UnusedIsBarred(w: World, e: Event, p: nat, n: nat)
    requires Core(w) && Enabled(w, e) && p in Step(w, e).0.profiles && !(p in w.profiles && Used(w, p))
    ensures Barred(Step(w, e).0, p, n)
  {
    var after := Step(w, e).0;
    if Used(after, p) { UsedStays(w, e, p); }
    assert !Used(after, p);
  }

  // ---------- every event but two keeps the guard ----------

  /** The two: a start whose backstore cannot be made, and a finish whose loop cannot be detached while the
      profile has an image to go on from. */
  ghost predicate Endangers(w: World, e: Event) {
    match e
    case StartUpdate(p, _, base, _, fault) =>
      fault.StoreFails? && Attaches(w, p, base, fault) && (p, NextVersion(w.versions, p)) !in w.stores
    case FinishUpdate(p, _, fault) => fault.DetachFails? && p in w.sessions && p in w.profiles && HasImage(w, p)
    case _ => false
  }

  /** The loops after an event, number by number: a stray one was stray before, or is barred now. */
  ghost predicate StraysBarred(w: World, e: Event) {
    var after := Step(w, e).0;
    forall p: nat, n: nat :: p in after.profiles && Stray(after, NewFile(after, p, n)) ==>
      Barred(after, p, n) || (p in w.profiles && after.profiles[p].storageDir == w.profiles[p].storageDir && Stray(w, NewFile(w, p, n)))
  }

  lemma LoopsStep(w: World, e: Event)
    requires Core(w) && Guarded(w) && Enabled(w, e) && StraysBarred(w, e)
    requires var after := Step(w, e).0; forall p :: p in after.sessions ==> after.writers[after.sessions[p].file] >= 1
    ensures LoopsGuarded(Step(w, e).0)
  {
    var after := Step(w, e).0;
    forall p: nat, n: nat | p in after.profiles && Stray(after, NewFile(after, p, n)) ensures Barred(after, p, n) {
      if !Barred(after, p, n) { BarredStays(w, e, p, n); }
    }
  }

  lemma SameLoops(w: World, v: World, f: FilePath)
    requires v.sessions == w.sessions && v.writers[f] <= w.writers[f]
    ensures Stray(v, f) ==> Stray(w, f)
  {
    assert SessionFile(v, f) <==> SessionFile(w, f);
  }

  /** Everything but the admin sessions' own steps and a restart. */
  lemma QuietLoops(w: World, e: Event)
    requires Core(w) && Guarded(w) && Enabled(w, e) && !e.StartUpdate? && !e.FinishUpdate? && !e.Restart?
    ensures LoopsGuarded(Step(w, e).0)
  {
    var after := Step(w, e).0;
    QuietTarget(w, e);
    forall f | !IsOverlay(f) ensures after.writers[f] <= w.writers[f] {
      QuietWriters(w, e, f);
    }
    forall p: nat, n: nat | p in after.profiles && Stray(after, NewFile(after, p, n))
      ensures Barred(after, p, n)
        || (p in w.profiles && after.profiles[p].storageDir == w.profiles[p].storageDir && Stray(w, NewFile(w, p, n)))
    {
      QuietStray(w, e, p, n);
    }
    forall p | p in after.sessions ensures after.writers[after.sessions[p].file] >= 1 {
      assert SessionFile(w, w.sessions[p].file);
      SessionLoopStays(w, e, w.sessions[p].file);
    }
    LoopsStep(w, e);
  }

  lemma QuietWriters(w: World, e: Event, f: FilePath)
    requires !e.StartUpdate? && !e.FinishUpdate? && !e.Restart? && !IsOverlay(f)
    ensures Step(w, e).0.writers[f] <= w.writers[f]
  {
    match e
    case ClientStarts(iqn, q, v, reach) => ClientKeepsImages(w, iqn, q, v, reach, NothingFreed, f);
    case ClientEnds(iqn, reach) => ClientKeepsImages(w, iqn, 0, 0, NotOpened, reach, f);
    case _ =>
  }

  lemma QuietStray(w: World, e: Event, p: nat, n: nat)
    requires Core(w) && Guarded(w) && Enabled(w, e) && !e.StartUpdate? && !e.FinishUpdate? && !e.Restart?
    requires p in Step(w, e).0.profiles && Stray(Step(w, e).0, NewFile(Step(w, e).0, p, n))
    ensures var after := Step(w, e).0;
      Barred(after, p, n)
      || (p in w.profiles && after.profiles[p].storageDir == w.profiles[p].storageDir && Stray(w, NewFile(w, p, n)))
  {
    var after := Step(w, e).0;
    var f := NewFile(after, p, n);
    if p in w.profiles && Used(w, p) {
      QuietTarget(w, e);
      OverlaysAreNotImages([], [], f.dir, n);
      QuietWriters(w, e, f);
      SameLoops(w, after, f);
      QuietProfiles(w, e, p);
    } else {
      UnusedIsBarred(w, e, p, n);
    }
  }

  lemma DeletionSparesSessions(w: World, p: nat, v: nat, f: FilePath)
    requires Core(w) && SeparateDirs(w) && SessionFile(w, f)
    ensures DeleteVersionHandler(w, p, v).0.writers[f] == w.writers[f]
  {
    if (p, v) in w.versions {
      assert (p, v).0 in w.profiles && NewFile(w, p, v) == NewFile(w, (p, v).0, (p, v).1);
      assert Registered(w, NewFile(w, p, v));
      OpenFilesAreNew(w, f);
    }
  }

  lemma SessionLoopStays(w: World, e: Event, f: FilePath)
    requires Core(w) && Guarded(w) && Enabled(w, e) && !e.StartUpdate? && !e.FinishUpdate? && !e.Restart?
    requires SessionFile(w, f)
    ensures Step(w, e).0.writers[f] == w.writers[f]
  {
    ImagesAreNotOverlays(w, f);
    match e
    case ClientStarts(iqn, q, v, reach) => ClientKeepsImages(w, iqn, q, v, reach, NothingFreed, f);
    case ClientEnds(iqn, reach) => ClientKeepsImages(w, iqn, 0, 0, NotOpened, reach, f);
    case DeleteVersion(p, v) => DeletionSparesSessions(w, p, v, f);
    case _ =>
  }

  lemma RestartLoops(w: World)
    requires Core(w) && Guarded(w)
    ensures LoopsGuarded(Step(w, Restart).0)
  {
    var after := Step(w, Restart).0;
    forall p: nat, n: nat | p in after.profiles && Stray(after, NewFile(after, p, n))
      ensures Barred(after, p, n) || Stray(w, NewFile(w, p, n))
    {
      assert NewFile(after, p, n) == NewFile(w, p, n);
      if !Stray(w, NewFile(w, p, n)) {
        assert SessionFile(w, NewFile(w, p, n));
        var q :| q in w.sessions && w.sessions[q].file == NewFile(w, p, n);
        OpenFileIsBarred(w, Restart, q, p, n);
      }
    }
    LoopsStep(w, Restart);
  }

  /** Whoever the file of a closing session could belong to: another profile of the directory is not in use,
      and for its own a leftover backstore stands in the way. */
  lemma OpenFileIsBarred(w: World, e: Event, q: nat, p: nat, n: nat)
    requires Core(w) && Guarded(w) && Enabled(w, e) && q in w.sessions && p in w.profiles && w.sessions[q].file == NewFile(w, p, n)
    requires p in Step(w, e).0.profiles
    requires Capped(Step(w, e).0, q, w.sessions[q].version)
      || (q !in Step(w, e).0.sessions && !HasImage(w, q) && Step(w, e).0.versions == w.versions)
    ensures Barred(Step(w, e).0, p, n)
  {
    var after, s := Step(w, e).0, w.sessions[q];
    assert SessionOk(w, q);
    if Used(w, p) {
      SameFileSameVersion(w, p, n, q, s.version);
      if !Capped(after, q, n) && Usable(after, q) {
        var v: nat :| (q, v) in after.versions && NewFile(after, q, v) in after.files;
        UsedStays(w, e, q);
        assert NewFile(after, q, v) == NewFile(w, q, v);
        ImageStays(w, e, q, v);
        assert false;
      }
    } else {
      UnusedIsBarred(w, e, p, n);
    }
  }

  /** Stray loops of a profile with an open session are on files of later numbers. */
  lemma StrayIsAbove(w: World, q: nat, n: nat)
    requires Core(w) && Guarded(w) && q in w.sessions && q in w.profiles && Stray(w, NewFile(w, q, n))
    ensures w.sessions[q].version < n
  {
    assert Barred(w, q, n);
  }

  /** The loop of an open session is the only one on its file. */
  lemma OwnLoopIsAlone(w: World, q: nat)
    requires Core(w) && Guarded(w) && q in w.sessions
    ensures w.writers[w.sessions[q].file] == 1
  {
    assert SessionOk(w, q) && SessionFile(w, w.sessions[q].file);
    if w.writers[w.sessions[q].file] > 1 { StrayIsAbove(w, q, w.sessions[q].version); }
  }

  lemma FinishStray(w: World, q: nat, merge: bool, fault: EndFault, p: nat, n: nat)
    requires Core(w) && Guarded(w) && q in w.sessions && !Endangers(w, FinishUpdate(q, merge, fault))
    requires var after := FinishHandler(w, q, merge, fault).0; p in w.profiles && p in after.profiles && Stray(after, NewFile(w, p, n))
    ensures Barred(FinishHandler(w, q, merge, fault).0, p, n) || Stray(w, NewFile(w, p, n))
  {
    var after, s := FinishHandler(w, q, merge, fault).0, w.sessions[q];
    OwnLoopIsAlone(w, q);
    FinishEffect(w, q, merge, fault);
    FinishLeaves(w, q, merge, fault);
    SessionFileAfterClose(w, after, q, NewFile(w, p, n));
    if NewFile(w, p, n) == s.file {
      FinishVersions(w, q, merge, fault);
      FinishTarget(w, q, merge, fault);
      assert SessionOk(w, q);
      OpenFileIsBarred(w, FinishUpdate(q, merge, fault), q, p, n);
    }
  }

  lemma FinishLoops(w: World, q: nat, merge: bool, fault: EndFault)
    requires Core(w) && Guarded(w) && q in w.sessions && !Endangers(w, FinishUpdate(q, merge, fault))
    ensures LoopsGuarded(FinishHandler(w, q, merge, fault).0)
  {
    var e := FinishUpdate(q, merge, fault);
    var after := Step(w, e).0;
    OwnLoopIsAlone(w, q);
    FinishEffect(w, q, merge, fault);
    FinishLeaves(w, q, merge, fault);
    forall p: nat, n: nat | p in after.profiles && Stray(after, NewFile(after, p, n))
      ensures Barred(after, p, n)
        || (p in w.profiles && after.profiles[p].storageDir == w.profiles[p].storageDir && Stray(w, NewFile(w, p, n)))
    {
      DirsStay(w, e, p);
      assert NewFile(after, p, n) == NewFile(w, p, n);
      FinishStray(w, q, merge, fault, p, n);
    }
    forall p | p in after.sessions ensures after.writers[after.sessions[p].file] >= 1 {
      assert SessionOk(w, p) && SessionOk(w, q);
      if w.sessions[p].file == w.sessions[q].file { SameFileSameVersion(w, p, w.sessions[p].version, q, w.sessions[q].version); }
    }
    LoopsStep(w, e);
  }

  lemma StrayIsStored(w: World, q: nat, n: nat)
    requires LoopsGuarded(w) && q in w.profiles && HasImage(w, q) && Stray(w, NewFile(w, q, n)) && n == NextVersion(w.versions, q)
    ensures (q, n) in w.stores
  {
    assert Barred(w, q, n);
    var m: nat :| m <= n && Capped(w, q, m);
  }

  /** A start that will open its session finds no loop on its new file. */
  lemma NextFileIsFree(w: World, q: nat)
    requires Core(w) && Guarded(w) && q in w.profiles && q !in w.sessions && HasImage(w, q)
    requires (q, NextVersion(w.versions, q)) !in w.stores
    ensures w.writers[NewFile(w, q, NextVersion(w.versions, q))] == 0
  {
    var n := NextVersion(w.versions, q);
    NextFileIsNew(w, q);
    if Stray(w, NewFile(w, q, n)) {
      StrayIsStored(w, q, n);
    }
  }

  lemma StartStray(w: World, q: nat, username: bytes, base: nat, additional: int, fault: StartFault, p: nat, n: nat)
    requires Core(w) && Guarded(w) && Attaches(w, q, base, fault)
    requires !Endangers(w, StartUpdate(q, username, base, additional, fault))
    requires var after := StartHandler(w, q, username, base, additional, fault).0;
      p in w.profiles && p in after.profiles && Stray(after, NewFile(w, p, n))
    ensures Barred(StartHandler(w, q, username, base, additional, fault).0, p, n) || Stray(w, NewFile(w, p, n))
  {
    var (after, reply) := StartHandler(w, q, username, base, additional, fault);
    var k := NextVersion(w.versions, q);
    StartSessions(w, q, username, base, additional, fault);
    StartLeaves(w, q, username, base, additional, fault);
    StartOpensIff(w, q, username, base, additional, fault);
    NextFileIsNew(w, q);
    if reply.Redirect? {
      NextFileIsFree(w, q);
      SessionFileAfterOpen(w, after, q, NewFile(w, p, n));
    } else {
      assert SessionFile(after, NewFile(w, p, n)) <==> SessionFile(w, NewFile(w, p, n));
      if NewFile(w, p, n) == NewFile(w, q, k) {
        assert Capped(after, q, k);
        if Used(w, p) { SameFileSameVersion(w, p, n, q, k); } else { UnusedIsBarred(w, StartUpdate(q, username, base, additional, fault), p, n); }
      }
    }
  }

  lemma IdleStart(w: World, q: nat, username: bytes, base: nat, additional: int, fault: StartFault)
    requires Core(w) && !Attaches(w, q, base, fault)
    ensures var after := StartHandler(w, q, username, base, additional, fault).0;
      after.writers == w.writers && after.sessions == w.sessions
  {
    StartSessions(w, q, username, base, additional, fault);
    if q in w.profiles && !IsLocked(w, q) {
      StartLeaves(w, q, username, base, additional, fault);
      StartOpensIff(w, q, username, base, additional, fault);
    }
  }

  lemma StartLoops(w: World, q: nat, username: bytes, base: nat, additional: int, fault: StartFault)
    requires Core(w) && Guarded(w) && !Endangers(w, StartUpdate(q, username, base, additional, fault))
    ensures LoopsGuarded(StartHandler(w, q, username, base, additional, fault).0)
  {
    var e := StartUpdate(q, username, base, additional, fault);
    var after := Step(w, e).0;
    StartSessions(w, q, username, base, additional, fault);
    forall p: nat, n: nat | p in after.profiles && Stray(after, NewFile(after, p, n))
      ensures Barred(after, p, n)
        || (p in w.profiles && after.profiles[p].storageDir == w.profiles[p].storageDir && Stray(w, NewFile(w, p, n)))
    {
      assert NewFile(after, p, n) == NewFile(w, p, n);
      if Attaches(w, q, base, fault) {
        StartStray(w, q, username, base, additional, fault, p, n);
      } else {
        IdleStart(w, q, username, base, additional, fault);
        SameLoops(w, after, NewFile(w, p, n));
      }
    }
    StartKeepsLoops(w, q, username, base, additional, fault);
    LoopsStep(w, e);
  }

  lemma StartKeepsLoops(w: World, q: nat, username: bytes, base: nat, additional: int, fault: StartFault)
    requires Core(w) && Guarded(w)
    ensures var after := StartHandler(w, q, username, base, additional, fault).0;
      forall p :: p in after.sessions ==> after.writers[after.sessions[p].file] >= 1
  {
    if Attaches(w, q, base, fault) {
      StartSessions(w, q, username, base, additional, fault);
      StartLeaves(w, q, username, base, additional, fault);
      StartOpensIff(w, q, username, base, additional, fault);
    } else {
      IdleStart(w, q, username, base, additional, fault);
    }
  }

  /** Every event but those two keeps the guard: restarts with open sessions, second sessions of one
      administrator, refused or failed registrations and removals, and new profiles on used directories. */
  lemma GuardedStep(w: World, e: Event)
    requires Core(w) && Guarded(w) && Enabled(w, e) && !Endangers(w, e)
    ensures Guarded(Step(w, e).0)
  {
    SeparateStep(w, e);
    AccountedStep(w, e);
    match e
    case StartUpdate(p, username, base, additional, fault) => StartLoops(w, p, username, base, additional, fault);
    case FinishUpdate(p, merge, fault) => if p in w.sessions { FinishLoops(w, p, merge, fault); }
    case Restart => RestartLoops(w);
    case _ => QuietLoops(w, e);
  }

  // ---------- runs ----------

  /** In a guarded world an event that leaves an image registered leaves its bytes alone. */
  lemma StepKeepsImages(w: World, e: Event, f: FilePath)
    requires Core(w) && Guarded(w) && Enabled(w, e) && Registered(w, f) && Registered(Step(w, e).0, f)
    ensures w.writers[f] == 0 && SameContent(w, Step(w, e).0, f)
  {
    ImagesAreReadOnly(w, f);
    ImagesAreNotOverlays(w, f);
    match e
    case StartUpdate(p, username, base, additional, fault) => StartKeepsImages(w, p, username, base, additional, fault, f);
    case FinishUpdate(p, merge, fault) =>
      if SessionFile(w, f) { OpenFilesAreNew(w, f); }
      FinishTouchesOnlyItsFile(w, p, merge, fault, f);
    case DeleteVersion(p, v) => DeleteKeepsImages(w, p, v, f);
    case ClientStarts(iqn, p, v, reach) => ClientKeepsImages(w, iqn, p, v, reach, NothingFreed, f);
    case ClientEnds(iqn, reach) => ClientKeepsImages(w, iqn, 0, 0, NotOpened, reach, f);
    case _ => QuietKeepsImages(w, e, f);
  }

  /** A run free of the two events. */
  ghost predicate SafeRun(w: World, events: seq<Event>, end: World)
    decreases |events|
  {
    if |events| == 0 then w == end
    else Enabled(w, events[0]) && !Endangers(w, events[0]) && SafeRun(Step(w, events[0]).0, events[1..], end)
  }

  /** The worlds that such a run goes through, one more than its events. */
  ghost predicate Trace(worlds: seq<World>, events: seq<Event>) {
    && |worlds| == |events| + 1
    && forall i :: 0 <= i < |events| ==>
         && Enabled(worlds[i], events[i]) && !Endangers(worlds[i], events[i])
         && worlds[i + 1] == Step(worlds[i], events[i]).0
  }

  lemma {:induction false} SafeRunsStayGuarded(w: World, events: seq<Event>, end: World)
    requires Core(w) && Guarded(w) && SafeRun(w, events, end)
    ensures Core(end) && Guarded(end)
    decreases |events|
  {
    if |events| > 0 {
      StepCore(w, events[0]);
      GuardedStep(w, events[0]);
      SafeRunsStayGuarded(Step(w, events[0]).0, events[1..], end);
    }
  }

  /** Registered images are immutable: over every run free of the two events, an image that stays
      registered has the same bytes at every moment, and is never open for writing. */
  lemma RegisteredImagesAreImmutable(worlds: seq<World>, events: seq<Event>, f: FilePath)
    requires Trace(worlds, events) && Core(worlds[0]) && Guarded(worlds[0]) && forall w :: w in worlds ==> Registered(w, f)
    ensures forall w :: w in worlds ==> SameContent(worlds[0], w, f) && w.writers[f] == 0
  {
    forall k | 0 <= k < |worlds| ensures SameContent(worlds[0], worlds[k], f) && worlds[k].writers[f] == 0 {
      ImmutableUpTo(worlds, events, f, k);
    }
  }

  lemma {:induction false} ImmutableUpTo(worlds: seq<World>, events: seq<Event>, f: FilePath, k: nat)
    requires Trace(worlds, events) && Core(worlds[0]) && Guarded(worlds[0]) && forall w :: w in worlds ==> Registered(w, f)
    requires k < |worlds|
    ensures Core(worlds[k]) && Guarded(worlds[k]) && SameContent(worlds[0], worlds[k], f) && worlds[k].writers[f] == 0
  {
    if k > 0 {
      ImmutableUpTo(worlds, events, f, k - 1);
      assert worlds[k] == Step(worlds[k - 1], events[k - 1]).0;
      assert worlds[k] in worlds && worlds[k - 1] in worlds;
      StepCore(worlds[k - 1], events[k - 1]);
      GuardedStep(worlds[k - 1], events[k - 1]);
      StepKeepsImages(worlds[k - 1], events[k - 1], f);
    }
    ImagesAreReadOnly(worlds[k], f);
  }

  // ---------- the two events are harmful ----------

  /** Some run from here, itself free of the two events, registers an image that is open for writing. */
  ghost predicate CanHarm(w: World) {
    exists events, end, f :: SafeRun(w, events, end) && Registered(end, f) && end.writers[f] > 0
  }

  lemma HarmLater(w: World, e: Event)
    requires Enabled(w, e) && !Endangers(w, e) && CanHarm(Step(w, e).0)
    ensures CanHarm(w)
  {
    var events, end, f :| SafeRun(Step(w, e).0, events, end) && Registered(end, f) && end.writers[f] > 0;
    assert ([e] + events)[1..] == events;
    assert SafeRun(w, [e] + events, end);
  }

  lemma HarmNow(w: World, f: FilePath)
    requires Registered(w, f) && w.writers[f] > 0
    ensures CanHarm(w)
  {
    assert SafeRun(w, [], w);
  }

  /** One session of the profile, opened and merged: the next number is registered and nothing is left. */
  lemma OneMerge(w: World, p: nat, base: nat) returns (v: World)
    requires Core(w) && ReachesCopy(w, p, base) && (p, NextVersion(w.versions, p)) !in w.stores
    ensures Core(v) && ReachesCopy(v, p, base) && (CanHarm(v) ==> CanHarm(w))
    ensures v.writers == w.writers && v.stores == w.stores && v.profiles[p].storageDir == w.profiles[p].storageDir
    ensures NextVersion(v.versions, p) == NextVersion(w.versions, p) + 1 && Registered(v, NewFile(w, p, NextVersion(w.versions, p)))
  {
    var u := NewText(w.mapped);
    var n := NextVersion(w.versions, p);
    var start, finish := StartUpdate(p, u, base, 0, StartsWell), FinishUpdate(p, true, EndsWell);
    StartOpens(w, p, u, base, 0);
    var w1 := Step(w, start).0;
    MergeRegisters(w1, p);
    v := Step(w1, finish).0;
    NextAfterMerge(w.versions, v.versions, p, n);
    if CanHarm(v) {
      HarmLater(w1, finish);
      HarmLater(w, start);
    }
  }

  lemma NextAfterMerge(before: map<(nat, nat), Version>, after: map<(nat, nat), Version>, p: nat, n: nat)
    requires IsNext(before, p, n) && after.Keys == before.Keys + {(p, n)}
    ensures NextVersion(after, p) == n + 1
  {
    assert (p, n) in after;
    NextIsUnique(after, p, NextVersion(after, p), n + 1);
  }

  /** A stray loop on the file of a number that sessions can still be merged up to. */
  lemma {:induction false} ClimbToHarm(w: World, p: nat, base: nat, n: nat)
    requires Core(w) && ReachesCopy(w, p, base) && NextVersion(w.versions, p) <= n && w.writers[NewFile(w, p, n)] > 0
    requires forall k :: NextVersion(w.versions, p) <= k <= n ==> (p, k) !in w.stores
    ensures CanHarm(w)
    decreases n - NextVersion(w.versions, p)
  {
    var k := NextVersion(w.versions, p);
    var v := OneMerge(w, p, base);
    assert NewFile(v, p, n) == NewFile(w, p, n);
    if k == n {
      HarmNow(v, NewFile(w, p, n));
    } else {
      ClimbToHarm(v, p, base, n);
    }
  }

  /** A failing backstore leaves the image copied and its loop attached, and nothing else changed. */
  lemma StoreFailureLeavesALoop(w: World, p: nat, username: bytes, base: nat, additional: int)
    requires Core(w) && ReachesCopy(w, p, base)
    ensures var after := Step(w, StartUpdate(p, username, base, additional, StoreFails)).0;
      && Core(after) && SameTables(after, w) && after.stores == w.stores
      && after.writers == w.writers + multiset{NewFile(w, p, NextVersion(w.versions, p))}
  {
    StartCore(w, p, username, base, additional, StoreFails);
    StartEffect(w, p, username, base, additional, StoreFails);
    StartLeaves(w, p, username, base, additional, StoreFails);
    StartOpensIff(w, p, username, base, additional, StoreFails);
  }

  lemma StoreFailureHarms(w: World, p: nat, username: bytes, base: nat, additional: int)
    requires Core(w) && SeparateDirs(w) && ReachesCopy(w, p, base) && (p, NextVersion(w.versions, p)) !in w.stores
    ensures CanHarm(Step(w, StartUpdate(p, username, base, additional, StoreFails)).0)
  {
    var after := Step(w, StartUpdate(p, username, base, additional, StoreFails)).0;
    var n := NextVersion(w.versions, p);
    StoreFailureLeavesALoop(w, p, username, base, additional);
    StartBringsNoImage(w, p, username, base, additional, StoreFails, p, base);
    assert NewFile(after, p, n) == NewFile(w, p, n) && NewFile(after, p, base) == NewFile(w, p, base);
    ClimbToHarm(after, p, base, n);
  }

  /** A loop left behind does its damage whatever number it was for: merges of the profile's own sessions
      lead up to that number, and the image they register under it is still open for writing. */
  lemma LeftoverLoopReachesAnImage(w: World, p: nat, merge: bool)
    requires Core(w) && Guarded(w) && p in w.sessions && p in w.profiles && HasImage(w, p)
    ensures CanHarm(Step(w, FinishUpdate(p, merge, DetachFails)).0)
  {
    var s := w.sessions[p];
    var after := Step(w, FinishUpdate(p, merge, DetachFails)).0;
    assert SessionOk(w, p);
    OwnLoopIsAlone(w, p);
    DetachFailureLeavesALoop(w, p, merge);
    var base: nat :| (p, base) in w.versions && NewFile(w, p, base) in w.files;
    assert NewFile(after, p, base) == NewFile(w, p, base);
    forall k | NextVersion(after.versions, p) <= k <= s.version ensures (p, k) !in after.stores {
      assert Capped(w, p, k) ==> s.version < k;
    }
    ClimbToHarm(after, p, base, s.version);
  }

  /** From a guarded world exactly the two events can do harm: after any other, no run free of them makes a
      registered image writable; after either of them, some run does. */
  lemma EndangersIff(w: World, e: Event)
    requires Core(w) && Guarded(w) && Enabled(w, e)
    ensures CanHarm(Step(w, e).0) <==> Endangers(w, e)
  {
    if Endangers(w, e) {
      match e
      case StartUpdate(p, username, base, additional, fault) => StoreFailureHarms(w, p, username, base, additional);
      case FinishUpdate(p, merge, fault) => LeftoverLoopReachesAnImage(w, p, merge);
      case _ => assert false;
    } else {
      StepCore(w, e);
      GuardedStep(w, e);
      forall events, end, f | SafeRun(Step(w, e).0, events, end) && Registered(end, f) ensures end.writers[f] == 0 {
        SafeRunsStayGuarded(Step(w, e).0, events, end);
        ImagesAreReadOnly(end, f);
      }
    }
  }
}
