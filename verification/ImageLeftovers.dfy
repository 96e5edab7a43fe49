/** What raising calls, crashes and shared directories do to image profiles later on: backstores and
    mappings that block them for good, a leftover loop on a registered image, and images overwritten. */
module ImageLeftovers {
  import opened Bytes
  import opened ImagePaths
  import opened ImageProfiles
  import opened ImageFiles

  // ---------- a leftover backstore ----------

  /** A backstore for number `n` of a profile that no open session will remove, at or above every number
      the profile has or is about to have. */
  ghost predicate Capped(w: World, p: nat, n: nat) {
    && n >= 1 && (p, n) in w.stores
    && (forall v: nat :: (p, v) in w.versions ==> v < n)
    && (p in w.sessions ==> w.sessions[p].version < n)
  }

  lemma StartOfCapped(w: World, p: nat, username: bytes, base: nat, additional: int, fault: StartFault, n: nat)
    requires Core(w) && Capped(w, p, n)
    ensures Capped(StartHandler(w, p, username, base, additional, fault).0, p, n)
  {
    StartSessions(w, p, username, base, additional, fault);
    if p in w.profiles && !IsLocked(w, p) {
      StartLeaves(w, p, username, base, additional, fault);
      StartOpensIff(w, p, username, base, additional, fault);
      assert NextVersion(w.versions, p) <= n;
    }
  }

  lemma OtherStartKeepsStores(w: World, q: nat, username: bytes, base: nat, additional: int, fault: StartFault)
    ensures w.stores <= StartHandler(w, q, username, base, additional, fault).0.stores
  {
    if q in w.profiles && !IsLocked(w, q) { StartLeaves(w, q, username, base, additional, fault); }
  }

  lemma FinishOfCapped(w: World, q: nat, merge: bool, fault: EndFault, p: nat, n: nat)
    requires Core(w) && Capped(w, p, n) && q in w.sessions
    ensures Capped(FinishHandler(w, q, merge, fault).0, p, n)
  {
    FinishEffect(w, q, merge, fault);
    FinishTarget(w, q, merge, fault);
    assert SessionOk(w, q);
  }

  lemma CappedStep(w: World, e: Event, p: nat, n: nat)
    requires Core(w) && Capped(w, p, n) && Enabled(w, e)
    ensures Capped(Step(w, e).0, p, n)
  {
    match e
    case StartUpdate(q, username, base, additional, fault) =>
      if q == p {
        StartOfCapped(w, p, username, base, additional, fault, n);
      } else {
        OtherStartKeepsStores(w, q, username, base, additional, fault);
        StartEffect(w, q, username, base, additional, fault);
      }
    case FinishUpdate(q, merge, fault) => if q in w.sessions { FinishOfCapped(w, q, merge, fault, p, n); }
    case ClientStarts(iqn, q, v, reach) => ClientTables(w, iqn, q, v, reach, NothingFreed);
    case ClientEnds(iqn, reach) => ClientTables(w, iqn, 0, 0, NotOpened, reach);
    case _ =>
  }

  lemma {:induction false} CappedRun(w: World, events: seq<Event>, end: World, p: nat, n: nat)
    requires Core(w) && Capped(w, p, n) && Run(w, events, end)
    ensures Core(end) && Capped(end, p, n)
    decreases |events|
  {
    if |events| > 0 {
      StepCore(w, events[0]);
      CappedStep(w, events[0], p, n);
      CappedRun(Step(w, events[0]).0, events[1..], end, p, n);
    }
  }

  /** A leftover backstore caps its profile: in no run, restarts included, does the profile ever get that
      version or a later one. Every start that reaches the number fails, and each that attaches its
      loop leaves one more. */
  lemma LeftoverStoreCapsTheProfile(w: World, events: seq<Event>, end: World, p: nat, n: nat,
                                    username: bytes, base: nat, additional: int, fault: StartFault)
    requires Core(w) && Capped(w, p, n) && Run(w, events, end)
    ensures forall v: nat :: (p, v) in end.versions ==> v < n
    ensures var (after, reply) := Step(end, StartUpdate(p, username, base, additional, fault));
      NextVersion(end.versions, p) == n ==>
        && !reply.Redirect?
        && (Attaches(end, p, base, fault) ==> after.writers == end.writers + multiset{NewFile(end, p, n)})
  {
    CappedRun(w, events, end, p, n);
    if p in end.profiles && !IsLocked(end, p) {
      StartOpensIff(end, p, username, base, additional, fault);
      StartLeaves(end, p, username, base, additional, fault);
    }
  }

  /** The books of the target: an open session has its backstore and its administrator's mapping, no two the
      same administrator, and every other backstore is a leftover that caps its profile. */
  ghost predicate Accounted(w: World) {
    && (forall p :: p in w.sessions ==> (p, w.sessions[p].version) in w.stores && w.sessions[p].username in w.mapped)
    && (forall p, q :: p in w.sessions && q in w.sessions && p != q ==> w.sessions[p].username != w.sessions[q].username)
    && (forall p: nat, n: nat :: (p, n) in w.stores ==> (p in w.sessions && w.sessions[p].version == n) || Capped(w, p, n))
  }

  lemma StoreAfter(w: World, v: World, p: nat, n: nat, q: nat, m: nat)
    requires Accounted(w) && p !in w.sessions && IsNext(w.versions, p, n) && v.versions == w.versions
    requires v.sessions == w.sessions
      || (p in v.sessions && v.sessions[p].version == n && v.sessions == w.sessions[p := v.sessions[p]])
    requires (q, m) in v.stores && v.stores <= w.stores + {(p, n)} && (Capped(w, q, m) ==> Capped(v, q, m))
    ensures (q in v.sessions && v.sessions[q].version == m) || Capped(v, q, m)
  {
  }

  /** The sessions and their users, whatever else changed. */
  lemma HeldAfterStart(w: World, v: World, p: nat)
    requires Accounted(w) && p !in w.sessions && w.stores <= v.stores && w.mapped <= v.mapped
    requires v.sessions == w.sessions
      || (p in v.sessions && v.sessions == w.sessions[p := v.sessions[p]] && (p, v.sessions[p].version) in v.stores
          && v.sessions[p].username in v.mapped && v.sessions[p].username !in w.mapped)
    requires forall q: nat, m: nat :: (q, m) in v.stores ==> (q in v.sessions && v.sessions[q].version == m) || Capped(v, q, m)
    ensures Accounted(v)
  {
  }

  lemma StartAccounted(w: World, p: nat, username: bytes, base: nat, additional: int, fault: StartFault)
    requires Core(w) && Accounted(w)
    ensures Accounted(StartHandler(w, p, username, base, additional, fault).0)
  {
    var after := StartHandler(w, p, username, base, additional, fault).0;
    if p in w.profiles && !IsLocked(w, p) {
      StartSessions(w, p, username, base, additional, fault);
      StartLeaves(w, p, username, base, additional, fault);
      StartOpensIff(w, p, username, base, additional, fault);
      forall q: nat, m: nat | (q, m) in after.stores
        ensures (q in after.sessions && after.sessions[q].version == m) || Capped(after, q, m)
      {
        if Capped(w, q, m) { CappedStep(w, StartUpdate(p, username, base, additional, fault), q, m); }
        StoreAfter(w, after, p, NextVersion(w.versions, p), q, m);
      }
      HeldAfterStart(w, after, p);
    } else {
      assert after == w;
    }
  }

  lemma FinishAccounted(w: World, p: nat, merge: bool, fault: EndFault)
    requires Core(w) && Accounted(w) && p in w.sessions
    ensures Accounted(FinishHandler(w, p, merge, fault).0)
  {
    var after := FinishHandler(w, p, merge, fault).0;
    assert SessionOk(w, p);
    FinishEffect(w, p, merge, fault);
    FinishTarget(w, p, merge, fault);
    forall q: nat, m: nat | (q, m) in after.stores
      ensures (q in after.sessions && after.sessions[q].version == m) || Capped(after, q, m)
    {
      if Capped(w, q, m) {
        CappedStep(w, FinishUpdate(p, merge, fault), q, m);
      } else if q == p {
        FinishVersions(w, p, merge, fault);
      }
    }
  }

  /** The books are kept by every event, whatever raises and whenever the process restarts. */
  lemma AccountedStep(w: World, e: Event)
    requires Core(w) && Accounted(w) && Enabled(w, e)
    ensures Accounted(Step(w, e).0)
  {
    match e
    case StartUpdate(p, username, base, additional, fault) => StartAccounted(w, p, username, base, additional, fault);
    case FinishUpdate(p, merge, fault) => if p in w.sessions { FinishAccounted(w, p, merge, fault); }
    case _ => QuietAccounted(w, e);
  }

  lemma QuietAccounted(w: World, e: Event)
    requires Core(w) && Accounted(w) && Enabled(w, e) && !e.StartUpdate? && !e.FinishUpdate?
    ensures Accounted(Step(w, e).0)
  {
    var after := Step(w, e).0;
    QuietTarget(w, e);
    forall q: nat, m: nat | (q, m) in after.stores
      ensures (q in after.sessions && after.sessions[q].version == m) || Capped(after, q, m)
    {
      if Capped(w, q, m) { CappedStep(w, e, q, m); } else { assert SessionOk(w, q); }
    }
  }

  /** The events that leave such a backstore: a start that registers it and then raises, a finish that
      raises before it is removed, and a restart with the session open. */
  ghost predicate LeavesStore(w: World, e: Event, p: nat) {
    match e
    case StartUpdate(q, username, base, _, fault) =>
      q == p && Attaches(w, p, base, fault) && !fault.StoreFails? && (!fault.StartsWell? || username in w.mapped)
    case FinishUpdate(q, _, fault) => q == p && p in w.sessions && (fault.AclStays? || fault.StoreStays?)
    case Restart => p in w.sessions
    case _ => false
  }

  ghost predicate IsCapped(w: World, p: nat) { exists n :: Capped(w, p, n) }

  lemma NotCapped(w: World, p: nat)
    requires forall n :: (p, n) in w.stores ==> p in w.sessions && w.sessions[p].version == n
    ensures !IsCapped(w, p)
  {
  }

  /** The only backstore of the profile is its open session's. */
  ghost predicate OwnStores(w: World, p: nat) {
    forall n :: (p, n) in w.stores <==> p in w.sessions && w.sessions[p].version == n
  }

  lemma StartCapsIff(w: World, p: nat, username: bytes, base: nat, additional: int, fault: StartFault)
    requires Core(w) && OwnStores(w, p)
    ensures IsCapped(StartHandler(w, p, username, base, additional, fault).0, p) <==>
            Attaches(w, p, base, fault) && !fault.StoreFails? && (!fault.StartsWell? || username in w.mapped)
  {
    var (after, reply) := StartHandler(w, p, username, base, additional, fault);
    if p in w.profiles && !IsLocked(w, p) {
      var n := NextVersion(w.versions, p);
      StartSessions(w, p, username, base, additional, fault);
      StartLeaves(w, p, username, base, additional, fault);
      StartOpensIff(w, p, username, base, additional, fault);
      assert forall m :: (p, m) in after.stores ==> m == n;
      if Attaches(w, p, base, fault) && !fault.StoreFails? && !reply.Redirect? { assert Capped(after, p, n); }
    } else {
      NotCapped(w, p);
    }
  }

  lemma OpensElsewhere(w: World, v: World, q: nat, n: nat, p: nat)
    requires OwnStores(w, p) && q != p && v.stores <= w.stores + {(q, n)}
    requires p in w.sessions ==> p in v.sessions && v.sessions[p] == w.sessions[p]
    ensures !IsCapped(v, p)
  {
    NotCapped(v, p);
  }

  lemma OtherStartCapsNot(w: World, q: nat, username: bytes, base: nat, additional: int, fault: StartFault, p: nat)
    requires Core(w) && OwnStores(w, p) && q != p
    ensures !IsCapped(StartHandler(w, q, username, base, additional, fault).0, p)
  {
    StartSessions(w, q, username, base, additional, fault);
    if q in w.profiles && !IsLocked(w, q) { StartLeaves(w, q, username, base, additional, fault); }
    OpensElsewhere(w, StartHandler(w, q, username, base, additional, fault).0, q, NextVersion(w.versions, q), p);
  }

  lemma FinishCapsIff(w: World, p: nat, merge: bool, fault: EndFault)
    requires Core(w) && OwnStores(w, p) && p in w.sessions
    ensures IsCapped(FinishHandler(w, p, merge, fault).0, p) <==> fault.AclStays? || fault.StoreStays?
  {
    var after, n := FinishHandler(w, p, merge, fault).0, w.sessions[p].version;
    assert SessionOk(w, p);
    FinishEffect(w, p, merge, fault);
    FinishTarget(w, p, merge, fault);
    assert forall m :: (p, m) in after.stores ==> m == n;
    if fault.AclStays? || fault.StoreStays? {
      FinishVersions(w, p, merge, fault);
      assert Capped(after, p, n);
    } else {
      assert (p, n) !in after.stores;
    }
  }

  lemma OtherFinishCapsNot(w: World, q: nat, merge: bool, fault: EndFault, p: nat)
    requires Core(w) && OwnStores(w, p) && q != p && q in w.sessions
    ensures !IsCapped(FinishHandler(w, q, merge, fault).0, p)
  {
    var after := FinishHandler(w, q, merge, fault).0;
    assert SessionOk(w, q);
    FinishEffect(w, q, merge, fault);
    FinishTarget(w, q, merge, fault);
    assert forall m :: (p, m) in after.stores ==> p in after.sessions && after.sessions[p].version == m;
  }

  lemma FinishVersions(w: World, p: nat, merge: bool, fault: EndFault)
    requires p in w.sessions && StopsBeforeDetach(fault)
    ensures FinishHandler(w, p, merge, fault).0.versions == w.versions
  {
  }

  lemma QuietCapsNot(w: World, e: Event, p: nat)
    requires OwnStores(w, p) && !e.StartUpdate? && !e.FinishUpdate? && !e.Restart?
    ensures !IsCapped(Step(w, e).0, p)
  {
    QuietTarget(w, e);
    NotCapped(Step(w, e).0, p);
  }

  /** The other events leave the target alone, and all but a restart the open sessions. */
  lemma QuietTarget(w: World, e: Event)
    requires !e.StartUpdate? && !e.FinishUpdate?
    ensures var after := Step(w, e).0;
      after.stores == w.stores && after.mapped == w.mapped && after.sessions == if e.Restart? then map[] else w.sessions
  {
    match e
    case ClientStarts(iqn, q, v, reach) => ClientTables(w, iqn, q, v, reach, NothingFreed);
    case ClientEnds(iqn, reach) => ClientTables(w, iqn, 0, 0, NotOpened, reach);
    case _ =>
  }

  lemma CapsFirstIff(w: World, e: Event, p: nat)
    requires Core(w) && OwnStores(w, p) && Enabled(w, e)
    ensures IsCapped(Step(w, e).0, p) <==> LeavesStore(w, e, p)
  {
    match e
    case StartUpdate(q, username, base, additional, fault) =>
      if q == p {
        StartCapsIff(w, p, username, base, additional, fault);
      } else {
        OtherStartCapsNot(w, q, username, base, additional, fault, p);
      }
    case FinishUpdate(q, merge, fault) =>
      if q !in w.sessions {
        NotCapped(w, p);
      } else if q == p {
        FinishCapsIff(w, p, merge, fault);
      } else {
        OtherFinishCapsNot(w, q, merge, fault, p);
      }
    case Restart =>
      if p in w.sessions {
        assert SessionOk(w, p) && (p, w.sessions[p].version) in w.stores;
        assert Capped(Step(w, e).0, p, w.sessions[p].version);
      }
    case _ => QuietCapsNot(w, e, p);
  }

  /** Exactly those events cap a profile that is not capped yet. */
  lemma CapsIff(w: World, e: Event, p: nat)
    requires Core(w) && Accounted(w) && Enabled(w, e)
    ensures IsCapped(Step(w, e).0, p) <==> IsCapped(w, p) || LeavesStore(w, e, p)
  {
    if n :| Capped(w, p, n) {
      CappedStep(w, e, p, n);
    } else {
      CapsFirstIff(w, e, p);
    }
  }

  // ---------- a leftover mapping ----------

  /** The administrator's initiator has a LUN mapped that belongs to no open session. */
  ghost predicate ShutOut(w: World, u: bytes) { u in w.mapped && !OpenUser(w, u) }

  lemma StartOfShutOut(w: World, p: nat, username: bytes, base: nat, additional: int, fault: StartFault, u: bytes)
    requires Core(w) && ShutOut(w, u)
    ensures ShutOut(StartHandler(w, p, username, base, additional, fault).0, u)
    ensures username == u ==> !StartHandler(w, p, username, base, additional, fault).1.Redirect?
  {
    StartSessions(w, p, username, base, additional, fault);
    if p in w.profiles && !IsLocked(w, p) {
      var after := StartHandler(w, p, username, base, additional, fault).0;
      StartLeaves(w, p, username, base, additional, fault);
      StartOpensIff(w, p, username, base, additional, fault);
      assert forall q :: q in w.sessions ==> w.sessions[q].username != u;
    }
  }

  lemma FinishOfShutOut(w: World, p: nat, merge: bool, fault: EndFault, u: bytes)
    requires Core(w) && ShutOut(w, u) && p in w.sessions
    ensures ShutOut(FinishHandler(w, p, merge, fault).0, u)
  {
    var after := FinishHandler(w, p, merge, fault).0;
    assert SessionOk(w, p);
    FinishEffect(w, p, merge, fault);
    FinishTarget(w, p, merge, fault);
    assert OpenUser(after, u) ==> OpenUser(w, u);
  }

  lemma QuietShutOut(w: World, e: Event, u: bytes)
    requires !e.StartUpdate? && !e.FinishUpdate?
    ensures Step(w, e).0.mapped == w.mapped
    ensures OpenUser(Step(w, e).0, u) <==> OpenUser(w, u) && !e.Restart?
  {
    QuietTarget(w, e);
    assert OpenUser(Step(w, e).0, u) ==> OpenUser(w, u);
  }

  lemma StaysShutOut(w: World, e: Event, u: bytes)
    requires Core(w) && ShutOut(w, u) && Enabled(w, e)
    ensures ShutOut(Step(w, e).0, u)
  {
    match e
    case StartUpdate(p, username, base, additional, fault) => StartOfShutOut(w, p, username, base, additional, fault, u);
    case FinishUpdate(p, merge, fault) => if p in w.sessions { FinishOfShutOut(w, p, merge, fault, u); }
    case _ => QuietShutOut(w, e, u);
  }

  lemma {:induction false} ShutOutRun(w: World, events: seq<Event>, end: World, u: bytes)
    requires Core(w) && ShutOut(w, u) && Run(w, events, end)
    ensures Core(end) && ShutOut(end, u)
    decreases |events|
  {
    if |events| > 0 {
      StepCore(w, events[0]);
      StaysShutOut(w, events[0], u);
      ShutOutRun(Step(w, events[0]).0, events[1..], end, u);
    }
  }

  /** A leftover mapping shuts its administrator out: in no run, restarts included, does any start of
      theirs, on any profile, open a session again. */
  lemma LeftoverMappingShutsOut(w: World, events: seq<Event>, end: World, u: bytes, p: nat, base: nat, additional: int, fault: StartFault)
    requires Core(w) && ShutOut(w, u) && Run(w, events, end)
    ensures !OpenUser(end, u) && !Step(end, StartUpdate(p, u, base, additional, fault)).1.Redirect?
  {
    ShutOutRun(w, events, end, u);
    StartOfShutOut(end, p, u, base, additional, fault, u);
  }

  /** The events that leave such a mapping: a start that maps the LUN and cannot write its row, a finish
      that raises at its first call, and a restart with the session open. */
  ghost predicate LeavesMapping(w: World, e: Event, u: bytes) {
    match e
    case StartUpdate(p, username, base, _, fault) =>
      username == u && Attaches(w, p, base, fault) && fault.RowFails? && u !in w.mapped
      && (p, NextVersion(w.versions, p)) !in w.stores
    case FinishUpdate(p, _, fault) => p in w.sessions && w.sessions[p].username == u && fault.AclStays?
    case Restart => OpenUser(w, u)
    case _ => false
  }

  lemma MappingAfterStart(w: World, v: World, p: nat, username: bytes, maps: bool, opens: bool, u: bytes)
    requires (u in w.mapped <==> OpenUser(w, u)) && p !in w.sessions
    requires v.mapped == if maps then w.mapped + {username} else w.mapped
    requires if opens then p in v.sessions && v.sessions == w.sessions[p := v.sessions[p]] && v.sessions[p].username == username
             else v.sessions == w.sessions
    ensures ShutOut(v, u) <==> username == u && maps && !opens && !OpenUser(w, u)
  {
    if opens { UsersAfterOpen(w, v, p, u); } else { assert OpenUser(v, u) <==> OpenUser(w, u); }
  }

  lemma StartShutsOutIff(w: World, p: nat, username: bytes, base: nat, additional: int, fault: StartFault, u: bytes)
    requires Core(w) && (u in w.mapped <==> OpenUser(w, u))
    ensures ShutOut(StartHandler(w, p, username, base, additional, fault).0, u) <==>
            username == u && Attaches(w, p, base, fault) && fault.RowFails? && u !in w.mapped
            && (p, NextVersion(w.versions, p)) !in w.stores
  {
    var (after, reply) := StartHandler(w, p, username, base, additional, fault);
    if p in w.profiles && !IsLocked(w, p) {
      StartSessions(w, p, username, base, additional, fault);
      StartLeaves(w, p, username, base, additional, fault);
      StartOpensIff(w, p, username, base, additional, fault);
      var registers := Attaches(w, p, base, fault) && (p, NextVersion(w.versions, p)) !in w.stores;
      MappingAfterStart(w, after, p, username, registers && (fault.StartsWell? || fault.RowFails?), reply.Redirect?, u);
    } else {
      assert after == w;
    }
  }

  lemma FinishShutsOutIff(w: World, p: nat, merge: bool, fault: EndFault, u: bytes)
    requires Core(w) && Accounted(w) && (u in w.mapped <==> OpenUser(w, u)) && p in w.sessions
    ensures ShutOut(FinishHandler(w, p, merge, fault).0, u) <==> w.sessions[p].username == u && fault.AclStays?
  {
    var after := FinishHandler(w, p, merge, fault).0;
    assert SessionOk(w, p);
    FinishEffect(w, p, merge, fault);
    FinishTarget(w, p, merge, fault);
    assert OpenUser(w, w.sessions[p].username);
    if OpenUser(w, u) && u != w.sessions[p].username {
      var q :| q in w.sessions && w.sessions[q].username == u;
      assert q in after.sessions && after.sessions[q].username == u;
    }
  }

  /** Exactly those events shut out an administrator who is not shut out yet. */
  lemma ShutsOutIff(w: World, e: Event, u: bytes)
    requires Core(w) && Accounted(w) && Enabled(w, e)
    ensures ShutOut(Step(w, e).0, u) <==> ShutOut(w, u) || LeavesMapping(w, e, u)
  {
    if ShutOut(w, u) {
      StaysShutOut(w, e, u);
    } else {
      match e
      case StartUpdate(p, username, base, additional, fault) => StartShutsOutIff(w, p, username, base, additional, fault, u);
      case FinishUpdate(p, merge, fault) => if p in w.sessions { FinishShutsOutIff(w, p, merge, fault, u); }
      case _ => QuietShutOut(w, e, u);
    }
  }

  // ---------- a leftover loop ----------

  lemma StartOpens(w: World, p: nat, username: bytes, base: nat, additional: int)
    requires Core(w) && ReachesCopy(w, p, base) && username !in w.mapped && (p, NextVersion(w.versions, p)) !in w.stores
    ensures var n := NextVersion(w.versions, p);
      var f := NewFile(w, p, n);
      var (after, reply) := Step(w, StartUpdate(p, username, base, additional, StartsWell));
      && reply.Redirect? && Core(after) && SameTables(after, Lock(w, p, username).(sessions := w.sessions[p := AdminSession(p, n, f, username)]))
      && after.files == w.files[f := Grown(w.files[NewFile(w, p, base)], additional)] && after.writers == w.writers + multiset{f}
      && after.stores == w.stores + {(p, n)} && after.mapped == w.mapped + {username}
  {
    StartEffect(w, p, username, base, additional, StartsWell);
    StartOpensIff(w, p, username, base, additional, StartsWell);
    StartLeaves(w, p, username, base, additional, StartsWell);
    StartCore(w, p, username, base, additional, StartsWell);
    HandlerRunsSession(w, p, username, base, additional, StartsWell);
  }

  lemma MergeRegisters(w: World, p: nat)
    requires Core(w) && p in w.sessions && w.sessions[p].file in w.files
    ensures var s := w.sessions[p];
      var (after, reply) := Step(w, FinishUpdate(p, true, EndsWell));
      && reply == Redirect && Core(after) && Registered(after, s.file) && after.writers == w.writers - multiset{s.file}
      && after.files == w.files && after.stores == w.stores - {(p, s.version)} && after.mapped == w.mapped - {s.username}
      && after.profiles == Release(w, p).profiles && after.sessions == w.sessions - {p}
      && after.versions == w.versions[(p, s.version) := Version(BaseName(s.version), s.username)]
  {
    assert SessionOk(w, p);
    var s := w.sessions[p];
    FinishEffect(w, p, true, EndsWell);
    FinishCore(w, p, true, EndsWell);
    var after := Step(w, FinishUpdate(p, true, EndsWell)).0;
    var key := (p, s.version);
    assert key in after.versions && key.0 in after.profiles && s.file == NewFile(after, key.0, key.1);
  }

  lemma DetachFailureLeavesALoop(w: World, p: nat, merge: bool)
    requires Core(w) && p in w.sessions && w.writers[w.sessions[p].file] == 1
    ensures var (w1, reply) := Step(w, FinishUpdate(p, merge, DetachFails));
      var s := w.sessions[p];
      && reply == Raised && Core(w1) && w1.files == w.files && w1.writers[s.file] == 1 && w1.versions == w.versions
      && p in w1.profiles && !IsLocked(w1, p) && NewFile(w1, p, s.version) == s.file
      && w1.stores == w.stores - {(p, s.version)} && w1.mapped == w.mapped - {s.username}
  {
    assert SessionOk(w, p);
    FinishEffect(w, p, merge, DetachFails);
    FinishCore(w, p, merge, DetachFails);
    FinishLeaves(w, p, merge, DetachFails);
  }

  // ---------- a shared directory ----------

  ghost predicate HasTwin(w: World, p: nat, n: nat)
    requires p in w.profiles
  {
    exists q :: q in w.profiles && q != p && w.profiles[q].storageDir == w.profiles[p].storageDir && (q, n) in w.versions
  }

  lemma RegisteredIff(w: World, p: nat)
    requires Core(w) && p in w.profiles
    ensures var n := NextVersion(w.versions, p); Registered(w, NewFile(w, p, n)) <==> HasTwin(w, p, n)
  {
    var n := NextVersion(w.versions, p);
    if Registered(w, NewFile(w, p, n)) {
      var key :| key in w.versions && key.0 in w.profiles && NewFile(w, p, n) == NewFile(w, key.0, key.1);
      BaseNameInjective(n, key.1);
      assert key.0 != p && (key.0, n) in w.versions;
    }
    if q :| q in w.profiles && q != p && w.profiles[q].storageDir == w.profiles[p].storageDir && (q, n) in w.versions {
      assert (q, n).0 in w.profiles && NewFile(w, p, n) == NewFile(w, (q, n).0, (q, n).1);
    }
  }

  /** What the copy leaves in the new file, if it gets to open it. */
  function Copied(source: bytes, additional: int, fault: StartFault): Option<bytes> {
    if fault.CopyFails? then fault.partial else Some(Grown(source, additional))
  }

  /** A start whose copy opens the new file writes its base image, or what a failing copy got to, over
      whatever the file held. That was a registered image exactly when another profile of the directory
      has the next number; every other registered image keeps its bytes. */
  lemma CopyOverwritesIff(w: World, p: nat, username: bytes, base: nat, additional: int, fault: StartFault)
    requires Core(w) && ReachesCopy(w, p, base)
    ensures var n := NextVersion(w.versions, p);
      var f := NewFile(w, p, n);
      var after := Step(w, StartUpdate(p, username, base, additional, fault)).0;
      && (match Copied(w.files[NewFile(w, p, base)], additional, fault)
          case None => SameContent(w, after, f)
          case Some(content) => f in after.files && after.files[f] == content)
      && (Registered(w, f) <==> HasTwin(w, p, n))
      && (Registered(w, f) ==> Registered(after, f))
      && (forall g :: Registered(w, g) && g != f ==> SameContent(w, after, g))
  {
    var n := NextVersion(w.versions, p);
    var f := NewFile(w, p, n);
    var after := Step(w, StartUpdate(p, username, base, additional, fault)).0;
    RegisteredIff(w, p);
    StartEffect(w, p, username, base, additional, fault);
    HandlerRunsSession(w, p, username, base, additional, fault);
    CopyWrites(w, p, username, base, additional, fault);
    forall g | g != f ensures SameContent(w, after, g) {
      StartTouchesOnlyTheNewFile(w, p, username, base, additional, fault, g);
    }
    StaysRegistered(w, after, f);
  }

  lemma StaysRegistered(w: World, v: World, f: FilePath)
    requires v.versions == w.versions
    requires forall p :: p in w.profiles ==> p in v.profiles && v.profiles[p].storageDir == w.profiles[p].storageDir
    ensures Registered(w, f) ==> Registered(v, f)
  {
    if Registered(w, f) {
      var key :| key in w.versions && key.0 in w.profiles && f == NewFile(w, key.0, key.1);
      assert key in v.versions && key.0 in v.profiles && f == NewFile(v, key.0, key.1);
    }
  }

  lemma CopyWrites(w: World, p: nat, username: bytes, base: nat, additional: int, fault: StartFault)
    requires Core(w) && ReachesCopy(w, p, base)
    ensures StartSession(w, p, username, base, additional, fault).0.files
         == match Copied(w.files[NewFile(w, p, base)], additional, fault)
            case None => w.files
            case Some(content) => w.files[NewFile(w, p, NextVersion(w.versions, p)) := content]
  {
  }

  /** It does happen: two profiles of one directory come to the same number. The first merges its session;
      the second then opens one, and the image the first has just registered is the second's copy. */
  lemma SharedDirectoryLosesAnImage(w: World, p: nat, q: nat, username: bytes, baseP: nat, baseQ: nat, additional: int)
    requires Core(w) && p != q && ReachesCopy(w, p, baseP) && ReachesCopy(w, q, baseQ)
    requires w.profiles[p].storageDir == w.profiles[q].storageDir
    requires NextVersion(w.versions, p) == NextVersion(w.versions, q)
    requires username !in w.mapped && (q, NextVersion(w.versions, q)) !in w.stores
    ensures var w1 := Step(w, StartUpdate(q, username, baseQ, additional, StartsWell)).0;
      var w2 := Step(w1, FinishUpdate(q, true, EndsWell)).0;
      var w3 := Step(w2, StartUpdate(p, username, baseP, additional, StartsWell)).0;
      var f := NewFile(w, q, NextVersion(w.versions, q));
      && Registered(w2, f) && f in w2.files && w2.files[f] == Grown(w.files[NewFile(w, q, baseQ)], additional)
      && Registered(w3, f) && f in w3.files && w3.files[f] == Grown(w.files[NewFile(w, p, baseP)], additional)
  {
    var n := NextVersion(w.versions, q);
    var f := NewFile(w, q, n);
    StartOpens(w, q, username, baseQ, additional);
    var w1 := Step(w, StartUpdate(q, username, baseQ, additional, StartsWell)).0;
    MergeRegisters(w1, q);
    var w2 := Step(w1, FinishUpdate(q, true, EndsWell)).0;
    OtherNextStays(w.versions, w2.versions, p, q, n);
    if NewFile(w, p, baseP) == f { BaseNameInjective(baseP, n); }
    assert ReachesCopy(w2, p, baseP);
    CopyOverwritesIff(w2, p, username, baseP, additional, StartsWell);
  }

  lemma OtherNextStays(before: map<(nat, nat), Version>, after: map<(nat, nat), Version>, p: nat, q: nat, n: nat)
    requires p != q && (q, n) in after && after.Keys == before.Keys + {(q, n)}
    ensures NextVersion(after, p) == NextVersion(before, p)
  {
    NextIsUnique(after, p, NextVersion(after, p), NextVersion(before, p));
  }
}
