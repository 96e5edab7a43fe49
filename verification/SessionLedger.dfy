/** Client sessions as concurrent processes over one ledger of kernel resources. Every TFTP worker
    runs `start_session` one primitive call at a time, the reaper runs `end_session` the same way,
    and their steps interleave freely. Resource names are functions of the initiator IQN, as
    SessionNames shows them to be; loop devices and LUN numbers are whatever the kernel has free. */
module SessionLedger {
  import opened Bytes

  type Iqn = bytes

  datatype Res =
    | Loop(device: nat)
    | Overlay(iqn: Iqn)
    | Snapshot(iqn: Iqn)
    | Store(iqn: Iqn)
    | Lun(number: nat)
    | Acl(iqn: Iqn)
    | Mapping(iqn: Iqn)

  /** Where a session stands. `Starting(n)` has made n of the eight set-up calls; `Active` has its row
      in the table; `Ending(n)` has made n of the nine tear-down steps, the fifth of which deletes the
      row; `Failed(n)` raised after n set-up calls; `Lost` had its row replaced by another session. */
  datatype Phase = Starting(done: nat) | Active | Ending(done: nat) | Failed(done: nat) | Lost

  const SET_UP_STEPS := 8
  const TEAR_DOWN_STEPS := 9
  const OVERLAY_STEP := 1
  const ROW_STEP := 4

  datatype Session = Session(iqn: Iqn, phase: Phase, base: nat, over: nat, lun: nat)

  /** `ledger` maps each allocated resource to the resources it depends on; `todo` are the rows the
      reaper has read and not yet looked at, `ending` the session it is tearing down. */
  datatype World = World(
    ledger: map<Res, set<Res>>, sessions: map<nat, Session>, todo: seq<nat>, ending: Option<nat>)

  const EMPTY := World(map[], map[], [], None)

  // ---------- the two call sequences ----------

  /** The resource that set-up call `n` creates, once the kernel's choice is noted in the session. */
  function Created(s: Session, n: nat): Res
    requires n < SET_UP_STEPS
  {
    if n == 0 then Loop(s.base)
    else if n == 1 then Overlay(s.iqn)
    else if n == 2 then Loop(s.over)
    else if n == 3 then Snapshot(s.iqn)
    else if n == 4 then Store(s.iqn)
    else if n == 5 then Lun(s.lun)
    else if n == 6 then Acl(s.iqn)
    else Mapping(s.iqn)
  }

  function Noted(s: Session, n: nat, choice: nat): Session {
    var t := s.(phase := Starting(n + 1));
    if n == 0 then t.(base := choice) else if n == 2 then t.(over := choice) else if n == 5 then t.(lun := choice) else t
  }

  /** The resource that tear-down step `n` frees. */
  function Freed(s: Session, n: nat): Res
    requires n < TEAR_DOWN_STEPS && n != ROW_STEP
  {
    if n == 0 then Mapping(s.iqn)
    else if n == 1 then Acl(s.iqn)
    else if n == 2 then Lun(s.lun)
    else if n == 3 then Store(s.iqn)
    else if n == 5 then Snapshot(s.iqn)
    else if n == 6 then Loop(s.over)
    else if n == 7 then Loop(s.base)
    else Overlay(s.iqn)
  }

  /** What a resource of this session rests on. The base loop rests on a registered image only. */
  function Deps(s: Session, r: Res): set<Res> {
    match r
    case Loop(d) => if d == s.base then {} else {Overlay(s.iqn)}
    case Overlay(_) => {}
    case Snapshot(_) => {Loop(s.base), Loop(s.over)}
    case Store(_) => {Snapshot(s.iqn)}
    case Lun(_) => {Store(s.iqn)}
    case Acl(_) => {}
    case Mapping(_) => {Acl(s.iqn), Lun(s.lun)}
  }

  // ---------- the steps ----------

  datatype Action =
    | Begin(id: nat, iqn: Iqn)
    | Advance(id: nat, choice: nat)
    | Publish(id: nat)
    | Abandon(id: nat)
    | Select(order: seq<nat>)
    | Connected
    | Reap
    | Free

  ghost predicate Enabled(w: World, a: Action) {
    match a
    case Begin(id, _) => id !in w.sessions
    case Advance(id, choice) =>
      && id in w.sessions && w.sessions[id].phase.Starting? && w.sessions[id].phase.done < SET_UP_STEPS
      && (w.sessions[id].phase.done in {0, 2} ==> Loop(choice) !in w.ledger)
      && (w.sessions[id].phase.done == 5 ==> Lun(choice) !in w.ledger)
    case Publish(id) => id in w.sessions && w.sessions[id].phase == Starting(SET_UP_STEPS)
    case Abandon(id) => id in w.sessions && w.sessions[id].phase.Starting?
    case Select(order) =>
      && w.todo == [] && w.ending.None?
      && (forall i :: i in order <==> i in w.sessions && w.sessions[i].phase.Active?)
      && forall i, j :: 0 <= i < j < |order| ==> order[i] != order[j]
    case Connected => w.todo != [] && w.ending.None?
    case Reap => w.todo != [] && w.ending.None? && w.todo[0] in w.sessions
    case Free =>
      && w.ending.Some? && w.ending.value in w.sessions
      && w.sessions[w.ending.value].phase.Ending? && w.sessions[w.ending.value].phase.done < TEAR_DOWN_STEPS
  }

  /** INSERT OR REPLACE and DELETE go by IQN: they take the row from any other session that has it. */
  function LoseRow(sessions: map<nat, Session>, id: nat, iqn: Iqn): map<nat, Session> {
    map i | i in sessions ::
      if i != id && sessions[i].iqn == iqn && sessions[i].phase.Active? then sessions[i].(phase := Lost) else sessions[i]
  }

  /** A start that creates its overlay anew has the file that a failed one left with nothing resting on it. */
  function TakeOver(sessions: map<nat, Session>, id: nat, iqn: Iqn): map<nat, Session> {
    map i | i in sessions ::
      if i != id && sessions[i].iqn == iqn && sessions[i].phase == Failed(OVERLAY_STEP + 1)
      then sessions[i].(phase := Failed(OVERLAY_STEP)) else sessions[i]
  }

  ghost function Next(w: World, a: Action): World
    requires Enabled(w, a)
  {
    match a
    case Begin(id, iqn) => w.(sessions := w.sessions[id := Session(iqn, Starting(0), 0, 0, 0)])
    case Advance(id, choice) =>
      var n := w.sessions[id].phase.done;
      var s := Noted(w.sessions[id], n, choice);
      var others := if n == OVERLAY_STEP then TakeOver(w.sessions, id, s.iqn) else w.sessions;
      w.(ledger := w.ledger[Created(s, n) := Deps(s, Created(s, n))], sessions := others[id := s])
    case Publish(id) =>
      w.(sessions := LoseRow(w.sessions, id, w.sessions[id].iqn)[id := w.sessions[id].(phase := Active)])
    case Abandon(id) => w.(sessions := w.sessions[id := w.sessions[id].(phase := Failed(w.sessions[id].phase.done))])
    case Select(order) => w.(todo := order)
    case Connected => w.(todo := w.todo[1..])
    case Reap =>
      w.(todo := w.todo[1..], ending := Some(w.todo[0]),
         sessions := w.sessions[w.todo[0] := w.sessions[w.todo[0]].(phase := Ending(0))])
    case Free =>
      var id := w.ending.value;
      var s := w.sessions[id];
      var t := s.(phase := Ending(s.phase.done + 1));
      if s.phase.done == ROW_STEP then w.(sessions := LoseRow(w.sessions, id, s.iqn)[id := t])
      else if s.phase.done == TEAR_DOWN_STEPS - 1 then
        w.(ledger := w.ledger - {Freed(s, s.phase.done)}, sessions := w.sessions - {id}, ending := None)
      else w.(ledger := w.ledger - {Freed(s, s.phase.done)}, sessions := w.sessions[id := t])
  }

  /** A step that goes wrong: it creates what already exists, empties an overlay file that something
      rests on, or frees what does not exist or what something still rests on. An overlay file that
      merely exists is no hindrance: it is opened for writing from scratch. */
  ghost predicate Hazard(w: World, a: Action)
    requires Enabled(w, a)
  {
    match a
    case Advance(id, choice) =>
      var n := w.sessions[id].phase.done;
      var r := Created(Noted(w.sessions[id], n, choice), n);
      r in w.ledger && (n == OVERLAY_STEP ==> InUse(w.ledger, r))
    case Free =>
      var s := w.sessions[w.ending.value];
      s.phase.done != ROW_STEP && (Freed(s, s.phase.done) !in w.ledger || InUse(w.ledger, Freed(s, s.phase.done)))
    case _ => false
  }

  ghost predicate InUse(ledger: map<Res, set<Res>>, r: Res) { exists q :: q in ledger && r in ledger[q] }

  // ---------- who holds what ----------

  predicate Has(p: Phase, created: nat, freed: nat) {
    match p
    case Starting(n) => n > created
    case Failed(n) => n > created
    case Ending(n) => n <= freed
    case Active => true
    case Lost => true
  }

  /** The resources a session holds, read off where it stands. */
  predicate Claims(s: Session, r: Res) {
    match r
    case Loop(d) => (d == s.base && Has(s.phase, 0, 7)) || (d == s.over && Has(s.phase, 2, 6))
    case Overlay(q) => q == s.iqn && Has(s.phase, 1, 8)
    case Snapshot(q) => q == s.iqn && Has(s.phase, 3, 5)
    case Store(q) => q == s.iqn && Has(s.phase, 4, 3)
    case Lun(n) => n == s.lun && Has(s.phase, 5, 2)
    case Acl(q) => q == s.iqn && Has(s.phase, 6, 1)
    case Mapping(q) => q == s.iqn && Has(s.phase, 7, 0)
  }

  ghost predicate Owned(sessions: map<nat, Session>, r: Res) { exists i :: i in sessions && Claims(sessions[i], r) }

  /** The ledger is exactly what the sessions hold, each resource held by exactly one of them. */
  ghost predicate Balanced(ledger: map<Res, set<Res>>, sessions: map<nat, Session>) {
    && (forall i, r :: i in sessions && Claims(sessions[i], r) ==> r in ledger && ledger[r] == Deps(sessions[i], r))
    && (forall r :: r in ledger ==> Owned(sessions, r))
    && (forall i, j, r :: i in sessions && j in sessions && Claims(sessions[i], r) && Claims(sessions[j], r) ==> i == j)
  }

  predicate WellFormed(s: Session) {
    && (match s.phase
        case Starting(n) => n <= SET_UP_STEPS
        case Failed(n) => n <= SET_UP_STEPS
        case Ending(n) => n < TEAR_DOWN_STEPS
        case Active => true
        case Lost => false)
    && (Has(s.phase, 2, 6) ==> s.base != s.over)
  }

  /** A session that stands in the way of another start for its IQN: one that is starting, active or
      being torn down, or a failed one that got as far as attaching a loop to its overlay file. */
  predicate Blocks(s: Session) { s.phase.Failed? ==> s.phase.done > OVERLAY_STEP + 1 }

  ghost predicate Blocked(w: World, iqn: Iqn) {
    exists i :: i in w.sessions && w.sessions[i].iqn == iqn && Blocks(w.sessions[i])
  }

  ghost predicate Good(w: World) {
    && Balanced(w.ledger, w.sessions)
    && (forall i :: i in w.sessions ==> WellFormed(w.sessions[i]))
    && (forall i, j :: i in w.sessions && j in w.sessions && i != j && Blocks(w.sessions[i]) && Blocks(w.sessions[j])
          ==> w.sessions[i].iqn != w.sessions[j].iqn)
    && ReaperGood(w)
  }

  /** The reaper only ever works on fully built sessions, and it alone tears down. */
  ghost predicate ReaperGood(w: World) {
    && (forall i :: i in w.todo ==> i in w.sessions && w.sessions[i].phase.Active?)
    && (forall i, j :: 0 <= i < j < |w.todo| ==> w.todo[i] != w.todo[j])
    && (w.ending.Some? ==> w.ending.value in w.sessions)
    && (forall i :: i in w.sessions ==> (w.sessions[i].phase.Ending? <==> w.ending == Some(i)))
  }

  // ---------- one resource at a time ----------

  lemma CreateBalanced(ledger: map<Res, set<Res>>, sessions: map<nat, Session>, i: nat, t: Session, r: Res)
    requires Balanced(ledger, sessions) && i in sessions && r !in ledger
    requires forall x :: Claims(t, x) <==> Claims(sessions[i], x) || x == r
    requires forall x :: Claims(sessions[i], x) ==> Deps(t, x) == Deps(sessions[i], x)
    ensures Balanced(ledger[r := Deps(t, r)], sessions[i := t])
  {
    var ledger', sessions' := ledger[r := Deps(t, r)], sessions[i := t];
    forall x | x in ledger' ensures Owned(sessions', x) {
      if x == r {
        assert Claims(sessions'[i], x);
      } else {
        assert Owned(sessions, x);
        var j :| j in sessions && Claims(sessions[j], x);
        assert Claims(sessions'[j], x);
      }
    }
  }

  lemma FreeBalanced(ledger: map<Res, set<Res>>, sessions: map<nat, Session>, i: nat, t: Session, r: Res)
    requires Balanced(ledger, sessions) && i in sessions && Claims(sessions[i], r)
    requires forall x :: Claims(t, x) <==> Claims(sessions[i], x) && x != r
    requires forall x :: Claims(t, x) ==> Deps(t, x) == Deps(sessions[i], x)
    ensures Balanced(ledger - {r}, sessions[i := t])
  {
    var sessions' := sessions[i := t];
    forall x | x in ledger - {r} ensures Owned(sessions', x) {
      assert Owned(sessions, x);
      var j :| j in sessions && Claims(sessions[j], x);
      assert Claims(sessions'[j], x);
    }
  }

  lemma RelabelBalanced(ledger: map<Res, set<Res>>, sessions: map<nat, Session>, i: nat, t: Session)
    requires Balanced(ledger, sessions) && i in sessions
    requires forall x :: Claims(t, x) <==> Claims(sessions[i], x)
    requires forall x :: Deps(t, x) == Deps(sessions[i], x)
    ensures Balanced(ledger, sessions[i := t])
  {
    var sessions' := sessions[i := t];
    forall x | x in ledger ensures Owned(sessions', x) {
      assert Owned(sessions, x);
      var j :| j in sessions && Claims(sessions[j], x);
      assert Claims(sessions'[j], x);
    }
  }

  lemma ArriveBalanced(ledger: map<Res, set<Res>>, sessions: map<nat, Session>, i: nat, t: Session)
    requires Balanced(ledger, sessions) && i !in sessions && forall x :: !Claims(t, x)
    ensures Balanced(ledger, sessions[i := t])
  {
    forall x | x in ledger ensures Owned(sessions[i := t], x) {
      assert Owned(sessions, x);
      var j :| j in sessions && Claims(sessions[j], x);
      assert Claims(sessions[i := t][j], x);
    }
  }

  lemma LeaveBalanced(ledger: map<Res, set<Res>>, sessions: map<nat, Session>, i: nat)
    requires Balanced(ledger, sessions) && i in sessions && forall x :: !Claims(sessions[i], x)
    ensures Balanced(ledger, sessions - {i})
  {
    forall x | x in ledger ensures Owned(sessions - {i}, x) {
      assert Owned(sessions, x);
      var j :| j in sessions && Claims(sessions[j], x);
      assert j in sessions - {i} && Claims((sessions - {i})[j], x);
    }
  }

  /** At every point of the two sequences what a session holds is closed under dependency. */
  lemma ClaimsAreClosed(s: Session, r: Res, d: Res)
    requires WellFormed(s) && Claims(s, r) && d in Deps(s, r)
    ensures Claims(s, d)
  {
  }

  /** Nothing a session still holds rests on what its next tear-down step frees. */
  lemma NothingRestsOnIt(s: Session, q: Res)
    requires WellFormed(s) && s.phase.Ending? && s.phase.done != ROW_STEP && Claims(s, q)
    ensures Freed(s, s.phase.done) !in Deps(s, q)
  {
  }

  // ---------- every step keeps the books ----------

  lemma CreatedIsNew(w: World, id: nat, choice: nat, j: nat)
    requires Good(w) && Enabled(w, Advance(id, choice)) && j in w.sessions
    requires w.sessions[id].phase.done == OVERLAY_STEP && w.sessions[j].iqn == w.sessions[id].iqn ==>
      w.sessions[j].phase != Failed(OVERLAY_STEP + 1)
    ensures var n := w.sessions[id].phase.done; !Claims(w.sessions[j], Created(Noted(w.sessions[id], n, choice), n))
  {
  }

  lemma AdvanceIsSafe(w: World, id: nat, choice: nat)
    requires Good(w) && Enabled(w, Advance(id, choice))
    ensures !Hazard(w, Advance(id, choice))
  {
    var n := w.sessions[id].phase.done;
    var r := Created(Noted(w.sessions[id], n, choice), n);
    if n == OVERLAY_STEP {
      forall q | q in w.ledger ensures r !in w.ledger[q] {
        assert Owned(w.sessions, q);
        var j :| j in w.sessions && Claims(w.sessions[j], q);
        if r in Deps(w.sessions[j], q) { RestsOnOverlay(w, id, choice, j, q); }
      }
    } else {
      forall j | j in w.sessions ensures !Claims(w.sessions[j], r) {
        CreatedIsNew(w, id, choice, j);
      }
      assert !Owned(w.sessions, r);
    }
  }

  /** Whatever rests on an overlay belongs to a session that blocks its IQN. */
  lemma RestsOnOverlay(w: World, id: nat, choice: nat, j: nat, q: Res)
    requires Good(w) && Enabled(w, Advance(id, choice)) && w.sessions[id].phase.done == OVERLAY_STEP
    requires j in w.sessions && Claims(w.sessions[j], q)
    ensures Overlay(w.sessions[id].iqn) !in Deps(w.sessions[j], q)
  {
    if Overlay(w.sessions[id].iqn) in Deps(w.sessions[j], q) {
      ClaimsAreClosed(w.sessions[j], q, Overlay(w.sessions[id].iqn));
      assert false;
    }
  }

  lemma TakenOver(w: World, id: nat, choice: nat) returns (sessions: map<nat, Session>, ledger: map<Res, set<Res>>)
    requires Good(w) && Enabled(w, Advance(id, choice)) && w.sessions[id].phase.done == OVERLAY_STEP
    ensures sessions == TakeOver(w.sessions, id, w.sessions[id].iqn) && Balanced(ledger, sessions)
    ensures id in sessions && sessions[id] == w.sessions[id]
    ensures ledger == w.ledger - {Overlay(w.sessions[id].iqn)}
  {
    var iqn := w.sessions[id].iqn;
    sessions, ledger := TakeOver(w.sessions, id, iqn), w.ledger - {Overlay(iqn)};
    if j :| j in w.sessions && j != id && w.sessions[j].iqn == iqn && w.sessions[j].phase == Failed(OVERLAY_STEP + 1) {
      assert Claims(w.sessions[j], Overlay(iqn));
      forall i | i in w.sessions && i != j ensures sessions[i] == w.sessions[i] {
        assert Claims(w.sessions[i], Overlay(iqn)) ==> i == j;
      }
      var t := w.sessions[j].(phase := Failed(OVERLAY_STEP));
      assert sessions == w.sessions[j := t];
      FreeBalanced(w.ledger, w.sessions, j, t, Overlay(iqn));
    } else {
      assert sessions == w.sessions;
      forall i | i in w.sessions ensures !Claims(w.sessions[i], Overlay(iqn)) {
        if i != id { CreatedIsNew(w, id, choice, i); }
      }
      assert !Owned(w.sessions, Overlay(iqn));
      assert ledger == w.ledger;
    }
  }

  lemma NotedClaims(s: Session, choice: nat)
    requires WellFormed(s) && s.phase.Starting? && s.phase.done < SET_UP_STEPS
    requires s.phase.done == 2 ==> choice != s.base
    ensures var t := Noted(s, s.phase.done, choice);
      && WellFormed(t)
      && (forall x :: Claims(t, x) <==> Claims(s, x) || x == Created(t, s.phase.done))
      && (forall x :: Claims(s, x) ==> Deps(t, x) == Deps(s, x))
  {
  }

  lemma AdvanceBalanced(w: World, id: nat, choice: nat)
    requires Good(w) && Enabled(w, Advance(id, choice))
    ensures Balanced(Next(w, Advance(id, choice)).ledger, Next(w, Advance(id, choice)).sessions)
  {
    AdvanceIsSafe(w, id, choice);
    var s := w.sessions[id];
    assert s.phase.done == 2 ==> Claims(s, Loop(s.base));
    NotedClaims(s, choice);
    var t := Noted(s, s.phase.done, choice);
    if s.phase.done == OVERLAY_STEP {
      var sessions, ledger := TakenOver(w, id, choice);
      CreateBalanced(ledger, sessions, id, t, Overlay(s.iqn));
      assert ledger[Overlay(s.iqn) := Deps(t, Overlay(s.iqn))] == w.ledger[Overlay(s.iqn) := Deps(t, Overlay(s.iqn))];
    } else {
      CreateBalanced(w.ledger, w.sessions, id, t, Created(t, s.phase.done));
    }
  }

  /** What a step does to the sessions: only its own moves on, and only a failed one may lose its overlay. */
  lemma AdvanceSessions(w: World, id: nat, choice: nat)
    requires Good(w) && Enabled(w, Advance(id, choice))
    ensures var v := Next(w, Advance(id, choice));
      && v.sessions.Keys == w.sessions.Keys && v.sessions[id] == Noted(w.sessions[id], w.sessions[id].phase.done, choice)
      && WellFormed(v.sessions[id])
      && forall j :: j in w.sessions && j != id ==> Remains(w.sessions[j], v.sessions[j])
  {
    assert w.sessions[id].phase.done == 2 ==> Claims(w.sessions[id], Loop(w.sessions[id].base));
    NotedClaims(w.sessions[id], choice);
  }

  lemma AdvanceGood(w: World, id: nat, choice: nat)
    requires Good(w) && Enabled(w, Advance(id, choice))
    ensures Good(Next(w, Advance(id, choice)))
  {
    AdvanceBalanced(w, id, choice);
    AdvanceSessions(w, id, choice);
    StillGood(w, Next(w, Advance(id, choice)), id);
  }

  lemma StillGood(w: World, v: World, id: nat)
    requires Good(w) && id in w.sessions && w.sessions[id].phase.Starting? && v.todo == w.todo && v.ending == w.ending
    requires Balanced(v.ledger, v.sessions) && v.sessions.Keys == w.sessions.Keys
    requires v.sessions[id].iqn == w.sessions[id].iqn && v.sessions[id].phase.Starting? && WellFormed(v.sessions[id])
    requires forall j :: j in w.sessions && j != id ==> Remains(w.sessions[j], v.sessions[j])
    ensures Good(v)
  {
  }

  lemma LoseRowIsIdle(w: World, id: nat)
    requires Good(w) && id in w.sessions && Blocks(w.sessions[id])
    ensures LoseRow(w.sessions, id, w.sessions[id].iqn) == w.sessions
  {
  }

  lemma FreeIsSafe(w: World)
    requires Good(w) && Enabled(w, Free)
    ensures !Hazard(w, Free)
  {
    var id := w.ending.value;
    var s := w.sessions[id];
    if s.phase.done != ROW_STEP {
      var r := Freed(s, s.phase.done);
      assert Claims(s, r);
      forall q | q in w.ledger ensures r !in w.ledger[q] {
        assert Owned(w.sessions, q);
        var j :| j in w.sessions && Claims(w.sessions[j], q);
        if j == id {
          NothingRestsOnIt(s, q);
        } else if r in Deps(w.sessions[j], q) {
          ClaimsAreClosed(w.sessions[j], q, r);
        }
      }
    }
  }

  lemma FreedClaims(s: Session)
    requires WellFormed(s) && s.phase.Ending? && s.phase.done != ROW_STEP
    ensures var t := s.(phase := Ending(s.phase.done + 1));
      && Claims(s, Freed(s, s.phase.done))
      && (forall x :: Claims(t, x) <==> Claims(s, x) && x != Freed(s, s.phase.done))
      && (s.phase.done == TEAR_DOWN_STEPS - 1 ==> forall x :: !Claims(t, x))
  {
  }

  lemma FreeGood(w: World)
    requires Good(w) && Enabled(w, Free)
    ensures Good(Next(w, Free))
  {
    var id := w.ending.value;
    var s := w.sessions[id];
    var t := s.(phase := Ending(s.phase.done + 1));
    if s.phase.done == ROW_STEP {
      LoseRowIsIdle(w, id);
      RelabelBalanced(w.ledger, w.sessions, id, t);
    } else {
      var r := Freed(s, s.phase.done);
      FreedClaims(s);
      FreeBalanced(w.ledger, w.sessions, id, t, r);
      if s.phase.done == TEAR_DOWN_STEPS - 1 {
        LeaveBalanced(w.ledger - {r}, w.sessions[id := t], id);
        assert w.sessions[id := t] - {id} == w.sessions - {id};
      }
    }
  }

  lemma BeginGood(w: World, id: nat, iqn: Iqn)
    requires Good(w) && id !in w.sessions && !Blocked(w, iqn)
    ensures Good(Next(w, Begin(id, iqn)))
  {
    ArriveBalanced(w.ledger, w.sessions, id, Session(iqn, Starting(0), 0, 0, 0));
  }

  lemma PublishGood(w: World, id: nat)
    requires Good(w) && Enabled(w, Publish(id))
    ensures Good(Next(w, Publish(id)))
  {
    LoseRowIsIdle(w, id);
    RelabelBalanced(w.ledger, w.sessions, id, w.sessions[id].(phase := Active));
  }

  lemma AbandonGood(w: World, id: nat)
    requires Good(w) && Enabled(w, Abandon(id))
    ensures Good(Next(w, Abandon(id)))
  {
    RelabelBalanced(w.ledger, w.sessions, id, w.sessions[id].(phase := Failed(w.sessions[id].phase.done)));
  }

  lemma ReapGood(w: World)
    requires Good(w) && Enabled(w, Reap)
    ensures Good(Next(w, Reap))
  {
    RelabelBalanced(w.ledger, w.sessions, w.todo[0], w.sessions[w.todo[0]].(phase := Ending(0)));
  }

  /** Every step from a good world is safe and leads to a good world, as long as no start begins for
      an IQN that another session blocks. */
  lemma NextGood(w: World, a: Action)
    requires Good(w) && Enabled(w, a) && (a.Begin? ==> !Blocked(w, a.iqn))
    ensures !Hazard(w, a) && Good(Next(w, a))
  {
    match a
    case Begin(id, iqn) => BeginGood(w, id, iqn);
    case Advance(id, choice) => AdvanceIsSafe(w, id, choice); AdvanceGood(w, id, choice);
    case Publish(id) => PublishGood(w, id);
    case Abandon(id) => AbandonGood(w, id);
    case Select(_) =>
    case Connected =>
    case Reap => ReapGood(w);
    case Free => FreeIsSafe(w); FreeGood(w);
  }

  // ---------- whole runs ----------

  /** Every start of the run begins for an IQN that no session blocks at that moment. */
  ghost predicate Orderly(w: World, actions: seq<Action>)
    decreases |actions|
  {
    |actions| == 0 ||
    (Enabled(w, actions[0]) && (actions[0].Begin? ==> !Blocked(w, actions[0].iqn))
     && Orderly(Next(w, actions[0]), actions[1..]))
  }

  ghost function After(w: World, actions: seq<Action>): World
    requires Orderly(w, actions)
    decreases |actions|
  {
    if |actions| == 0 then w else After(Next(w, actions[0]), actions[1..])
  }

  /** No step of the run, as far as it can be carried out, is a hazard. */
  ghost predicate Smooth(w: World, actions: seq<Action>)
    decreases |actions|
  {
    |actions| == 0 || !Enabled(w, actions[0])
    || (!Hazard(w, actions[0]) && Smooth(Next(w, actions[0]), actions[1..]))
  }

  lemma {:induction false} OrderlyRunsAreSmooth(w: World, actions: seq<Action>)
    requires Good(w) && Orderly(w, actions)
    ensures Smooth(w, actions) && Good(After(w, actions))
    decreases |actions|
  {
    if |actions| > 0 {
      NextGood(w, actions[0]);
      OrderlyRunsAreSmooth(Next(w, actions[0]), actions[1..]);
    }
  }

  /** Resource conservation and no use after release, over every interleaving of any number of client
      starts (failing anywhere) with one reaper: nothing is ever created twice, freed twice or freed
      while something rests on it; the ledger is always exactly what the sessions hold, each resource
      held by one of them; and once every session is gone it is empty again. */
  lemma NothingLeaksOrBreaks(actions: seq<Action>)
    requires Orderly(EMPTY, actions)
    ensures Smooth(EMPTY, actions)
    ensures var end := After(EMPTY, actions);
      && Balanced(end.ledger, end.sessions)
      && (forall i :: i in end.todo ==> i in end.sessions && end.sessions[i].phase.Active?)
      && (end.sessions == map[] ==> end.ledger == map[])
  {
    OrderlyRunsAreSmooth(EMPTY, actions);
    var end := After(EMPTY, actions);
    if end.sessions == map[] {
      assert forall r :: r in end.ledger ==> Owned(end.sessions, r);
    }
  }

  ghost predicate CreatedBy(s: Session, n: nat, r: Res) { exists k: nat :: k < n && k < SET_UP_STEPS && Created(s, k) == r }

  lemma ClaimsOfFailed(s: Session, r: Res)
    requires WellFormed(s) && s.phase.Failed?
    ensures Claims(s, r) <==> CreatedBy(s, s.phase.done, r)
  {
    if Claims(s, r) {
      var k := match r
        case Loop(d) => if d == s.base then 0 else 2
        case Overlay(_) => 1
        case Snapshot(_) => 3
        case Store(_) => 4
        case Lun(_) => 5
        case Acl(_) => 6
        case Mapping(_) => 7;
      assert Created(s, k) == r;
    }
  }

  /** A failed session stays as it is, unless the next start of its client has taken over an overlay file
      that nothing rests on. */
  predicate Remains(s: Session, t: Session) {
    t == s || (s.phase == Failed(OVERLAY_STEP + 1) && t == s.(phase := Failed(OVERLAY_STEP)))
  }

  lemma {:induction false} FailedStaysFailed(w: World, i: nat, actions: seq<Action>)
    requires Good(w) && i in w.sessions && w.sessions[i].phase.Failed? && Orderly(w, actions)
    ensures i in After(w, actions).sessions && Remains(w.sessions[i], After(w, actions).sessions[i])
    decreases |actions|
  {
    if |actions| > 0 {
      NextGood(w, actions[0]);
      FailedStepStays(w, i, actions[0]);
      FailedStaysFailed(Next(w, actions[0]), i, actions[1..]);
    }
  }

  lemma FailedStepStays(w: World, i: nat, a: Action)
    requires Good(w) && i in w.sessions && w.sessions[i].phase.Failed? && Enabled(w, a)
    ensures i in Next(w, a).sessions && Remains(w.sessions[i], Next(w, a).sessions[i])
  {
  }

  /** What is still left of a failed session `s` that has become `t`. */
  ghost predicate LeftOf(s: Session, t: Session, r: Res) {
    s.phase.Failed? && CreatedBy(s, s.phase.done, r) && (r.Overlay? ==> t == s)
  }

  lemma LeftIsHeld(s: Session, w: World, i: nat, r: Res)
    requires Good(w) && i in w.sessions && WellFormed(s) && s.phase.Failed? && Remains(s, w.sessions[i])
    requires LeftOf(s, w.sessions[i], r)
    ensures r in w.ledger && w.ledger[r] == Deps(s, r)
    ensures forall j :: j in w.sessions && j != i ==> !Claims(w.sessions[j], r)
  {
    ClaimsOfFailed(s, r);
    assert Claims(w.sessions[i], r) && Deps(w.sessions[i], r) == Deps(s, r);
  }

  /** What a failed start leaves behind, for good: it holds exactly the first `done` resources of the
      set-up sequence, so at most two loops and one snapshot besides the overlay file and the target's
      entries, and after every further run of starts and reaping they are still there and its alone; all
      but an overlay file with no loop attached, which the client's next start takes over. */
  lemma FailedStartLeaks(w: World, i: nat, actions: seq<Action>)
    requires Good(w) && i in w.sessions && w.sessions[i].phase.Failed? && Orderly(w, actions)
    ensures var s, end := w.sessions[i], After(w, actions);
      && i in end.sessions && Remains(s, end.sessions[i])
      && (forall r :: Claims(s, r) <==> CreatedBy(s, s.phase.done, r))
      && (forall r :: LeftOf(s, end.sessions[i], r) ==> r in end.ledger && end.ledger[r] == Deps(s, r))
      && (forall r, j :: LeftOf(s, end.sessions[i], r) && j in end.sessions && j != i ==> !Claims(end.sessions[j], r))
      && (end.sessions.Keys == {i} ==> forall r :: r in end.ledger <==> Claims(end.sessions[i], r))
  {
    var s, end := w.sessions[i], After(w, actions);
    OrderlyRunsAreSmooth(w, actions);
    FailedStaysFailed(w, i, actions);
    forall r ensures Claims(s, r) <==> CreatedBy(s, s.phase.done, r) {
      ClaimsOfFailed(s, r);
    }
    forall r | LeftOf(s, end.sessions[i], r)
      ensures r in end.ledger && end.ledger[r] == Deps(s, r)
      ensures forall j :: j in end.sessions && j != i ==> !Claims(end.sessions[j], r)
    {
      LeftIsHeld(s, end, i, r);
    }
    AloneOwnsAll(end, i);
  }

  lemma AloneOwnsAll(w: World, i: nat)
    requires Good(w)
    ensures w.sessions.Keys == {i} ==> forall r :: r in w.ledger <==> Claims(w.sessions[i], r)
  {
    if w.sessions.Keys == {i} {
      assert forall r :: r in w.ledger ==> Owned(w.sessions, r);
    }
  }

  // ---------- starts come up, passes come to their end ----------

  lemma {:induction false} RunsCompose(w: World, a: seq<Action>, b: seq<Action>)
    requires Orderly(w, a) && Orderly(After(w, a), b)
    ensures Orderly(w, a + b) && After(w, a + b) == After(After(w, a), b)
    decreases |a|
  {
    if |a| == 0 {
      assert a + b == b;
    } else {
      assert (a + b)[0] == a[0] && (a + b)[1..] == a[1..] + b;
      RunsCompose(Next(w, a[0]), a[1..], b);
    }
  }

  lemma OneStep(w: World, a: Action)
    requires Good(w) && Enabled(w, a) && !a.Begin?
    ensures Orderly(w, [a]) && After(w, [a]) == Next(w, a) && Good(Next(w, a))
  {
    NextGood(w, a);
    assert [a][1..] == [];
    assert Orderly(Next(w, a), []) && After(Next(w, a), []) == Next(w, a);
  }

  lemma FreshLun(ledger: map<Res, set<Res>>) returns (n: nat)
    ensures Lun(n) !in ledger
  {
    n := LunBound(ledger.Keys);
  }

  lemma LunBound(resources: set<Res>) returns (bound: nat)
    ensures forall r :: r in resources && r.Lun? ==> r.number < bound
    decreases resources
  {
    bound := 0;
    if r :| r in resources {
      bound := LunBound(resources - {r});
      if r.Lun? && r.number >= bound {
        bound := r.number + 1;
      }
    }
  }

  /** Session `id` has come up, and no other has moved. */
  ghost predicate CameUp(w: World, end: World, id: nat) {
    && Good(end) && end.sessions.Keys == w.sessions.Keys && end.todo == w.todo && end.ending == w.ending
    && id in w.sessions && end.sessions[id].phase == Active && end.sessions[id].iqn == w.sessions[id].iqn
    && (forall j :: j in w.sessions && j != id ==> Remains(w.sessions[j], end.sessions[j]))
  }

  lemma PublishComesUp(w: World, id: nat)
    requires Good(w) && Enabled(w, Publish(id))
    ensures Orderly(w, [Publish(id)]) && CameUp(w, After(w, [Publish(id)]), id)
  {
    OneStep(w, Publish(id));
    LoseRowIsIdle(w, id);
  }

  lemma AdvanceThenUp(w: World, id: nat, choice: nat, rest: seq<Action>)
    requires Good(w) && Enabled(w, Advance(id, choice)) && Orderly(Next(w, Advance(id, choice)), rest)
    requires CameUp(Next(w, Advance(id, choice)), After(Next(w, Advance(id, choice)), rest), id)
    ensures Orderly(w, [Advance(id, choice)] + rest) && CameUp(w, After(w, [Advance(id, choice)] + rest), id)
  {
    OneStep(w, Advance(id, choice));
    AdvanceSessions(w, id, choice);
    RunsCompose(w, [Advance(id, choice)], rest);
    RemainsChain(w, Next(w, Advance(id, choice)), After(w, [Advance(id, choice)] + rest), id);
  }

  /** A start that no call stops comes up: by its own steps alone it becomes an active session. */
  lemma {:induction false} StartComesUp(w: World, id: nat) returns (actions: seq<Action>)
    requires Good(w) && id in w.sessions && w.sessions[id].phase.Starting?
    ensures Orderly(w, actions) && forall a :: a in actions ==> a.Advance? || a.Publish?
    ensures CameUp(w, After(w, actions), id)
    decreases SET_UP_STEPS - w.sessions[id].phase.done
  {
    if w.sessions[id].phase.done == SET_UP_STEPS {
      actions := [Publish(id)];
      PublishComesUp(w, id);
    } else {
      var device := FreeDevice(w.ledger);
      var number := FreshLun(w.ledger);
      var choice := if w.sessions[id].phase.done == 5 then number else device;
      OneStep(w, Advance(id, choice));
      AdvanceSessions(w, id, choice);
      var rest := StartComesUp(Next(w, Advance(id, choice)), id);
      AdvanceThenUp(w, id, choice, rest);
      actions := [Advance(id, choice)] + rest;
    }
  }

  /** An active session holds all eight resources of the set-up sequence. */
  lemma ActiveHoldsAll(w: World, id: nat, n: nat)
    requires Good(w) && id in w.sessions && w.sessions[id].phase.Active? && n < SET_UP_STEPS
    ensures Created(w.sessions[id], n) in w.ledger
  {
    assert Claims(w.sessions[id], Created(w.sessions[id], n));
  }

  lemma RemainsChain(u: World, v: World, w: World, id: nat)
    requires u.sessions.Keys == v.sessions.Keys == w.sessions.Keys
    requires forall j :: j in u.sessions && j != id ==> Remains(u.sessions[j], v.sessions[j])
    requires forall j :: j in v.sessions && j != id ==> Remains(v.sessions[j], w.sessions[j])
    ensures forall j :: j in u.sessions && j != id ==> Remains(u.sessions[j], w.sessions[j])
  {
  }

  lemma LedgerIsOwned(w: World, r: Res)
    requires Good(w)
    ensures r in w.ledger <==> Owned(w.sessions, r)
  {
    if Owned(w.sessions, r) {
      var i :| i in w.sessions && Claims(w.sessions[i], r);
    }
  }

  /** Of all that an active session holds, only its LUN mapping could be freed: everything else has something
      resting on it, up from the image's loop to the mapping. */
  lemma OnlyTheMappingIsFree(w: World, id: nat, r: Res)
    requires Good(w) && id in w.sessions && w.sessions[id].phase.Active? && Claims(w.sessions[id], r)
    ensures InUse(w.ledger, r) <==> r != Mapping(w.sessions[id].iqn)
  {
    var s := w.sessions[id];
    if r == Mapping(s.iqn) {
      forall q | q in w.ledger ensures r !in w.ledger[q] {
        LedgerIsOwned(w, q);
        var j :| j in w.sessions && Claims(w.sessions[j], q);
        assert w.ledger[q] == Deps(w.sessions[j], q);
      }
    } else {
      var q := match r
        case Loop(_) => Snapshot(s.iqn)
        case Overlay(_) => Loop(s.over)
        case Snapshot(_) => Store(s.iqn)
        case Store(_) => Lun(s.lun)
        case Lun(_) => Mapping(s.iqn)
        case Acl(_) => Mapping(s.iqn)
        case Mapping(_) => r;
      assert Claims(s, q) && s.base != s.over;
      assert q in w.ledger && r in w.ledger[q];
    }
  }

  function Frees(n: nat): seq<Action> { if n == 0 then [] else [Free] + Frees(n - 1) }

  lemma FreeMoves(w: World, i: nat)
    requires Good(w) && w.ending == Some(i) && i in w.sessions
    ensures w.sessions[i].phase.Ending? && Enabled(w, Free) && Next(w, Free).todo == w.todo
    ensures var k, v := w.sessions[i].phase.done, Next(w, Free);
      if k == TEAR_DOWN_STEPS - 1 then v.sessions == w.sessions - {i} && v.ending == None
      else v.sessions == w.sessions[i := w.sessions[i].(phase := Ending(k + 1))] && v.ending == w.ending
  {
    if w.sessions[i].phase.done == ROW_STEP { LoseRowIsIdle(w, i); }
  }

  /** Session `i` has gone, and nothing else. */
  ghost predicate IsGone(w: World, end: World, i: nat) {
    Good(end) && end.sessions == w.sessions - {i} && end.todo == w.todo && end.ending == None
  }

  lemma LastFree(w: World, i: nat)
    requires Good(w) && w.ending == Some(i) && i in w.sessions && w.sessions[i].phase == Ending(TEAR_DOWN_STEPS - 1)
    ensures Orderly(w, [Free]) && IsGone(w, After(w, [Free]), i)
  {
    FreeMoves(w, i);
    OneStep(w, Free);
  }

  lemma FreeThenGone(w: World, i: nat, rest: seq<Action>)
    requires Good(w) && w.ending == Some(i) && i in w.sessions && w.sessions[i].phase.Ending?
    requires w.sessions[i].phase.done < TEAR_DOWN_STEPS - 1
    requires Enabled(w, Free) && Orderly(Next(w, Free), rest) && IsGone(Next(w, Free), After(Next(w, Free), rest), i)
    ensures Orderly(w, [Free] + rest) && IsGone(w, After(w, [Free] + rest), i)
  {
    FreeMoves(w, i);
    OneStep(w, Free);
    RunsCompose(w, [Free], rest);
    assert Next(w, Free).sessions - {i} == w.sessions - {i};
  }

  /** The tear-down, once begun, runs to its end and takes exactly its session. */
  lemma {:induction false} TearDownEnds(w: World, i: nat, left: nat)
    requires Good(w) && w.ending == Some(i) && i in w.sessions
    requires 0 < left <= TEAR_DOWN_STEPS && w.sessions[i].phase == Ending(TEAR_DOWN_STEPS - left)
    ensures Orderly(w, Frees(left)) && IsGone(w, After(w, Frees(left)), i)
    decreases left
  {
    if left == 1 {
      LastFree(w, i);
      assert Frees(1) == [Free];
    } else {
      FreeMoves(w, i);
      OneStep(w, Free);
      TearDownEnds(Next(w, Free), i, left - 1);
      FreeThenGone(w, i, Frees(left - 1));
    }
  }

  function Turn(i: nat, gone: set<nat>): seq<Action> { if i in gone then [Reap] + Frees(TEAR_DOWN_STEPS) else [Connected] }

  /** The reaper's pass over the rows it has selected, when the clients in `gone` have disconnected. */
  function Pass(todo: seq<nat>, gone: set<nat>): seq<Action> {
    if |todo| == 0 then [] else Turn(todo[0], gone) + Pass(todo[1..], gone)
  }

  /** One row's turn. */
  lemma TurnEnds(w: World, gone: set<nat>)
    requires Good(w) && w.ending.None? && |w.todo| > 0
    ensures Orderly(w, Turn(w.todo[0], gone))
    ensures var v := After(w, Turn(w.todo[0], gone));
      && Good(v) && v.todo == w.todo[1..] && v.ending == None
      && v.sessions == if w.todo[0] in gone then w.sessions - {w.todo[0]} else w.sessions
  {
    if w.todo[0] in gone {
      ReapOne(w);
    } else {
      OneStep(w, Connected);
    }
  }

  lemma ReapOne(w: World)
    requires Good(w) && w.ending.None? && |w.todo| > 0
    ensures Orderly(w, [Reap] + Frees(TEAR_DOWN_STEPS))
    ensures var v := After(w, [Reap] + Frees(TEAR_DOWN_STEPS));
      Good(v) && v.todo == w.todo[1..] && v.ending == None && v.sessions == w.sessions - {w.todo[0]}
  {
    var i := w.todo[0];
    OneStep(w, Reap);
    var begun := Next(w, Reap);
    TearDownEnds(begun, i, TEAR_DOWN_STEPS);
    RunsCompose(w, [Reap], Frees(TEAR_DOWN_STEPS));
    assert begun.sessions - {i} == w.sessions - {i};
  }

  lemma {:induction false} PassEnds(w: World, gone: set<nat>)
    requires Good(w) && w.ending.None?
    ensures Orderly(w, Pass(w.todo, gone))
    ensures var end := After(w, Pass(w.todo, gone));
      && Good(end) && end.todo == [] && end.ending == None
      && end.sessions == w.sessions - set i | i in w.todo && i in gone
    decreases |w.todo|
  {
    if |w.todo| == 0 {
      assert w.sessions - (set i | i in w.todo && i in gone) == w.sessions;
    } else {
      TurnEnds(w, gone);
      var v := After(w, Turn(w.todo[0], gone));
      PassEnds(v, gone);
      RunsCompose(w, Turn(w.todo[0], gone), Pass(w.todo[1..], gone));
      PassTakes(w.sessions, v.sessions, w.todo, gone);
    }
  }

  lemma PassTakes(before: map<nat, Session>, v: map<nat, Session>, todo: seq<nat>, gone: set<nat>)
    requires |todo| > 0 && v == if todo[0] in gone then before - {todo[0]} else before
    ensures v - (set i | i in todo[1..] && i in gone) == before - (set i | i in todo && i in gone)
  {
    assert forall i :: i in todo <==> i == todo[0] || i in todo[1..];
  }

  /** A whole pass, undisturbed: it selects the active sessions, tears down exactly those whose clients have
      disconnected, and of the ledger takes exactly what they held. */
  lemma PassReapsExactly(w: World, order: seq<nat>, gone: set<nat>)
    requires Good(w) && Enabled(w, Select(order))
    ensures var actions := [Select(order)] + Pass(order, gone);
      && Orderly(w, actions)
      && var end := After(w, actions);
         && Good(end) && end.todo == [] && end.ending == None
         && (forall i :: i in end.sessions <==> i in w.sessions && !(w.sessions[i].phase.Active? && i in gone))
         && (forall i :: i in end.sessions ==> end.sessions[i] == w.sessions[i])
         && (forall r :: r in end.ledger <==> r in w.ledger && Owned(end.sessions, r))
  {
    OneStep(w, Select(order));
    var v := Next(w, Select(order));
    PassEnds(v, gone);
    RunsCompose(w, [Select(order)], Pass(order, gone));
    var end := After(v, Pass(order, gone));
    SmallerWorld(w, end);
  }

  lemma SmallerWorld(w: World, v: World)
    requires Good(w) && Good(v) && forall i :: i in v.sessions ==> i in w.sessions && v.sessions[i] == w.sessions[i]
    ensures forall r :: r in v.ledger <==> r in w.ledger && Owned(v.sessions, r)
  {
    forall r ensures r in v.ledger <==> r in w.ledger && Owned(v.sessions, r) {
      LedgerIsOwned(w, r);
      LedgerIsOwned(v, r);
      FewerOwn(w.sessions, v.sessions, r);
    }
  }

  lemma FewerOwn(sessions: map<nat, Session>, fewer: map<nat, Session>, r: Res)
    requires forall i :: i in fewer ==> i in sessions && fewer[i] == sessions[i]
    ensures Owned(fewer, r) ==> Owned(sessions, r)
  {
    if i :| i in fewer && Claims(fewer[i], r) { assert Claims(sessions[i], r); }
  }

  // ---------- when a start is safe ----------

  ghost predicate NoBegin(actions: seq<Action>) { forall a :: a in actions ==> !a.Begin? }

  /** Starting now for `iqn` is safe: no continuation without further starts runs into a hazard. */
  ghost predicate SafeToBegin(w: World, id: nat, iqn: Iqn)
    requires id !in w.sessions
  {
    forall actions :: NoBegin(actions) ==> Smooth(Next(w, Begin(id, iqn)), actions)
  }

  lemma {:induction false} GoodWorldsAreSmooth(w: World, actions: seq<Action>)
    requires Good(w) && NoBegin(actions)
    ensures Smooth(w, actions)
    decreases |actions|
  {
    if |actions| > 0 && Enabled(w, actions[0]) {
      assert !actions[0].Begin?;
      NextGood(w, actions[0]);
      GoodWorldsAreSmooth(Next(w, actions[0]), actions[1..]);
    }
  }

  lemma FreeDevice(ledger: map<Res, set<Res>>) returns (d: nat)
    ensures forall e :: e >= d ==> Loop(e) !in ledger
  {
    d := UpperBound(ledger.Keys);
  }

  lemma UpperBound(resources: set<Res>) returns (bound: nat)
    ensures forall r :: r in resources && r.Loop? ==> r.device < bound
    decreases resources
  {
    bound := 0;
    if r :| r in resources {
      bound := UpperBound(resources - {r});
      if r.Loop? && r.device >= bound {
        bound := r.device + 1;
      }
    }
  }

  lemma HazardIsNotSmooth(w: World, a: Action, rest: seq<Action>)
    requires Enabled(w, a)
    ensures Hazard(w, a) ==> !Smooth(w, [a] + rest)
    ensures !Smooth(Next(w, a), rest) ==> !Smooth(w, [a] + rest)
  {
    assert ([a] + rest)[1..] == rest;
  }

  ghost predicate CanGoWrong(w: World) { exists actions :: NoBegin(actions) && !Smooth(w, actions) }

  lemma GoesWrongNow(w: World, a: Action)
    requires Enabled(w, a) && !a.Begin? && Hazard(w, a)
    ensures CanGoWrong(w)
  {
    HazardIsNotSmooth(w, a, []);
    assert NoBegin([a] + []);
  }

  lemma GoesWrongLater(w: World, a: Action)
    requires Enabled(w, a) && !a.Begin? && CanGoWrong(Next(w, a))
    ensures CanGoWrong(w)
  {
    var rest :| NoBegin(rest) && !Smooth(Next(w, a), rest);
    HazardIsNotSmooth(w, a, rest);
    assert NoBegin([a] + rest);
  }

  lemma RestsNow(ledger: map<Res, set<Res>>, iqn: Iqn, d: nat)
    requires Loop(d) in ledger && Overlay(iqn) in ledger[Loop(d)]
    ensures InUse(ledger, Overlay(iqn))
  {
  }

  /** A session on its way to an overlay file that another one's loop rests on. */
  lemma LateComerCollides(w: World, j: nat, iqn: Iqn)
    requires j in w.sessions && w.sessions[j].iqn == iqn && Overlay(iqn) in w.ledger && InUse(w.ledger, Overlay(iqn))
    requires w.sessions[j].phase in {Starting(0), Starting(1)}
    ensures CanGoWrong(w)
  {
    var last := Advance(j, 0);
    if w.sessions[j].phase == Starting(1) {
      GoesWrongNow(w, last);
    } else {
      var d := FreeDevice(w.ledger);
      var first := Advance(j, d);
      var q :| q in w.ledger && Overlay(iqn) in w.ledger[q];
      assert q in Next(w, first).ledger && Overlay(iqn) in Next(w, first).ledger[q];
      GoesWrongNow(Next(w, first), last);
      GoesWrongLater(w, first);
    }
  }

  /** One set-up call of a start, seen from what it leaves alone. */
  lemma Advanced(w: World, id: nat, choice: nat) returns (v: World)
    requires Enabled(w, Advance(id, choice))
    ensures CanGoWrong(v) ==> CanGoWrong(w)
    ensures var n := w.sessions[id].phase.done;
      && id in v.sessions && v.sessions[id] == Noted(w.sessions[id], n, choice) && v.ending == w.ending
      && v.ledger == w.ledger[Created(v.sessions[id], n) := Deps(v.sessions[id], Created(v.sessions[id], n))]
    ensures forall j :: j in w.sessions && j != id && !w.sessions[j].phase.Failed? ==>
      j in v.sessions && v.sessions[j] == w.sessions[j]
  {
    v := Next(w, Advance(id, choice));
    if CanGoWrong(v) { GoesWrongLater(w, Advance(id, choice)); }
  }

  /** A newcomer attaches its base loop, creates its overlay file and attaches a loop to it. */
  lemma NewcomerAdvances(w: World, id: nat, iqn: Iqn) returns (v: World, loop: nat)
    requires id in w.sessions && w.sessions[id] == Session(iqn, Starting(0), 0, 0, 0)
    ensures CanGoWrong(v) ==> CanGoWrong(w)
    ensures Overlay(iqn) in v.ledger && v.ending == w.ending
    ensures Loop(loop) !in w.ledger && Loop(loop) in v.ledger && Overlay(iqn) in v.ledger[Loop(loop)]
    ensures forall j :: j in w.sessions && j != id && !w.sessions[j].phase.Failed? ==>
      j in v.sessions && v.sessions[j] == w.sessions[j]
  {
    var d := FreeDevice(w.ledger);
    loop := d + 1;
    v := Advanced(w, id, d);
    v := Advanced(v, id, 0);
    v := Advanced(v, id, loop);
  }

  /** A session whose loop holds on to its overlay file, or that is about to attach one. */
  lemma OverlayTaken(w: World, id: nat, j: nat, iqn: Iqn)
    requires id in w.sessions && w.sessions[id] == Session(iqn, Starting(0), 0, 0, 0) && Overlay(iqn) in w.ledger
    requires InUse(w.ledger, Overlay(iqn)) || (j in w.sessions && w.sessions[j].iqn == iqn && w.sessions[j].phase == Starting(2))
    ensures CanGoWrong(w)
  {
    var d := FreeDevice(w.ledger);
    if InUse(w.ledger, Overlay(iqn)) {
      LateComerCollides(w, id, iqn);
    } else {
      var device := if w.sessions[j].base == d then d + 1 else d;
      var attach := Advance(j, device);
      RestsNow(Next(w, attach).ledger, iqn, device);
      LateComerCollides(Next(w, attach), id, iqn);
      GoesWrongLater(w, attach);
    }
  }

  /** The reaper is about to delete the file that the newcomer's loop rests on. */
  lemma ReaperDeletesIt(w: World, j: nat, iqn: Iqn, loop: nat)
    requires w.ending == Some(j) && j in w.sessions && w.sessions[j].iqn == iqn
    requires w.sessions[j].phase in {Ending(7), Ending(8)}
    requires Overlay(iqn) in w.ledger && Loop(loop) in w.ledger && Overlay(iqn) in w.ledger[Loop(loop)]
    requires w.sessions[j].phase == Ending(7) ==> loop != w.sessions[j].base
    ensures CanGoWrong(w)
  {
    RestsNow(w.ledger, iqn, loop);
    if w.sessions[j].phase == Ending(8) {
      GoesWrongNow(w, Free);
    } else {
      RestsNow(Next(w, Free).ledger, iqn, loop);
      GoesWrongNow(Next(w, Free), Free);
      GoesWrongLater(w, Free);
    }
  }

  /** The other session is on its way to the overlay file, or about to delete it. */
  lemma CollidesOnTheWay(w: World, id: nat, j: nat, iqn: Iqn)
    requires Good(w) && id !in w.sessions && j in w.sessions && w.sessions[j].iqn == iqn
    requires w.sessions[j].phase in {Starting(0), Starting(1), Ending(7), Ending(8)}
    ensures CanGoWrong(Next(w, Begin(id, iqn)))
  {
    var s := w.sessions[j];
    assert s.phase == Ending(7) ==> Claims(s, Loop(s.base));
    var v, loop := NewcomerAdvances(Next(w, Begin(id, iqn)), id, iqn);
    RestsNow(v.ledger, iqn, loop);
    if s.phase.Starting? { LateComerCollides(v, j, iqn); } else { ReaperDeletesIt(v, j, iqn, loop); }
  }

  /** The other session has the file, and its loop on it unless that is its very next call. */
  lemma CollidesOnFile(w: World, id: nat, j: nat, iqn: Iqn)
    requires Good(w) && id !in w.sessions && j in w.sessions && w.sessions[j].iqn == iqn && Blocks(w.sessions[j])
    requires w.sessions[j].phase !in {Starting(0), Starting(1), Ending(7), Ending(8)}
    ensures CanGoWrong(Next(w, Begin(id, iqn)))
  {
    var s := w.sessions[j];
    assert Claims(s, Overlay(iqn));
    if s.phase != Starting(2) {
      assert Claims(s, Loop(s.over)) && s.over != s.base;
      RestsNow(w.ledger, iqn, s.over);
    }
    OverlayTaken(Next(w, Begin(id, iqn)), id, j, iqn);
  }

  lemma BlockedStartCollides(w: World, id: nat, iqn: Iqn)
    requires Good(w) && id !in w.sessions && Blocked(w, iqn)
    ensures !SafeToBegin(w, id, iqn)
  {
    var j :| j in w.sessions && w.sessions[j].iqn == iqn && Blocks(w.sessions[j]);
    if w.sessions[j].phase in {Starting(0), Starting(1), Ending(7), Ending(8)} {
      CollidesOnTheWay(w, id, j, iqn);
    } else {
      CollidesOnFile(w, id, j, iqn);
    }
  }

  /** The exact condition: a start is safe if and only if no other session of its IQN is starting,
      active or still being torn down, and no failed start of it attached a loop to its overlay file.
      Looking for an active row is not enough: the row goes before the snapshot, the loops and the
      overlay file do. */
  lemma SafeToBeginIff(w: World, id: nat, iqn: Iqn)
    requires Good(w) && id !in w.sessions
    ensures SafeToBegin(w, id, iqn) <==> !Blocked(w, iqn)
  {
    if Blocked(w, iqn) {
      BlockedStartCollides(w, id, iqn);
    } else {
      BeginGood(w, id, iqn);
      forall actions | NoBegin(actions) ensures Smooth(Next(w, Begin(id, iqn)), actions) {
        GoodWorldsAreSmooth(Next(w, Begin(id, iqn)), actions);
      }
    }
  }

  predicate HasRow(s: Session) { s.phase.Active? || (s.phase.Ending? && s.phase.done <= ROW_STEP) }

  /** A session past its row deletion: its IQN has no row anywhere, yet starting it is unsafe. */
  lemma NoRowIsNotEnough(w: World, id: nat, j: nat)
    requires Good(w) && id !in w.sessions && j in w.sessions
    requires w.sessions[j].phase.Ending? && w.sessions[j].phase.done > ROW_STEP
    ensures forall i :: i in w.sessions && w.sessions[i].iqn == w.sessions[j].iqn ==> !HasRow(w.sessions[i])
    ensures !SafeToBegin(w, id, w.sessions[j].iqn)
  {
    BlockedStartCollides(w, id, w.sessions[j].iqn);
  }
}
