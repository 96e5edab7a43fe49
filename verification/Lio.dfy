/** The one shared iSCSI target of lio.py: backstores, LUNs and ACLs as the tables under its portal
    group. Each session adds one of each; an initiator sees only the LUN its ACL maps. */
module Lio {
  import opened Bytes

  type Name = bytes
  type Iqn = bytes

  /** A block device: a loop device, or a device-mapper device by its name. */
  datatype Dev = LoopDevice(number: nat) | Mapper(name: Name)

  /** `acls` gives the LUN an initiator sees as its LUN 0, None while nothing is mapped yet. */
  datatype Tpg = Tpg(stores: map<Name, Dev>, luns: map<nat, Name>, acls: map<Iqn, Option<nat>>) {
    /** Every mapping names an existing LUN, and every LUN an existing backstore. */
    ghost predicate Valid() {
      && (forall n :: n in luns ==> luns[n] in stores)
      && (forall q :: q in acls && acls[q].Some? ==> acls[q].value in luns)
    }
  }

  const NO_LUNS := Tpg(map[], map[], map[])

  /** A call of `register_lun` that raises for reasons of the kernel's own. */
  datatype LunFault = StoreFails | LunFails | AclFails | MappingFails

  /** Register a LUN; the kernel numbers it `number`. None if a call raises: the first because the
      backstore name is taken, the last because the initiator already has a LUN mapped, or any of them
      by `fault`. What the earlier calls made stays behind. */
  function Register(t: Tpg, iqn: Iqn, name: Name, dev: Dev, number: nat, fault: Option<LunFault>): (Tpg, Option<nat>) {
    if name in t.stores || fault == Some(StoreFails) then (t, None)
    else
      var stored := t.(stores := t.stores[name := dev]);
      if fault == Some(LunFails) then (stored, None)
      else
        var numbered := stored.(luns := t.luns[number := name]);
        if fault == Some(AclFails) || (iqn in t.acls && t.acls[iqn].Some?) then (numbered, None)
        else if fault == Some(MappingFails) then (numbered.(acls := t.acls[iqn := None]), None)
        else (numbered.(acls := t.acls[iqn := Some(number)]), Some(number))
  }

  /** The LUNs that survive the removal of the backstore `name`. */
  function LunsWithout(t: Tpg, name: Name): map<nat, Name> { map n | n in t.luns && t.luns[n] != name :: t.luns[n] }

  function Unmap(m: Option<nat>, luns: map<nat, Name>): Option<nat> {
    if m.Some? && m.value in luns then m else None
  }

  /** Remove the ACL of an initiator, the LUNs of a backstore with their mappings, and the backstore. */
  function Remove(t: Tpg, iqn: Iqn, name: Name): Tpg {
    var luns := LunsWithout(t, name);
    Tpg(t.stores - {name}, luns, map q | q in t.acls && q != iqn :: Unmap(t.acls[q], luns))
  }

  class SharedTarget {
    var stores: map<Name, Dev>
    var luns: map<nat, Name>
    var acls: map<Iqn, Option<nat>>

    function View(): Tpg
      reads this
    {
      Tpg(stores, luns, acls)
    }

    constructor ()
      ensures View() == NO_LUNS
    {
      stores, luns, acls := map[], map[], map[];
    }

    method RegisterLun(iqn: Iqn, name: Name, dev: Dev, number: nat, fault: Option<LunFault>) returns (r: Option<nat>)
      requires number !in luns
      modifies this
      ensures (View(), r) == Register(old(View()), iqn, name, dev, number, fault)
    {
      if name in stores || fault == Some(StoreFails) {
        return None;
      }
      ghost var was := acls;
      stores := stores[name := dev];
      if fault == Some(LunFails) {
        return None;
      }
      luns := luns[number := name];
      if fault == Some(AclFails) {
        return None;
      }
      if iqn !in acls {
        acls := acls[iqn := None];
      }
      if acls[iqn].Some? || fault == Some(MappingFails) {
        assert iqn in was ==> acls == was[iqn := was[iqn]];
        return None;
      }
      acls := acls[iqn := Some(number)];
      assert acls == was[iqn := Some(number)];
      r := Some(number);
    }

    method DeleteLun(number: nat)
      modifies this`luns, this`acls
      ensures luns == old(luns) - {number}
      ensures acls == map q | q in old(acls) :: if old(acls)[q] == Some(number) then None else old(acls)[q]
    {
      luns := luns - {number};
      acls := map q | q in acls :: if acls[q] == Some(number) then None else acls[q];
    }

    method RemoveLun(iqn: Iqn, name: Name)
      requires View().Valid()
      modifies this
      ensures View() == Remove(old(View()), iqn, name)
    {
      acls := acls - {iqn};
      ghost var t := View();
      var left := luns.Keys;
      NothingLeftOut(t, name);
      while left != {}
        invariant left <= t.luns.Keys && stores == t.stores
        invariant luns == Pending(t, name, left) && acls == Unmapped(t, luns)
      {
        var n :| n in left;
        LeaveOut(t, name, left, n);
        if luns[n] == name {
          DeleteLun(n);
        }
        left := left - {n};
      }
      stores := stores - {name};
      assert luns == LunsWithout(old(View()), name);
    }
  }

  /** The LUNs while the ones in `left` are still to be looked at. */
  ghost function Pending(t: Tpg, name: Name, left: set<nat>): map<nat, Name> {
    map n | n in t.luns && (n in left || t.luns[n] != name) :: t.luns[n]
  }

  ghost function Unmapped(t: Tpg, luns: map<nat, Name>): map<Iqn, Option<nat>> {
    map q | q in t.acls :: Unmap(t.acls[q], luns)
  }

  lemma NothingLeftOut(t: Tpg, name: Name)
    requires t.Valid()
    ensures Pending(t, name, t.luns.Keys) == t.luns && Unmapped(t, t.luns) == t.acls
  {
  }

  lemma LeaveOut(t: Tpg, name: Name, left: set<nat>, n: nat)
    requires n in left && left <= t.luns.Keys
    ensures n in Pending(t, name, left) && Pending(t, name, left)[n] == t.luns[n]
    ensures var luns := Pending(t, name, left);
      if t.luns[n] == name then
        Pending(t, name, left - {n}) == luns - {n}
        && Unmapped(t, luns - {n})
           == map q | q in Unmapped(t, luns) :: if Unmapped(t, luns)[q] == Some(n) then None else Unmapped(t, luns)[q]
      else Pending(t, name, left - {n}) == luns
  {
  }

  lemma RegisterFailsIff(t: Tpg, iqn: Iqn, name: Name, dev: Dev, number: nat, fault: Option<LunFault>)
    ensures Register(t, iqn, name, dev, number, fault).1.None?
            <==> fault.Some? || name in t.stores || (iqn in t.acls && t.acls[iqn].Some?)
  {
    if fault.Some? {
      assert fault.value.StoreFails? || fault.value.LunFails? || fault.value.AclFails? || fault.value.MappingFails?;
    }
  }

  /** A registered LUN is what its initiator sees, on the device it was registered with. */
  lemma RegisteredIsShown(t: Tpg, iqn: Iqn, name: Name, dev: Dev, number: nat, fault: Option<LunFault>)
    ensures var (u, lun) := Register(t, iqn, name, dev, number, fault);
      lun.Some? ==> lun.value == number && Sees(u, iqn) == Some(name) && name in u.stores && u.stores[name] == dev
  {
  }

  lemma RegisterValid(t: Tpg, iqn: Iqn, name: Name, dev: Dev, number: nat, fault: Option<LunFault>)
    requires t.Valid() && number !in t.luns
    ensures Register(t, iqn, name, dev, number, fault).0.Valid()
  {
  }

  lemma RemoveValid(t: Tpg, iqn: Iqn, name: Name)
    requires t.Valid()
    ensures Remove(t, iqn, name).Valid()
  {
  }

  /** Removing what was registered restores the target exactly, whatever else it serves. */
  lemma RemoveUndoesRegister(t: Tpg, iqn: Iqn, name: Name, dev: Dev, number: nat)
    requires t.Valid() && number !in t.luns && name !in t.stores && iqn !in t.acls
    ensures Register(t, iqn, name, dev, number, None).1 == Some(number)
    ensures Remove(Register(t, iqn, name, dev, number, None).0, iqn, name) == t
  {
    var u := Remove(Register(t, iqn, name, dev, number, None).0, iqn, name);
    assert u.stores == t.stores && u.luns == t.luns;
    assert u.acls == t.acls;
  }

  /** What an initiator is shown: the backstore behind its LUN 0. */
  function Sees(t: Tpg, iqn: Iqn): Option<Name> {
    if iqn in t.acls && t.acls[iqn].Some? && t.acls[iqn].value in t.luns then Some(t.luns[t.acls[iqn].value]) else None
  }

  /** Another session's registration or removal changes nothing an initiator sees. */
  lemma OthersAreUntouched(t: Tpg, iqn: Iqn, name: Name, dev: Dev, number: nat, fault: Option<LunFault>, other: Iqn)
    requires t.Valid() && number !in t.luns && other != iqn && Sees(t, other) != Some(name)
    ensures Sees(Register(t, iqn, name, dev, number, fault).0, other) == Sees(t, other)
    ensures Sees(Remove(t, iqn, name), other) == Sees(t, other)
    ensures forall n :: n in t.luns && t.luns[n] != name ==> n in Remove(t, iqn, name).luns
  {
  }

  // ---------- runs ----------

  datatype Op =
    | DoRegister(iqn: Iqn, name: Name, dev: Dev, number: nat, fault: Option<LunFault>)
    | DoRemove(iqn: Iqn, name: Name)

  function Apply(t: Tpg, op: Op): Tpg {
    match op
    case DoRegister(iqn, name, dev, number, fault) => Register(t, iqn, name, dev, number, fault).0
    case DoRemove(iqn, name) => Remove(t, iqn, name)
  }

  ghost predicate Fresh(t: Tpg, op: Op) { op.DoRegister? ==> op.number !in t.luns }

  ghost predicate Run(t: Tpg, ops: seq<Op>, end: Tpg)
    decreases |ops|
  {
    if |ops| == 0 then t == end else Fresh(t, ops[0]) && Run(Apply(t, ops[0]), ops[1..], end)
  }

  ghost predicate Registered(ops: seq<Op>, iqn: Iqn, name: Name) {
    exists op :: op in ops && op.DoRegister? && op.iqn == iqn && op.name == name
  }

  /** Each LUN is shown to at most one initiator, and each backstore is behind at most one LUN. */
  ghost predicate OneToOne(t: Tpg) {
    && (forall p, q :: p in t.acls && q in t.acls && p != q && t.acls[p].Some? ==> t.acls[p] != t.acls[q])
    && (forall m, n :: m in t.luns && n in t.luns && m != n ==> t.luns[m] != t.luns[n])
  }

  lemma NewMappingIsolates(t: Tpg, stores: map<Name, Dev>, iqn: Iqn, name: Name, number: nat)
    requires t.Valid() && OneToOne(t) && number !in t.luns && name !in t.stores && (iqn in t.acls ==> t.acls[iqn].None?)
    ensures OneToOne(Tpg(stores, t.luns[number := name], t.acls[iqn := Some(number)]))
  {
  }

  lemma NewLunIsolates(t: Tpg, stores: map<Name, Dev>, iqn: Iqn, name: Name, number: nat)
    requires t.Valid() && OneToOne(t) && number !in t.luns && name !in t.stores
    ensures OneToOne(Tpg(stores, t.luns[number := name], t.acls))
    ensures iqn !in t.acls ==> OneToOne(Tpg(stores, t.luns[number := name], t.acls[iqn := None]))
  {
  }

  lemma RegisterIsolates(t: Tpg, iqn: Iqn, name: Name, dev: Dev, number: nat, fault: Option<LunFault>, other: Iqn)
    requires t.Valid() && OneToOne(t) && number !in t.luns
    ensures var u := Register(t, iqn, name, dev, number, fault).0;
      OneToOne(u) && (Sees(u, other) == Sees(t, other) || (other == iqn && Sees(u, other) == Some(name)))
  {
    RegisterShows(t, iqn, name, dev, number, fault, other);
    if name !in t.stores && fault != Some(StoreFails) && fault != Some(LunFails) {
      var stores := t.stores[name := dev];
      NewLunIsolates(t, stores, iqn, name, number);
      if iqn !in t.acls || t.acls[iqn].None? { NewMappingIsolates(t, stores, iqn, name, number); }
    }
    if iqn in t.acls && t.acls[iqn].None? { assert t.acls[iqn := None] == t.acls; }
  }

  lemma RegisterShows(t: Tpg, iqn: Iqn, name: Name, dev: Dev, number: nat, fault: Option<LunFault>, other: Iqn)
    requires t.Valid() && number !in t.luns
    ensures var u := Register(t, iqn, name, dev, number, fault).0;
      Sees(u, other) == Sees(t, other) || (other == iqn && Sees(u, other) == Some(name))
  {
  }

  lemma RemoveIsolates(t: Tpg, iqn: Iqn, name: Name, other: Iqn)
    requires t.Valid() && OneToOne(t)
    ensures var u := Remove(t, iqn, name); OneToOne(u) && (Sees(u, other).Some? ==> Sees(u, other) == Sees(t, other))
  {
  }

  lemma ApplyIsolates(t: Tpg, op: Op, iqn: Iqn)
    requires t.Valid() && OneToOne(t) && Fresh(t, op)
    ensures Apply(t, op).Valid() && OneToOne(Apply(t, op))
    ensures var seen := Sees(Apply(t, op), iqn);
      seen.Some? && seen != Sees(t, iqn) ==> op.DoRegister? && op.iqn == iqn && op.name == seen.value
  {
    match op
    case DoRegister(q, name, dev, number, fault) =>
      RegisterValid(t, q, name, dev, number, fault);
      RegisterIsolates(t, q, name, dev, number, fault, iqn);
    case DoRemove(q, name) =>
      RemoveValid(t, q, name);
      RemoveIsolates(t, q, name, iqn);
  }

  /** After any run an initiator sees only a backstore that was registered for it, and no two
      initiators see the same one. */
  lemma {:induction false} InitiatorsAreIsolated(t: Tpg, ops: seq<Op>, end: Tpg, iqn: Iqn)
    requires t.Valid() && OneToOne(t) && Run(t, ops, end)
    ensures end.Valid() && OneToOne(end)
    ensures Sees(end, iqn).Some? ==> Sees(end, iqn) == Sees(t, iqn) || Registered(ops, iqn, Sees(end, iqn).value)
    ensures forall q :: q != iqn && Sees(end, q).Some? ==> Sees(end, q) != Sees(end, iqn)
    decreases |ops|
  {
    if |ops| > 0 {
      ApplyIsolates(t, ops[0], iqn);
      InitiatorsAreIsolated(Apply(t, ops[0]), ops[1..], end, iqn);
      var seen := Sees(end, iqn);
      if seen.Some? && Registered(ops[1..], iqn, seen.value) {
        var r :| r in ops[1..] && r.DoRegister? && r.iqn == iqn && r.name == seen.value;
        assert r in ops;
      } else if seen.Some? && seen != Sees(t, iqn) {
        assert ops[0] in ops;
      }
    }
  }
}
