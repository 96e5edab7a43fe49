/** The backstores and mappings of ImageProfiles are those of the shared target of Lio, under the names
    that session.py gives them. */
module ImageTarget {
  import opened Bytes
  import opened SessionNames
  import opened ImageProfiles
  import Lio

  predicate IsMapped(t: Lio.Tpg, iqn: bytes) { iqn in t.acls && t.acls[iqn].Some? }

  ghost predicate Abstracts(prefix: bytes, t: Lio.Tpg, w: World) {
    && (forall p: nat, n: nat :: (p, n) in w.stores <==> AdminLunName(p, n) in t.stores)
    && (forall u :: u in w.mapped <==> IsMapped(t, AdminIqn(prefix, u)))
  }

  /** The call to the target that raises; `inner` is one after the backstore. */
  function TargetFault(fault: StartFault, inner: Lio.LunFault): Option<Lio.LunFault> {
    if fault.StoreFails? then Some(Lio.StoreFails) else if fault.MappingFails? then Some(inner) else None
  }

  lemma NamesDiffer(prefix: bytes, p: nat, n: nat, u: bytes)
    ensures forall q: nat, m: nat :: AdminLunName(q, m) == AdminLunName(p, n) ==> (q, m) == (p, n)
    ensures forall v :: AdminIqn(prefix, v) == AdminIqn(prefix, u) ==> v == u
  {
    forall q: nat, m: nat | AdminLunName(q, m) == AdminLunName(p, n) ensures (q, m) == (p, n) {
      AdminNamesAreInjective(q, m, p, n);
    }
    forall v | AdminIqn(prefix, v) == AdminIqn(prefix, u) ensures v == u {
      CancelPrefix(prefix + ADMIN_UI_TAG, v, u);
    }
  }

  /** Registering an admin session refuses and leaves behind what registering its LUN does. */
  lemma RegisterAgrees(prefix: bytes, t: Lio.Tpg, w: World, p: nat, n: nat, username: bytes, fault: StartFault,
                       inner: Lio.LunFault, dev: Lio.Dev, number: nat)
    requires Abstracts(prefix, t, w) && !inner.StoreFails?
    ensures var (after, ok) := RegisterAdmin(w, p, n, username, fault);
      var (u, lun) := Lio.Register(t, AdminIqn(prefix, username), AdminLunName(p, n), dev, number, TargetFault(fault, inner));
      Abstracts(prefix, u, after) && (ok <==> lun.Some? && !fault.RowFails?)
  {
    var name, iqn := AdminLunName(p, n), AdminIqn(prefix, username);
    NamesDiffer(prefix, p, n, username);
    Lio.RegisterFailsIff(t, iqn, name, dev, number, TargetFault(fault, inner));
  }

  /** Removing it takes its own backstore and mapping and no other. */
  lemma RemoveAgrees(prefix: bytes, t: Lio.Tpg, w: World, p: nat, n: nat, username: bytes)
    requires Abstracts(prefix, t, w) && t.Valid() && Lio.OneToOne(t)
    requires Lio.Sees(t, AdminIqn(prefix, username)) == Some(AdminLunName(p, n))
    ensures Abstracts(prefix, Lio.Remove(t, AdminIqn(prefix, username), AdminLunName(p, n)),
              w.(stores := w.stores - {(p, n)}, mapped := w.mapped - {username}))
  {
    NamesDiffer(prefix, p, n, username);
    var u := Lio.Remove(t, AdminIqn(prefix, username), AdminLunName(p, n));
    forall v ensures v in w.mapped && v != username <==> IsMapped(u, AdminIqn(prefix, v)) {
      OthersStayMapped(t, AdminIqn(prefix, username), AdminLunName(p, n), AdminIqn(prefix, v));
    }
  }

  lemma OthersStayMapped(t: Lio.Tpg, iqn: bytes, name: bytes, other: bytes)
    requires t.Valid() && Lio.OneToOne(t) && Lio.Sees(t, iqn) == Some(name)
    ensures IsMapped(Lio.Remove(t, iqn, name), other) <==> IsMapped(t, other) && other != iqn
  {
    if other != iqn && IsMapped(t, other) { assert t.acls[other] != t.acls[iqn]; }
  }
}
