/** The address pool of dhcp_standalone.py: three tables kept in step, two timers per lease.
    A clock reading is a parameter; readings within one operation need not be equal. */
module Leases {
  import opened Bytes

  type Mac = bytes
  type Ip = bytes

  datatype Pool = Pool(
    addresses: seq<Ip>, leaseSeconds: real, offerTimeout: real,
    macToIp: map<Mac, Ip>, ipToMac: map<Ip, Mac>, expiresAt: map<Mac, real>)
  {
    /** The two address tables are mutual inverses, share their clients with the expiry table and
        stay inside the pool. */
    ghost predicate Valid() {
      && Distinct(addresses)
      && macToIp.Keys == expiresAt.Keys
      && (forall m :: m in macToIp ==> macToIp[m] in ipToMac && ipToMac[macToIp[m]] == m)
      && (forall ip :: ip in ipToMac ==> ip in addresses && ipToMac[ip] in macToIp && macToIp[ipToMac[ip]] == ip)
    }
  }

  ghost predicate Distinct<T>(s: seq<T>) { forall i, j :: 0 <= i < j < |s| ==> s[i] != s[j] }

  function Empty(addresses: seq<Ip>, leaseSeconds: real, offerTimeout: real): Pool {
    Pool(addresses, leaseSeconds, offerTimeout, map[], map[], map[])
  }

  // ---------- the operations, on values ----------

  /** The pool with the leases of `macs` struck out. */
  function Forget(p: Pool, macs: set<Mac>): Pool {
    p.(macToIp := p.macToIp - macs,
       ipToMac := map ip | ip in p.ipToMac && p.ipToMac[ip] !in macs :: p.ipToMac[ip],
       expiresAt := p.expiresAt - macs)
  }

  function Expired(p: Pool, now: real): set<Mac> { set m | m in p.expiresAt && p.expiresAt[m] <= now }

  function Reclaim(p: Pool, now: real): Pool { Forget(p, Expired(p, now)) }

  function FirstFree(addresses: seq<Ip>, taken: set<Ip>): Option<Ip> {
    if |addresses| == 0 then None
    else if addresses[0] !in taken then Some(addresses[0])
    else FirstFree(addresses[1..], taken)
  }

  function Lend(p: Pool, mac: Mac, ip: Ip, until: real): Pool {
    p.(macToIp := p.macToIp[mac := ip], ipToMac := p.ipToMac[ip := mac], expiresAt := p.expiresAt[mac := until])
  }

  /** `offer`: None is PoolExhaustedError. `t1` is the reading of the reclaim, `t2` of the new expiry. */
  function Offer(p: Pool, mac: Mac, t1: real, t2: real): (Pool, Option<Ip>) {
    var q := Reclaim(p, t1);
    if mac in q.macToIp then (q.(expiresAt := q.expiresAt[mac := t2 + q.offerTimeout]), Some(q.macToIp[mac]))
    else match FirstFree(q.addresses, q.ipToMac.Keys)
      case None => (q, None)
      case Some(ip) => (Lend(q, mac, ip, t2 + q.offerTimeout), Some(ip))
  }

  /** `commit`: a client without an address is first offered one, with the readings `t1` and `t2`. */
  function Commit(p: Pool, mac: Mac, t1: real, t2: real, t3: real): (Pool, Option<Ip>) {
    var (q, ip) := if mac in p.macToIp then (p, Some(p.macToIp[mac])) else Offer(p, mac, t1, t2);
    if ip.None? then (q, None) else (q.(expiresAt := q.expiresAt[mac := t3 + q.leaseSeconds]), ip)
  }

  // ---------- the object ----------

  class LeasePool {
    const addresses: seq<Ip>
    const leaseSeconds: real
    const offerTimeout: real
    var macToIp: map<Mac, Ip>
    var ipToMac: map<Ip, Mac>
    var expiresAt: map<Mac, real>

    function View(): Pool
      reads this
    {
      Pool(addresses, leaseSeconds, offerTimeout, macToIp, ipToMac, expiresAt)
    }

    constructor (addresses: seq<Ip>, leaseSeconds: real, offerTimeout: real)
      ensures View() == Empty(addresses, leaseSeconds, offerTimeout)
    {
      this.addresses, this.leaseSeconds, this.offerTimeout := addresses, leaseSeconds, offerTimeout;
      macToIp, ipToMac, expiresAt := map[], map[], map[];
    }

    method ReleaseLease(mac: Mac)
      requires View().Valid()
      modifies this
      ensures View() == Forget(old(View()), {mac}) && View().Valid()
    {
      ForgetValid(View(), {mac});
      PopIsForget(View(), mac);
      if mac in macToIp {
        var ip := macToIp[mac];
        macToIp := macToIp - {mac};
        ipToMac := ipToMac - {ip};
      }
      expiresAt := expiresAt - {mac};
    }

    method ReclaimExpired(now: real)
      requires View().Valid()
      modifies this
      ensures View() == Reclaim(old(View()), now) && View().Valid()
    {
      ghost var p, done := View(), {};
      var expired := set m | m in expiresAt && expiresAt[m] <= now;
      ForgetNone(p);
      while expired != {}
        invariant View().Valid() && View() == Forget(p, done) && done + expired == Expired(p, now)
      {
        var mac :| mac in expired;
        ForgetMore(p, done, mac);
        ReleaseLease(mac);
        done, expired := done + {mac}, expired - {mac};
      }
      assert done == Expired(p, now);
    }

    method OfferLease(mac: Mac, t1: real, t2: real) returns (ip: Option<Ip>)
      requires View().Valid()
      modifies this
      ensures (View(), ip) == Offer(old(View()), mac, t1, t2)
    {
      ReclaimExpired(t1);
      ghost var q := View();
      if mac in macToIp {
        expiresAt := expiresAt[mac := t2 + offerTimeout];
        return Some(macToIp[mac]);
      }
      for i := 0 to |addresses|
        invariant View() == q
        invariant forall j :: 0 <= j < i ==> addresses[j] in ipToMac
      {
        if addresses[i] !in ipToMac {
          FirstFreeAt(addresses, ipToMac.Keys, i);
          macToIp := macToIp[mac := addresses[i]];
          ipToMac := ipToMac[addresses[i] := mac];
          expiresAt := expiresAt[mac := t2 + offerTimeout];
          return Some(addresses[i]);
        }
      }
      FirstFreeAt(addresses, ipToMac.Keys, |addresses|);
      ip := None;
    }

    method CommitLease(mac: Mac, t1: real, t2: real, t3: real) returns (ip: Option<Ip>)
      requires View().Valid()
      modifies this
      ensures (View(), ip) == Commit(old(View()), mac, t1, t2, t3)
    {
      if mac in macToIp {
        ip := Some(macToIp[mac]);
      } else {
        ip := OfferLease(mac, t1, t2);
      }
      if ip.Some? {
        expiresAt := expiresAt[mac := t3 + leaseSeconds];
      }
    }
  }

  // ---------- what the operations mean ----------

  lemma ForgetNone(p: Pool)
    ensures Forget(p, {}) == p
  {
    assert p.macToIp - {} == p.macToIp && Forget(p, {}).ipToMac == p.ipToMac && p.expiresAt - {} == p.expiresAt;
  }

  lemma PopIsForget(p: Pool, mac: Mac)
    requires p.Valid()
    ensures Forget(p, {mac}).ipToMac == if mac in p.macToIp then p.ipToMac - {p.macToIp[mac]} else p.ipToMac
  {
  }

  lemma ForgetMore(p: Pool, macs: set<Mac>, mac: Mac)
    ensures Forget(Forget(p, macs), {mac}) == Forget(p, macs + {mac})
  {
    var q, r := Forget(Forget(p, macs), {mac}), Forget(p, macs + {mac});
    assert q.macToIp == r.macToIp && q.ipToMac == r.ipToMac && q.expiresAt == r.expiresAt;
  }

  lemma ForgetValid(p: Pool, macs: set<Mac>)
    requires p.Valid()
    ensures Forget(p, macs).Valid()
    ensures forall ip :: ip in Forget(p, macs).ipToMac <==> ip in p.ipToMac && p.ipToMac[ip] !in macs
  {
  }

  /** Reclaiming keeps exactly the leases that expire after `now`, unchanged. */
  lemma ReclaimKeepsTheLiving(p: Pool, now: real)
    requires p.Valid()
    ensures Reclaim(p, now).Valid()
    ensures forall m :: m in Reclaim(p, now).macToIp <==> m in p.macToIp && p.expiresAt[m] > now
    ensures forall m :: m in Reclaim(p, now).macToIp ==>
              Reclaim(p, now).macToIp[m] == p.macToIp[m] && Reclaim(p, now).expiresAt[m] == p.expiresAt[m]
  {
    ForgetValid(p, Expired(p, now));
  }

  lemma {:induction false} FirstFreeAt(addresses: seq<Ip>, taken: set<Ip>, i: nat)
    requires i <= |addresses| && forall j :: 0 <= j < i ==> addresses[j] in taken
    requires i < |addresses| ==> addresses[i] !in taken
    ensures FirstFree(addresses, taken) == if i < |addresses| then Some(addresses[i]) else None
  {
    if i > 0 { FirstFreeAt(addresses[1..], taken, i - 1); }
  }

  /** First fit: the address of the lowest index that is free, or none if all are taken. */
  lemma {:induction false} FirstFreeIsLowest(addresses: seq<Ip>, taken: set<Ip>)
    ensures match FirstFree(addresses, taken)
            case None => forall ip :: ip in addresses ==> ip in taken
            case Some(ip) => exists i :: 0 <= i < |addresses| && addresses[i] == ip && ip !in taken
                                         && forall j :: 0 <= j < i ==> addresses[j] in taken
  {
    if |addresses| > 0 && addresses[0] in taken {
      FirstFreeIsLowest(addresses[1..], taken);
      if FirstFree(addresses, taken).Some? {
        var i :| 0 <= i < |addresses| - 1 && addresses[1..][i] == FirstFree(addresses, taken).value
                 && forall j :: 0 <= j < i ==> addresses[1..][j] in taken;
        assert forall j :: 0 < j < i + 1 ==> addresses[j] == addresses[1..][j - 1];
        assert addresses[i + 1] == FirstFree(addresses, taken).value;
      }
    }
  }

  lemma OfferSettings(p: Pool, mac: Mac, t1: real, t2: real)
    ensures var q := Offer(p, mac, t1, t2).0;
      q.addresses == p.addresses && q.leaseSeconds == p.leaseSeconds && q.offerTimeout == p.offerTimeout
  {
  }

  lemma CommitSettings(p: Pool, mac: Mac, t1: real, t2: real, t3: real)
    ensures var q := Commit(p, mac, t1, t2, t3).0;
      q.addresses == p.addresses && q.leaseSeconds == p.leaseSeconds && q.offerTimeout == p.offerTimeout
  {
    OfferSettings(p, mac, t1, t2);
  }

  lemma RenewValid(p: Pool, mac: Mac, until: real)
    requires p.Valid() && mac in p.macToIp
    ensures p.(expiresAt := p.expiresAt[mac := until]).Valid()
  {
    assert p.expiresAt[mac := until].Keys == p.expiresAt.Keys;
  }

  lemma LendValid(p: Pool, mac: Mac, ip: Ip, until: real)
    requires p.Valid() && mac !in p.macToIp && ip !in p.ipToMac && ip in p.addresses
    ensures Lend(p, mac, ip, until).Valid()
  {
  }

  lemma OfferValid(p: Pool, mac: Mac, t1: real, t2: real)
    requires p.Valid()
    ensures Offer(p, mac, t1, t2).0.Valid()
    ensures Offer(p, mac, t1, t2).1.Some? ==>
              mac in Offer(p, mac, t1, t2).0.macToIp && Offer(p, mac, t1, t2).0.macToIp[mac] == Offer(p, mac, t1, t2).1.value
              && Offer(p, mac, t1, t2).1.value in p.addresses
  {
    ReclaimKeepsTheLiving(p, t1);
    var q := Reclaim(p, t1);
    FirstFreeIsLowest(q.addresses, q.ipToMac.Keys);
    var free := FirstFree(q.addresses, q.ipToMac.Keys);
    if mac in q.macToIp {
      RenewValid(q, mac, t2 + q.offerTimeout);
    } else if free.Some? {
      LendValid(q, mac, free.value, t2 + q.offerTimeout);
    }
  }

  lemma CommitValid(p: Pool, mac: Mac, t1: real, t2: real, t3: real)
    requires p.Valid()
    ensures Commit(p, mac, t1, t2, t3).0.Valid()
    ensures Commit(p, mac, t1, t2, t3).1.Some? ==>
              var (q, ip) := Commit(p, mac, t1, t2, t3);
              mac in q.macToIp && q.macToIp[mac] == ip.value && q.expiresAt[mac] == t3 + q.leaseSeconds
              && ip.value in p.addresses
  {
    if mac !in p.macToIp {
      OfferValid(p, mac, t1, t2);
    }
    var (q, ip) := if mac in p.macToIp then (p, Some(p.macToIp[mac])) else Offer(p, mac, t1, t2);
    if ip.Some? {
      RenewValid(q, mac, t3 + q.leaseSeconds);
    }
  }

  /** A new client is offered the lowest free address; a known one keeps its own; either has it for the
      offer timeout. */
  lemma OfferIsFirstFit(p: Pool, mac: Mac, t1: real, t2: real)
    requires p.Valid() && Offer(p, mac, t1, t2).1.Some?
    ensures var q := Offer(p, mac, t1, t2).0; mac in q.expiresAt && q.expiresAt[mac] == t2 + p.offerTimeout
    ensures var ip := Offer(p, mac, t1, t2).1.value;
      if mac in p.macToIp && p.expiresAt[mac] > t1 then ip == p.macToIp[mac]
      else exists i :: 0 <= i < |p.addresses| && p.addresses[i] == ip && Free(p, ip, t1)
                       && forall j :: 0 <= j < i ==> !Free(p, p.addresses[j], t1)
  {
    ReclaimKeepsTheLiving(p, t1);
    ForgetValid(p, Expired(p, t1));
    var q := Reclaim(p, t1);
    FirstFreeIsLowest(q.addresses, q.ipToMac.Keys);
    assert forall ip :: ip in q.ipToMac <==> !Free(p, ip, t1);
  }

  ghost predicate Free(p: Pool, ip: Ip, now: real) {
    ip in p.ipToMac ==> p.ipToMac[ip] in p.expiresAt && p.expiresAt[p.ipToMac[ip]] <= now
  }

  lemma {:induction false} DistinctLength<T>(s: seq<T>)
    requires Distinct(s)
    ensures |(set x | x in s)| == |s|
  {
    if |s| > 0 {
      var init := s[..|s| - 1];
      DistinctLength(init);
      assert (set x | x in s) == (set x | x in init) + {s[|s| - 1]};
      assert s[|s| - 1] !in init;
    }
  }

  lemma InverseSizes(p: Pool)
    requires p.Valid()
    ensures |p.macToIp| == |p.ipToMac|
  {
    InjectiveSize(p.macToIp.Keys, p.ipToMac.Keys, p.macToIp);
    InjectiveSize(p.ipToMac.Keys, p.macToIp.Keys, p.ipToMac);
  }

  lemma {:induction false} InjectiveSize<X, Y>(a: set<X>, b: set<Y>, f: map<X, Y>)
    requires a <= f.Keys && (forall x :: x in a ==> f[x] in b)
    requires forall x, y :: x in a && y in a && x != y ==> f[x] != f[y]
    ensures |a| <= |b|
    decreases a
  {
    if x :| x in a {
      InjectiveSize(a - {x}, b - {f[x]}, f);
    }
  }

  function Live(p: Pool, now: real): set<Mac> { set m | m in p.expiresAt && p.expiresAt[m] > now }

  /** PoolExhaustedError is raised exactly when a client without a live lease asks while the live
      leases are as many as the addresses. */
  lemma ExhaustedIff(p: Pool, mac: Mac, t1: real, t2: real)
    requires p.Valid()
    ensures Offer(p, mac, t1, t2).1.None? <==> mac !in Live(p, t1) && |Live(p, t1)| == |p.addresses|
  {
    ReclaimKeepsTheLiving(p, t1);
    var q := Reclaim(p, t1);
    assert Live(p, t1) == q.macToIp.Keys;
    InverseSizes(q);
    FirstFreeIsLowest(q.addresses, q.ipToMac.Keys);
    AllTakenIff(q.addresses, q.ipToMac.Keys);
  }

  lemma AllTakenIff(addresses: seq<Ip>, taken: set<Ip>)
    requires Distinct(addresses) && forall ip :: ip in taken ==> ip in addresses
    ensures (forall ip :: ip in addresses ==> ip in taken) <==> |taken| == |addresses|
  {
    var all := set ip | ip in addresses;
    DistinctLength(addresses);
    assert taken <= all;
    assert |all - taken| == |all| - |taken|;
    if ip :| ip in addresses && ip !in taken {
      assert ip in all - taken;
    } else {
      assert all == taken;
    }
  }

  // ---------- runs ----------

  datatype Op =
    | DoOffer(mac: Mac, t1: real, t2: real)
    | DoCommit(mac: Mac, t1: real, t2: real, t3: real)
    | DoRelease(mac: Mac)

  function Step(p: Pool, op: Op): (Pool, Option<Ip>) {
    match op
    case DoOffer(mac, t1, t2) => Offer(p, mac, t1, t2)
    case DoCommit(mac, t1, t2, t3) => Commit(p, mac, t1, t2, t3)
    case DoRelease(mac) => (Forget(p, {mac}), None)
  }

  lemma StepValid(p: Pool, op: Op)
    requires p.Valid()
    ensures Step(p, op).0.Valid()
  {
    match op
    case DoOffer(mac, t1, t2) => OfferValid(p, mac, t1, t2);
    case DoCommit(mac, t1, t2, t3) => CommitValid(p, mac, t1, t2, t3);
    case DoRelease(mac) => ForgetValid(p, {mac});
  }

  function After(p: Pool, ops: seq<Op>): Pool
    decreases |ops|
  {
    if |ops| == 0 then p else After(Step(p, ops[0]).0, ops[1..])
  }

  /** The addresses handed out by a run, each with the client it went to. */
  function Handed(p: Pool, ops: seq<Op>): seq<(Mac, Ip)>
    decreases |ops|
  {
    if |ops| == 0 then []
    else
      var (q, ip) := Step(p, ops[0]);
      (if ip.Some? then [(ops[0].mac, ip.value)] else []) + Handed(q, ops[1..])
  }

  /** No reading of the clock in this operation has reached `limit`. */
  predicate Before(op: Op, limit: real) {
    match op
    case DoOffer(_, t1, t2) => t1 < limit && t2 < limit
    case DoCommit(_, t1, t2, t3) => t1 < limit && t2 < limit && t3 < limit
    case DoRelease(_) => true
  }

  /** The operations of other clients; a client's own commits are harmless too. */
  predicate LeavesAlone(op: Op, mac: Mac) { op.mac == mac ==> op.DoCommit? }

  /** A released client has no lease and its address is free; every other lease is as it was. */
  lemma ReleaseIs(p: Pool, mac: Mac, now: real)
    requires p.Valid()
    ensures var q := Forget(p, {mac});
      && q.Valid() && mac !in q.macToIp && mac !in q.expiresAt
      && (mac in p.macToIp ==> Free(q, p.macToIp[mac], now))
      && (forall m :: m != mac ==> (m in q.macToIp <==> m in p.macToIp))
      && (forall m :: m != mac && m in p.macToIp ==> q.macToIp[m] == p.macToIp[m] && q.expiresAt[m] == p.expiresAt[m])
  {
    ForgetValid(p, {mac});
  }

  lemma ReleaseProtects(p: Pool, other: Mac, mac: Mac)
    requires p.Valid() && other != mac && mac in p.macToIp
    ensures var q := Forget(p, {other});
      mac in q.macToIp && q.macToIp[mac] == p.macToIp[mac] && mac in q.expiresAt && q.expiresAt[mac] == p.expiresAt[mac]
  {
  }

  lemma ProtectedByStep(p: Pool, op: Op, mac: Mac, limit: real)
    requires p.Valid() && mac in p.macToIp && p.expiresAt[mac] >= limit
    requires Before(op, limit) && LeavesAlone(op, mac)
    requires op.DoCommit? && op.mac == mac ==> op.t3 + p.leaseSeconds >= limit
    ensures var (q, ip) := Step(p, op);
      && q.Valid() && mac in q.macToIp && q.macToIp[mac] == p.macToIp[mac] && q.expiresAt[mac] >= limit
      && (op.mac != mac && ip.Some? ==> ip.value != p.macToIp[mac])
      && q.leaseSeconds == p.leaseSeconds && q.offerTimeout == p.offerTimeout && q.addresses == p.addresses
  {
    StepValid(p, op);
    match op
    case DoOffer(other, t1, t2) => OfferProtects(p, other, t1, t2, mac); OfferSettings(p, other, t1, t2);
    case DoCommit(other, t1, t2, t3) => CommitProtects(p, other, t1, t2, t3, mac); CommitSettings(p, other, t1, t2, t3);
    case DoRelease(other) => ReleaseProtects(p, other, mac);
  }

  lemma OfferProtects(p: Pool, other: Mac, t1: real, t2: real, mac: Mac)
    requires p.Valid() && other != mac && mac in p.macToIp && p.expiresAt[mac] > t1
    ensures var (q, ip) := Offer(p, other, t1, t2);
      && mac in q.macToIp && q.macToIp[mac] == p.macToIp[mac] && q.expiresAt[mac] == p.expiresAt[mac]
      && (ip.Some? ==> ip.value != p.macToIp[mac])
  {
    ReclaimKeepsTheLiving(p, t1);
    var q := Reclaim(p, t1);
    FirstFreeIsLowest(q.addresses, q.ipToMac.Keys);
  }

  lemma CommitProtects(p: Pool, other: Mac, t1: real, t2: real, t3: real, mac: Mac)
    requires p.Valid() && mac in p.macToIp && (other != mac ==> p.expiresAt[mac] > t1)
    ensures var (q, ip) := Commit(p, other, t1, t2, t3);
      && mac in q.macToIp && q.macToIp[mac] == p.macToIp[mac] && mac in q.expiresAt
      && q.expiresAt[mac] == (if other == mac then t3 + p.leaseSeconds else p.expiresAt[mac])
      && (other != mac && ip.Some? ==> ip.value != p.macToIp[mac])
  {
    if other != mac {
      if other in p.macToIp {
        assert p.ipToMac[p.macToIp[other]] == other;
      } else {
        OfferProtects(p, other, t1, t2, mac);
      }
    }
  }

  /** Until a lease expires its address goes to nobody else, whatever the other clients do, provided
      its own client asks for no new offer and does not release it. */
  lemma {:induction false} LeaseIsProtected(p: Pool, ops: seq<Op>, mac: Mac, limit: real)
    requires p.Valid() && p.leaseSeconds >= 0.0 && mac in p.macToIp && p.expiresAt[mac] >= limit
    requires forall op :: op in ops ==> Before(op, limit) && LeavesAlone(op, mac)
    requires forall op :: op in ops && op.DoCommit? && op.mac == mac ==> op.t3 + p.leaseSeconds >= limit
    ensures forall h :: h in Handed(p, ops) && h.0 != mac ==> h.1 != p.macToIp[mac]
    ensures mac in After(p, ops).macToIp && After(p, ops).macToIp[mac] == p.macToIp[mac]
    decreases |ops|
  {
    if |ops| > 0 {
      ProtectedByStep(p, ops[0], mac, limit);
      LeaseIsProtected(Step(p, ops[0]).0, ops[1..], mac, limit);
    }
  }

  // ---------- what a repeated offer does to a lease ----------

  /** Operations of clients other than `mac`, all at clock readings from `from` on and before `until`,
      no reading earlier than one before it. */
  predicate OthersBetween(ops: seq<Op>, mac: Mac, from: real, until: real)
    decreases |ops|
  {
    |ops| == 0 || (ops[0].mac != mac
      && match ops[0]
         case DoOffer(_, t1, t2) => from <= t1 <= t2 < until && OthersBetween(ops[1..], mac, t2, until)
         case DoCommit(_, t1, t2, t3) => from <= t1 <= t2 <= t3 < until && OthersBetween(ops[1..], mac, t3, until)
         case DoRelease(_) => OthersBetween(ops[1..], mac, from, until))
  }

  /** Some run of the other clients before `until` is handed the address `ip`. */
  ghost predicate CanLose(p: Pool, mac: Mac, ip: Ip, from: real, until: real) {
    exists ops :: OthersBetween(ops, mac, from, until) && HandsOut(p, ops, ip)
  }

  predicate HandsOut(p: Pool, ops: seq<Op>, ip: Ip) { exists h :: h in Handed(p, ops) && h.1 == ip }

  lemma {:induction false} OthersLeaveAlone(ops: seq<Op>, mac: Mac, from: real, until: real)
    requires OthersBetween(ops, mac, from, until)
    ensures forall op :: op in ops ==> op.mac != mac && Before(op, until)
    decreases |ops|
  {
    if |ops| > 0 {
      var next := match ops[0] case DoOffer(_, _, t2) => t2 case DoCommit(_, _, _, t3) => t3 case DoRelease(_) => from;
      OthersLeaveAlone(ops[1..], mac, next, until);
    }
  }

  lemma {:induction false} HandedAreOthers(p: Pool, ops: seq<Op>, mac: Mac)
    requires forall op :: op in ops ==> op.mac != mac
    ensures forall h :: h in Handed(p, ops) ==> h.0 != mac
    decreases |ops|
  {
    if |ops| > 0 { HandedAreOthers(Step(p, ops[0]).0, ops[1..], mac); }
  }

  /** The addresses not held by a live lease. */
  function FreeSet(p: Pool, now: real): set<Ip> { (set ip | ip in p.addresses) - Reclaim(p, now).ipToMac.Keys }

  lemma HandedCons(p: Pool, op: Op, ops: seq<Op>)
    ensures Handed(p, [op] + ops)
         == (if Step(p, op).1.Some? then [(op.mac, Step(p, op).1.value)] else []) + Handed(Step(p, op).0, ops)
  {
    assert ([op] + ops)[1..] == ops;
  }

  /** One new client at a time takes the free addresses in order, so it gets to each of them. */
  lemma {:induction false} NewClientsTakeAll(p: Pool, mac: Mac, ip: Ip, now: real, until: real) returns (ops: seq<Op>)
    requires p.Valid() && p.offerTimeout > 0.0 && ip in FreeSet(p, now) && now < until
    ensures OthersBetween(ops, mac, now, until) && HandsOut(p, ops, ip)
    decreases |FreeSet(p, now)|
  {
    var c := NewText(p.macToIp.Keys + {mac});
    var op := DoOffer(c, now, now);
    var (q, given) := Step(p, op);
    NewClientIsServed(p, c, ip, now);
    OneLess(FreeSet(p, now), given.value);
    if given.value == ip {
      ops := [op];
      HandedCons(p, op, []);
      assert (c, ip) in Handed(p, ops);
    } else {
      var rest := NewClientsTakeAll(q, mac, ip, now, until);
      ops := [op] + rest;
      assert ops[1..] == rest;
      HandedCons(p, op, rest);
      var h :| h in Handed(q, rest) && h.1 == ip;
      assert h in Handed(p, ops);
    }
  }

  lemma FirstFreeExists(addresses: seq<Ip>, taken: set<Ip>, ip: Ip)
    requires ip in addresses && ip !in taken
    ensures var free := FirstFree(addresses, taken); free.Some? && free.value in addresses && free.value !in taken
  {
    FirstFreeIsLowest(addresses, taken);
  }

  lemma OfferToNewClient(p: Pool, c: Mac, now: real, free: Ip)
    requires c !in p.macToIp && free in FreeSet(p, now)
    ensures var given := Offer(p, c, now, now).1;
      && given.Some? && given.value in FreeSet(p, now)
      && Offer(p, c, now, now).0 == Lend(Reclaim(p, now), c, given.value, now + p.offerTimeout)
  {
    var r := Reclaim(p, now);
    assert c !in r.macToIp && r.addresses == p.addresses;
    FirstFreeExists(r.addresses, r.ipToMac.Keys, free);
  }

  lemma NewClientIsServed(p: Pool, c: Mac, ip: Ip, now: real)
    requires p.Valid() && p.offerTimeout > 0.0 && c !in p.macToIp && ip in FreeSet(p, now)
    ensures var (q, given) := Offer(p, c, now, now);
      && q.Valid() && q.offerTimeout == p.offerTimeout && given.Some?
      && given.value in FreeSet(p, now) && FreeSet(q, now) == FreeSet(p, now) - {given.value}
  {
    OfferValid(p, c, now, now);
    OfferSettings(p, c, now, now);
    OfferToNewClient(p, c, now, ip);
    NothingExpiredStays(p, now);
    FreeAfterLend(p, c, Offer(p, c, now, now).1.value, now, now + p.offerTimeout);
  }

  lemma FreeAfterLend(p: Pool, c: Mac, ip: Ip, now: real, until: real)
    requires Expired(Reclaim(p, now), now) == {} && now < until && ip in FreeSet(p, now)
    ensures var q := Lend(Reclaim(p, now), c, ip, until);
      FreeSet(q, now) == FreeSet(p, now) - {ip}
  {
    var r := Reclaim(p, now);
    var q := Lend(r, c, ip, until);
    LendKeepsLiving(r, c, ip, now, until);
    assert q.ipToMac.Keys == r.ipToMac.Keys + {ip} && q.addresses == p.addresses;
  }

  lemma OneLess<T>(s: set<T>, x: T)
    requires x in s
    ensures |s - {x}| < |s|
  {
  }

  lemma NothingExpiredStays(p: Pool, now: real)
    ensures Expired(Reclaim(p, now), now) == {}
  {
  }

  lemma LendKeepsLiving(r: Pool, c: Mac, ip: Ip, now: real, until: real)
    requires Expired(r, now) == {} && now < until
    ensures Reclaim(Lend(r, c, ip, until), now) == Lend(r, c, ip, until)
  {
    assert Expired(Lend(r, c, ip, until), now) == {};
    ForgetNone(Lend(r, c, ip, until));
  }

  /** What a repeated offer costs: of a live lease, the rest beyond the offer timeout. Before the old
      expiry the address can go to somebody else if and only if more than the offer timeout was left. */
  lemma OfferShortensIff(p: Pool, mac: Mac, t1: real, t2: real)
    requires p.Valid() && p.leaseSeconds >= 0.0 && p.offerTimeout > 0.0 && mac in p.macToIp && p.expiresAt[mac] > t1
    ensures var (q, ip) := Offer(p, mac, t1, t2);
      && ip == Some(p.macToIp[mac])
      && (q.expiresAt[mac] < p.expiresAt[mac] <==> p.expiresAt[mac] > t2 + p.offerTimeout)
      && (CanLose(q, mac, p.macToIp[mac], t2, p.expiresAt[mac]) <==> p.expiresAt[mac] > t2 + p.offerTimeout)
  {
    ReclaimKeepsTheLiving(p, t1);
    OfferValid(p, mac, t1, t2);
    var q, ip, until, now := Offer(p, mac, t1, t2).0, p.macToIp[mac], p.expiresAt[mac], t2 + p.offerTimeout;
    assert q.macToIp[mac] == ip && q.expiresAt[mac] == now;
    if until > now {
      ReclaimKeepsTheLiving(q, now);
      assert ip in FreeSet(q, now);
      var ops := NewClientsTakeAll(q, mac, ip, now, until);
      StartEarlier(ops, mac, t2, now, until);
    } else {
      forall ops | OthersBetween(ops, mac, t2, until) ensures !HandsOut(q, ops, ip) {
        OthersLeaveAlone(ops, mac, t2, until);
        LeaseIsProtected(q, ops, mac, until);
        HandedAreOthers(q, ops, mac);
      }
    }
  }

  lemma {:induction false} StartEarlier(ops: seq<Op>, mac: Mac, early: real, from: real, until: real)
    requires early <= from && OthersBetween(ops, mac, from, until)
    ensures OthersBetween(ops, mac, early, until)
    decreases |ops|
  {
    if |ops| > 0 && ops[0].DoRelease? { StartEarlier(ops[1..], mac, early, from, until); }
  }

  /** So the client's own silence is needed for the protection: here an address committed for an hour
      is given to a second client half a minute after its holder asked for another offer. */
  lemma OfferLosesTheLease(a: Mac, b: Mac, ip: Ip)
    requires a != b
    ensures Handed(Empty([ip], 3600.0, 30.0), [DoCommit(a, 0.0, 0.0, 0.0), DoOffer(a, 1.0, 1.0), DoOffer(b, 31.0, 31.0)])
         == [(a, ip), (a, ip), (b, ip)]
  {
    var p0 := Empty([ip], 3600.0, 30.0);
    var o1, o2, o3 := DoCommit(a, 0.0, 0.0, 0.0), DoOffer(a, 1.0, 1.0), DoOffer(b, 31.0, 31.0);
    var p1 := Pool([ip], 3600.0, 30.0, map[a := ip], map[ip := a], map[a := 3600.0]);
    var p2 := p1.(expiresAt := map[a := 31.0]);
    assert Step(p0, o1) == (p1, Some(ip)) by {
      assert Reclaim(p0, 0.0) == p0 by { assert Expired(p0, 0.0) == {}; ForgetNone(p0); }
      assert FirstFree([ip], p0.ipToMac.Keys) == Some(ip);
      assert Offer(p0, a, 0.0, 0.0) == (Lend(p0, a, ip, 30.0), Some(ip));
      assert Lend(p0, a, ip, 30.0).(expiresAt := map[a := 30.0][a := 3600.0]) == p1;
    }
    assert Step(p1, o2) == (p2, Some(ip)) by {
      assert Reclaim(p1, 1.0) == p1 by { assert Expired(p1, 1.0) == {}; ForgetNone(p1); }
      assert p1.(expiresAt := p1.expiresAt[a := 31.0]) == p2;
    }
    assert Step(p2, o3).1 == Some(ip) by {
      assert Expired(p2, 31.0) == {a};
      assert Reclaim(p2, 31.0) == p0;
      assert FirstFree([ip], p0.ipToMac.Keys) == Some(ip);
    }
    assert Handed(p2, [o3]) == [(b, ip)] by {
      assert [o3][1..] == [] && Handed(Step(p2, o3).0, []) == [];
    }
    assert Handed(p1, [o2, o3]) == [(a, ip)] + Handed(p2, [o3]) by { assert [o2, o3][1..] == [o3]; }
    assert Handed(p0, [o1, o2, o3]) == [(a, ip)] + Handed(p1, [o2, o3]) by { assert [o1, o2, o3][1..] == [o2, o3]; }
  }
}
