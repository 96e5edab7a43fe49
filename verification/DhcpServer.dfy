/** The stand-alone DHCP server of dhcp_standalone.py: the lease pool driven by datagrams, with the
    addresses read off the bytes it sends. */
module DhcpServer {
  import opened Bytes
  import opened DhcpPacket
  import opened Leases

  const LEASE_SECONDS := 3600

  /** A DISCOVER or REQUEST that reached the pool, the clock reading its expiry was set from, and the
      reply with its destination; without one the pool was exhausted or the reply did not encode. */
  datatype Exchange = Exchange(mac: Mac, discover: bool, at: real, reply: Option<(bytes, (bytes, nat))>)

  datatype Server = Server(serverIp: ip4, bootFilename: bytes, pool: Pool, log: seq<Exchange>, clock: real) {
    /** The pool holds dotted IPv4 addresses. */
    ghost predicate Valid() {
      && pool.Valid()
      && pool.leaseSeconds == LEASE_SECONDS as real
      && forall a :: a in pool.addresses ==> IsDotted(a)
    }
  }

  ghost predicate IsDotted(text: bytes) { exists b: ip4 :: text == BytesToIp(b) }

  /** Some datagram arriving from some address; the three readings are the clock's, in order. */
  datatype Event = Event(data: bytes, receivedFrom: (bytes, nat), t1: real, t2: real, t3: real)

  predicate Monotone(clock: real, e: Event) { clock <= e.t1 <= e.t2 <= e.t3 }

  /** The reply for an address, unless the address does not read back as four bytes. */
  function ReplyTo(s: Server, request: Request, messageType: byte, ip: Ip): Option<Reply> {
    var yiaddr := IpToBytes(ip);
    if yiaddr.Some? && |yiaddr.value| == 4 && |request.xid| == 4 && |request.giaddr| == 4 then
      Some(Reply(messageType, request.xid, request.chaddr, yiaddr.value, s.serverIp, s.serverIp, s.bootFilename,
        Some(LEASE_SECONDS), None, None, IsPxeClient(request), request.giaddr))
    else None
  }

  /** What is written to the transport; None if an exception is raised on the way. */
  function Answer(s: Server, receivedFrom: (bytes, nat), request: Request, messageType: byte, ip: Option<Ip>)
    : Option<(bytes, (bytes, nat))>
  {
    if ip.None? then None
    else
      var reply := ReplyTo(s, request, messageType, ip.value);
      if reply.None? || !Encodable(reply.value) then None
      else Some((ReplyPacket(reply.value), ReplyDestination(request, receivedFrom)))
  }

  /** The request in a datagram, if it is one the server acts on, and whether it is a DISCOVER. */
  function Understand(data: bytes): Option<(Request, bool)> {
    var parsed := ParseRequest(data);
    if parsed.None? || parsed.value.messageType !in {Some(MSG_DISCOVER), Some(MSG_REQUEST)} then None
    else Some((parsed.value, parsed.value.messageType == Some(MSG_DISCOVER)))
  }

  function Allocate(p: Pool, mac: Mac, discover: bool, e: Event): (Pool, Option<Ip>) {
    if discover then Offer(p, mac, e.t1, e.t2) else Commit(p, mac, e.t1, e.t2, e.t3)
  }

  function Handle(s: Server, e: Event): Server {
    var understood := Understand(e.data);
    if understood.None? then s.(clock := e.t3)
    else
      var (request, discover) := understood.value;
      var (pool, ip) := Allocate(s.pool, request.clientMac, discover, e);
      var answer := Answer(s, e.receivedFrom, request, if discover then MSG_OFFER else MSG_ACK, ip);
      s.(pool := pool, clock := e.t3,
         log := s.log + [Exchange(request.clientMac, discover, if discover then e.t2 else e.t3, answer)])
  }

  lemma AllocateValid(p: Pool, mac: Mac, discover: bool, e: Event)
    requires p.Valid()
    ensures var (q, ip) := Allocate(p, mac, discover, e);
      && q.Valid() && q.addresses == p.addresses && q.leaseSeconds == p.leaseSeconds
      && (ip.Some? ==> mac in q.macToIp && q.macToIp[mac] == ip.value && ip.value in q.addresses)
      && (ip.Some? && !discover ==> q.expiresAt[mac] == e.t3 + q.leaseSeconds)
  {
    if discover {
      OfferSettings(p, mac, e.t1, e.t2);
      OfferValid(p, mac, e.t1, e.t2);
    } else {
      CommitSettings(p, mac, e.t1, e.t2, e.t3);
      CommitValid(p, mac, e.t1, e.t2, e.t3);
    }
  }

  lemma HandleValid(s: Server, e: Event)
    requires s.Valid()
    ensures Handle(s, e).Valid()
  {
    var understood := Understand(e.data);
    if understood.Some? {
      AllocateValid(s.pool, understood.value.0.clientMac, understood.value.1, e);
    }
  }

  lemma DottedAddresses(text: bytes)
    requires IsDotted(text)
    ensures IpToBytes(text).Some? && |IpToBytes(text).value| == 4
    ensures BytesToIp(IpToBytes(text).value) == text
  {
    var b: ip4 :| text == BytesToIp(b);
    IpRoundTrip(b);
  }

  // ---------- the object ----------

  class StandaloneDhcpProtocol {
    const serverIp: ip4
    const bootFilename: bytes
    const leasePool: LeasePool
    var sent: seq<(bytes, (bytes, nat))>
    ghost var log: seq<Exchange>
    ghost var clock: real

    ghost function View(): Server
      reads this, leasePool
    {
      Server(serverIp, bootFilename, leasePool.View(), log, clock)
    }

    constructor (serverIp: ip4, bootFilename: bytes, leasePool: LeasePool)
      ensures this.leasePool == leasePool && sent == []
      ensures View() == Server(serverIp, bootFilename, leasePool.View(), [], 0.0)
    {
      this.serverIp, this.bootFilename, this.leasePool := serverIp, bootFilename, leasePool;
      sent, log, clock := [], [], 0.0;
    }

    method DatagramReceived(data: bytes, addr: (bytes, nat), t1: real, t2: real, t3: real)
      requires View().Valid()
      modifies this, leasePool
      ensures View().Valid() && View() == Handle(old(View()), Event(data, addr, t1, t2, t3))
      ensures sent == old(sent) + Replies(log[|old(log)|..])
    {
      ghost var e := Event(data, addr, t1, t2, t3);
      HandleValid(View(), e);
      clock := t3;
      var understood := Understand(data);
      if understood.None? {
        assert log[|log|..] == [] && sent + [] == sent;
        return;
      }
      var (request, discover) := understood.value;
      var answer := AllocateAndBuild(request, discover, t1, t2, t3, addr);
      Record(request.clientMac, discover, if discover then t2 else t3, answer);
    }

    method AllocateAndBuild(request: Request, discover: bool, t1: real, t2: real, t3: real, addr: (bytes, nat))
      returns (answer: Option<(bytes, (bytes, nat))>)
      requires leasePool.View().Valid()
      modifies leasePool
      ensures (leasePool.View(), answer) ==
        var (pool, ip) := Allocate(old(leasePool.View()), request.clientMac, discover, Event([], addr, t1, t2, t3));
        (pool, Answer(old(View()), addr, request, if discover then MSG_OFFER else MSG_ACK, ip))
    {
      var ip: Option<Ip>;
      if discover {
        ip := leasePool.OfferLease(request.clientMac, t1, t2);
      } else {
        ip := leasePool.CommitLease(request.clientMac, t1, t2, t3);
      }
      if ip.None? {
        return None;
      }
      answer := Build(request, if discover then MSG_OFFER else MSG_ACK, ip.value, addr);
    }

    method Build(request: Request, messageType: byte, ip: Ip, addr: (bytes, nat))
      returns (answer: Option<(bytes, (bytes, nat))>)
      ensures answer == Answer(View(), addr, request, messageType, Some(ip))
    {
      var yiaddr := IpToBytes(ip);
      if yiaddr.None? || |yiaddr.value| != 4 || |request.xid| != 4 || |request.giaddr| != 4 {
        return None;
      }
      var packet := BuildReply(Reply(messageType, request.xid, request.chaddr, yiaddr.value, serverIp, serverIp,
        bootFilename, Some(LEASE_SECONDS), None, None, IsPxeClient(request), request.giaddr));
      answer := if packet.None? then None else Some((packet.value, ReplyDestination(request, addr)));
    }

    method Record(mac: Mac, discover: bool, at: real, answer: Option<(bytes, (bytes, nat))>)
      modifies this`sent, this`log
      ensures log == old(log) + [Exchange(mac, discover, at, answer)]
      ensures sent == old(sent) + Replies(log[|old(log)|..])
    {
      log := log + [Exchange(mac, discover, at, answer)];
      if answer.Some? {
        sent := sent + [answer.value];
      }
      assert log[|old(log)|..] == [Exchange(mac, discover, at, answer)];
      assert Replies([Exchange(mac, discover, at, answer)]) == (if answer.Some? then [answer.value] else []) + Replies([]);
    }
  }

  /** What a stretch of the log put on the wire. */
  function Replies(log: seq<Exchange>): seq<(bytes, (bytes, nat))> {
    if |log| == 0 then []
    else (if log[0].reply.Some? then [log[0].reply.value] else []) + Replies(log[1..])
  }

  // ---------- what a station is answered ----------

  function Yiaddr(packet: bytes): bytes { Slice(packet, 16, 20) }

  /** A reply of the given type to this request, carrying the address the pool gave: read back, it echoes
      the request's transaction, hardware address and relay, and is marked PXE exactly if the request was. */
  ghost predicate Answers(s: Server, e: Event, request: Request, messageType: byte, ip: Ip, reply: (bytes, (bytes, nat))) {
    && ParseRequest(reply.0) == Some(Request(
         Some(messageType), request.xid, request.chaddr, request.clientMac,
         if request.vendorClass == Some(PXE_VENDOR_CLASS) then Some(PXE_VENDOR_CLASS) else None,
         None, request.giaddr, false))
    && |reply.0| >= OPTIONS_START && IpToBytes(ip) == Some(Yiaddr(reply.0)) && reply.0[20..24] == s.serverIp
    && OffersBoot(s, request, ReadOptions(Drop(reply.0, OPTIONS_START), map[]))
    && (forall i :: 0 <= i < 128 ==> reply.0[108 + i] == if i < |s.bootFilename| then s.bootFilename[i] else 0)
    && reply.1 == ReplyDestination(request, e.receivedFrom)
  }

  /** The options a station reads in a reply: an hour's lease from this server, no mask and no router, and for
      a PXE request the server's address as text and the boot file's name. */
  predicate OffersBoot(s: Server, request: Request, options: Option<OptionMap>) {
    && options.Some?
    && var m := options.value;
       && Get(m, 54) == Some(s.serverIp) && Get(m, 1) == None && Get(m, 3) == None
       && 51 in m && FromBigEndian(m[51]) == 3600
       && if request.vendorClass == Some(PXE_VENDOR_CLASS) then
            66 in m && IpToBytes(m[66]) == Some(s.serverIp) && Get(m, 67) == Some(s.bootFilename + [0])
          else Get(m, 66) == None && Get(m, 67) == None
  }

  lemma OffersBootIs(s: Server, request: Request, r: Reply)
    requires Encodable(r) && r.serverId == s.serverIp && r.siaddr == s.serverIp && r.bootFilename == s.bootFilename
    requires r.leaseSeconds == Some(3600) && r.subnetMask == None && r.router == None && r.pxe == IsPxeClient(request)
    ensures OffersBoot(s, request, Some(Meaning(ReplyItems(r), map[])))
  {
    OptionsOfReply(r);
    IpRoundTrip(s.serverIp);
  }

  /** The packet of a reply, read back. */
  lemma PacketSays(r: Reply)
    requires Encodable(r) && |r.chaddr| == 16
    ensures var p := ReplyPacket(r);
      && |p| >= OPTIONS_START && Yiaddr(p) == r.yiaddr && p[20..24] == r.siaddr
      && ReadOptions(Drop(p, OPTIONS_START), map[]) == Some(Meaning(ReplyItems(r), map[]))
  {
    ReplyRoundTrip(r);
    ReplySlices(r);
    assert Slice(ReplyPacket(r), 16, 20) == ReplyPacket(r)[16..20];
  }

  lemma AnswerIs(s: Server, e: Event, request: Request, messageType: byte, ip: Ip)
    requires IsDotted(ip) && |request.xid| == 4 && |request.chaddr| == 16 && |request.giaddr| == 4
    requires request.clientMac == RenderMac(request.chaddr[..6])
    ensures var answer := Answer(s, e.receivedFrom, request, messageType, Some(ip));
      && (answer.Some? <==> (request.vendorClass == Some(PXE_VENDOR_CLASS) ==> |s.bootFilename| <= 254))
      && (answer.Some? ==> Answers(s, e, request, messageType, ip, answer.value))
  {
    DottedAddresses(ip);
    var r := ReplyTo(s, request, messageType, ip).value;
    if Encodable(r) {
      ReplyRoundTrip(r);
      PacketSays(r);
      FileField(r);
      OffersBootIs(s, request, r);
    }
  }

  lemma WholeRequest(data: bytes)
    requires ParseRequest(data).Some? && ParseRequest(data).value.messageType.Some?
    ensures var r := ParseRequest(data).value;
      |r.xid| == 4 && |r.chaddr| == 16 && |r.giaddr| == 4 && r.clientMac == RenderMac(r.chaddr[..6])
  {
    TypedRequestsAreWhole(data);
    assert Slice(data, 28, 44)[..6] == data[28..34];
  }

  /** A DISCOVER (type 1) has the pool offer an address and is answered by an OFFER (type 2); a REQUEST
      (type 3) has it commit one and is answered by an ACK (type 5); nothing else changes anything. The answer
      goes out whenever the pool has an address, unless a PXE boot file name is too long for its option. */
  lemma RequestsAreServed(s: Server, e: Event)
    requires s.Valid()
    ensures var after, parsed := Handle(s, e), ParseRequest(e.data);
      && after.serverIp == s.serverIp && after.bootFilename == s.bootFilename
      && if parsed.Some? && parsed.value.messageType in {Some(1), Some(3)} then
           var request, discover := parsed.value, parsed.value.messageType == Some(1);
           var (pool, ip) := if discover then Offer(s.pool, request.clientMac, e.t1, e.t2)
                             else Commit(s.pool, request.clientMac, e.t1, e.t2, e.t3);
           && after.pool == pool && |after.log| == |s.log| + 1 && after.log[..|s.log|] == s.log
           && var x := after.log[|s.log|];
              && x.mac == request.clientMac && x.discover == discover && x.at == (if discover then e.t2 else e.t3)
              && (x.reply.Some? <==> ip.Some? && (request.vendorClass == Some(PXE_VENDOR_CLASS) ==> |s.bootFilename| <= 254))
              && (x.reply.Some? ==> Answers(s, e, request, if discover then 2 else 5, ip.value, x.reply.value))
         else after.pool == s.pool && after.log == s.log
  {
    var parsed := ParseRequest(e.data);
    if parsed.Some? && parsed.value.messageType in {Some(1), Some(3)} {
      var request, discover := parsed.value, parsed.value.messageType == Some(1);
      WholeRequest(e.data);
      AllocateValid(s.pool, request.clientMac, discover, e);
      var ip := Allocate(s.pool, request.clientMac, discover, e).1;
      if ip.Some? { AnswerIs(s, e, request, if discover then MSG_OFFER else MSG_ACK, ip.value); }
    }
  }

  // ---------- whole runs ----------

  /** The last ACK sent to a client, if it has asked for no offer since. */
  function LastAck(log: seq<Exchange>, mac: Mac): Option<(real, bytes)> {
    if |log| == 0 then None
    else
      var last := log[|log| - 1];
      if last.mac != mac || (!last.discover && last.reply.None?) then LastAck(log[..|log| - 1], mac)
      else if last.discover then None
      else Some((last.at, last.reply.value.0))
  }

  /** The last ACK of a client is younger than the lease at time `now`. */
  predicate Holds(log: seq<Exchange>, mac: Mac, now: real) {
    LastAck(log, mac).Some? && now - LastAck(log, mac).value.0 < LEASE_SECONDS as real
  }

  /** A client with a young ACK is in the pool, with the address the ACK carried, for as long as the
      ACK promised. */
  ghost predicate Backed(s: Server, mac: Mac) {
    Holds(s.log, mac, s.clock) ==>
      && mac in s.pool.macToIp && mac in s.pool.expiresAt
      && s.pool.expiresAt[mac] >= LastAck(s.log, mac).value.0 + LEASE_SECONDS as real
      && IpToBytes(s.pool.macToIp[mac]) == Some(Yiaddr(LastAck(s.log, mac).value.1))
  }

  ghost predicate Inv(s: Server) {
    && s.Valid()
    && (forall mac :: LastAck(s.log, mac).Some? ==> LastAck(s.log, mac).value.0 <= s.clock)
    && (forall mac :: Backed(s, mac))
  }

  lemma LogGrows(log: seq<Exchange>, x: Exchange, mac: Mac)
    ensures LastAck(log + [x], mac) ==
      if x.mac != mac || (!x.discover && x.reply.None?) then LastAck(log, mac)
      else if x.discover then None else Some((x.at, x.reply.value.0))
  {
    assert (log + [x])[..|log|] == log;
  }

  lemma AckCarriesTheAddress(s: Server, receivedFrom: (bytes, nat), request: Request, ip: Ip)
    requires |request.chaddr| == 16 && Answer(s, receivedFrom, request, MSG_ACK, Some(ip)).Some?
    ensures IpToBytes(ip) == Some(Yiaddr(Answer(s, receivedFrom, request, MSG_ACK, Some(ip)).value.0))
  {
    var r := ReplyTo(s, request, MSG_ACK, ip).value;
    ReplyRoundTrip(r);
    assert Slice(ReplyPacket(r), 16, 20) == ReplyPacket(r)[16..20];
  }

  lemma OthersKeepTheirs(p: Pool, other: Mac, discover: bool, e: Event, mac: Mac)
    requires p.Valid() && other != mac && mac in p.macToIp && p.expiresAt[mac] > e.t1
    ensures var q := Allocate(p, other, discover, e).0;
      mac in q.macToIp && q.macToIp[mac] == p.macToIp[mac] && mac in q.expiresAt && q.expiresAt[mac] == p.expiresAt[mac]
  {
    if discover { OfferProtects(p, other, e.t1, e.t2, mac); } else { CommitProtects(p, other, e.t1, e.t2, e.t3, mac); }
  }

  lemma BackedByStep(s: Server, e: Event, mac: Mac)
    requires Inv(s) && Monotone(s.clock, e) && Understand(e.data).Some?
    ensures Backed(Handle(s, e), mac)
  {
    var (request, discover) := Understand(e.data).value;
    var s' := Handle(s, e);
    var x := s'.log[|s.log|];
    LogGrows(s.log, x, mac);
    AllocateValid(s.pool, request.clientMac, discover, e);
    assert Backed(s, mac);
    if mac != request.clientMac {
      if Holds(s.log, mac, e.t3) { OthersKeepTheirs(s.pool, request.clientMac, discover, e, mac); }
    } else if !discover && x.reply.Some? {
      TypedRequestsAreWhole(e.data);
      AckCarriesTheAddress(s, e.receivedFrom, request, Allocate(s.pool, mac, discover, e).1.value);
    } else if !discover && Holds(s.log, mac, e.t3) {
      CommitProtects(s.pool, mac, e.t1, e.t2, e.t3, mac);
    }
  }

  lemma HandleInv(s: Server, e: Event)
    requires Inv(s) && Monotone(s.clock, e)
    ensures Inv(Handle(s, e))
  {
    HandleValid(s, e);
    var s' := Handle(s, e);
    forall mac
      ensures Backed(s', mac)
      ensures LastAck(s'.log, mac).Some? ==> LastAck(s'.log, mac).value.0 <= s'.clock
    {
      if Understand(e.data).Some? {
        LogGrows(s.log, s'.log[|s.log|], mac);
        BackedByStep(s, e, mac);
      } else {
        assert Backed(s, mac);
      }
    }
  }

  ghost predicate Run(s: Server, events: seq<Event>, end: Server)
    requires s.Valid()
    decreases |events|
  {
    if |events| == 0 then s == end
    else Monotone(s.clock, events[0]) && (HandleValid(s, events[0]); Run(Handle(s, events[0]), events[1..], end))
  }

  lemma {:induction false} RunInv(s: Server, events: seq<Event>, end: Server)
    requires Inv(s) && Run(s, events, end)
    ensures Inv(end)
    decreases |events|
  {
    if |events| > 0 {
      HandleInv(s, events[0]);
      RunInv(Handle(s, events[0]), events[1..], end);
    }
  }

  /** After any sequence of datagrams, two stations with different hardware addresses, each holding an
      ACK younger than the lease and having asked for no offer since, were given different addresses
      in the bytes they were sent. */
  lemma AddressesAreUnique(start: Server, events: seq<Event>, end: Server, h1: bytes, h2: bytes, now: real)
    requires start.Valid() && start.log == [] && Run(start, events, end) && now >= end.clock
    requires h1 != h2 && Holds(end.log, RenderMac(h1), now) && Holds(end.log, RenderMac(h2), now)
    ensures Yiaddr(LastAck(end.log, RenderMac(h1)).value.1) != Yiaddr(LastAck(end.log, RenderMac(h2)).value.1)
  {
    RunInv(start, events, end);
    var m1, m2 := RenderMac(h1), RenderMac(h2);
    if m1 == m2 { RenderMacInjective(h1, h2); }
    assert Backed(end, m1) && Backed(end, m2);
    var p := end.pool;
    assert p.macToIp[m1] != p.macToIp[m2] by {
      assert p.ipToMac[p.macToIp[m1]] == m1 && p.ipToMac[p.macToIp[m2]] == m2;
    }
    DottedAddresses(p.macToIp[m1]);
    DottedAddresses(p.macToIp[m2]);
  }
}
