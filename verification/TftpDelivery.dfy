/** The TFTP server composed with an RFC 1350 section 2 lockstep client and a channel that may drop,
    duplicate and reorder: any packet ever sent to a party may reach it at any time, any number of
    times. Other addresses send whatever they like; every copy of the client's request resolves to
    the same payload or fails to resolve. */
module TftpDelivery {
  import opened Bytes
  import opened TftpPacket
  import opened TftpTransfer
  import opened TftpServer
  import opened TftpRuns

  datatype Scenario = Scenario(
    addr: Addr, filename: bytes, mode: bytes, options: seq<(bytes, bytes)>, payload: bytes)
  {
    ghost predicate WellFormed() {
      0 !in filename && 0 !in mode && NulFree(options) && NegotiateBlockSize(Dict(options)).Some?
    }

    function Request(): bytes { RrqPacket(filename, mode, options) }

    predicate UseOack() { |options| > 0 }

    function BlockSize(): (size: nat)
      requires NegotiateBlockSize(Dict(options)).Some?
      ensures size >= 1 && (!UseOack() ==> size == DEFAULT_BLOCK_SIZE)
    {
      NegotiateBlockSize(Dict(options)).value
    }

    function Count(): nat
      requires NegotiateBlockSize(Dict(options)).Some?
    {
      BlockCount(|payload|, BlockSize())
    }
  }

  // ---------- the client ----------

  /** `out` is everything the client has put on the wire. */
  datatype Client = Client(blockSize: Option<int>, got: nat, data: bytes, complete: bool, out: set<bytes>)

  const CLIENT_ERROR: bytes := ErrorPacket(0, [])

  /** Lockstep: accept the next block, acknowledge again what has been seen, ignore the rest. An OACK
      before the first block sets the block size; without one the default applies. */
  function Receive(sc: Scenario, c: Client, packet: bytes): Client {
    if Opcode(packet) == OPCODE_OACK && sc.UseOack() && c.got == 0 then
      c.(blockSize := ReadBlockSize(packet), out := c.out + {AckPacket(0)})
    else if Opcode(packet) == OPCODE_DATA && |packet| >= 4 then
      var block := BlockNumber(packet);
      var size := if c.blockSize.Some? then c.blockSize.value else DEFAULT_BLOCK_SIZE;
      if block == c.got + 1 && !c.complete then
        Client(c.blockSize, block, c.data + packet[4..], |packet[4..]| < size, c.out + {AckPacket(block)})
      else if 1 <= block <= c.got then c.(out := c.out + {AckPacket(block)})
      else c
    else c
  }

  // ---------- the composition ----------

  datatype System = System(server: Server, client: Client)

  datatype Move =
    | Serve(event: Event)      // the server handles a datagram, a finished job or a timer
    | ToClient(packet: nat)    // the channel hands the client one of the packets sent to it
    | Abort                    // the client sends an ERROR

  function Start(sc: Scenario): System {
    System(INITIAL, Client(None, 0, [], false, {sc.Request()}))
  }

  predicate CanMove(sc: Scenario, s: System, m: Move) {
    match m
    case Serve(e) =>
      && Enabled(s.server, e)
      && (e.Received? && e.addr == sc.addr ==> e.data in s.client.out)
      && (e.Resolved? && s.server.jobs[e.job].addr == sc.addr ==> e.payload in {None, Some(sc.payload)})
    case ToClient(i) => i < |s.server.sent| && s.server.sent[i].0 == sc.addr
    case Abort => true
  }

  function Next(sc: Scenario, s: System, m: Move): System
    requires s.server.Valid() && CanMove(sc, s, m)
  {
    match m
    case Serve(e) => s.(server := Step(s.server, e))
    case ToClient(i) => s.(client := Receive(sc, s.client, s.server.sent[i].1))
    case Abort => s.(client := s.client.(out := s.client.out + {CLIENT_ERROR}))
  }

  ghost predicate Run(sc: Scenario, s: System, moves: seq<Move>, end: System)
    requires s.server.Valid()
    decreases |moves|
  {
    if |moves| == 0 then s == end
    else
      && CanMove(sc, s, moves[0])
      && (NextValid(sc, s, moves[0]); Run(sc, Next(sc, s, moves[0]), moves[1..], end))
  }

  lemma NextValid(sc: Scenario, s: System, m: Move)
    requires s.server.Valid() && CanMove(sc, s, m)
    ensures Next(sc, s, m).server.Valid()
  {
    if m.Serve? { StepValid(s.server, m.event); }
  }

  // ---------- the invariant ----------

  /** Block `k`, sent once the client holds the blocks before it. */
  ghost predicate IsBlock(sc: Scenario, c: Client, packet: bytes, k: block16)
    requires sc.WellFormed()
  {
    && 1 <= k <= sc.Count() && k <= c.got + 1
    && (sc.UseOack() ==> c.blockSize == Some(sc.BlockSize()))
    && packet == DataPacket(k, Chunk(sc.payload, sc.BlockSize(), k))
  }

  ghost predicate Authentic(sc: Scenario, c: Client, packet: bytes)
    requires sc.WellFormed()
  {
    (sc.UseOack() && packet == BlockSizeOack(sc.BlockSize())) || exists k :: IsBlock(sc, c, packet, k)
  }

  ghost predicate IsAck(sc: Scenario, c: Client, packet: bytes, k: block16)
    requires sc.WellFormed()
  {
    && k <= c.got && packet == AckPacket(k)
    && (if sc.UseOack() then c.blockSize == Some(sc.BlockSize()) else k >= 1)
  }

  ghost predicate FromClient(sc: Scenario, c: Client, packet: bytes)
    requires sc.WellFormed()
  {
    packet == sc.Request() || packet == CLIENT_ERROR || exists k :: IsAck(sc, c, packet, k)
  }

  ghost predicate ClientInv(sc: Scenario, c: Client)
    requires sc.WellFormed()
  {
    && c.got <= sc.Count() && c.got <= MAX_BLOCK
    && c.data == Blocks(sc.payload, sc.BlockSize(), c.got)
    && (c.complete <==> c.got == sc.Count())
    && (c.blockSize.Some? ==> sc.UseOack() && c.blockSize == Some(sc.BlockSize()))
    && (forall p :: p in c.out ==> FromClient(sc, c, p))
  }

  ghost predicate TransferInv(sc: Scenario, c: Client, t: TransferState)
    requires sc.WellFormed()
  {
    && t.payload == sc.payload && t.blockSize == sc.BlockSize()
    && t.pending <= c.got + 1 && t.pending <= sc.Count()
    && (if t.pending == 0 then sc.UseOack() else sc.UseOack() ==> c.blockSize == Some(sc.BlockSize()))
  }

  ghost predicate ServerInv(sc: Scenario, c: Client, s: Server)
    requires sc.WellFormed()
  {
    && s.Valid()
    && (forall i :: 0 <= i < |s.sent| && s.sent[i].0 == sc.addr ==> Authentic(sc, c, s.sent[i].1))
    && (forall id :: id in s.armed && s.armed[id].addr == sc.addr ==> Authentic(sc, c, s.armed[id].packet))
    && (forall i :: 0 <= i < |s.jobs| && s.jobs[i].addr == sc.addr ==> s.jobs[i].options == Dict(sc.options))
    && (sc.addr in s.transfers ==> TransferInv(sc, c, s.transfers[sc.addr]))
  }

  ghost predicate Inv(sc: Scenario, s: System)
    requires sc.WellFormed()
  {
    ClientInv(sc, s.client) && ServerInv(sc, s.client, s.server)
  }

  // ---------- preservation ----------

  lemma SendInv(sc: Scenario, c: Client, s: Server, packet: bytes, attempt: nat)
    requires sc.WellFormed() && ServerInv(sc, c, s) && attempt < MAX_RETRANSMITS && Authentic(sc, c, packet)
    ensures ServerInv(sc, c, SendAndArm(s, sc.addr, packet, attempt))
  {
    SendValid(s, sc.addr, packet, attempt);
  }

  /** An acknowledgement from the client moves the transfer on by one block at most, to a block the
      client is ready for. */
  lemma AckTransferInv(sc: Scenario, c: Client, t: TransferState, k: block16)
    requires sc.WellFormed() && ClientInv(sc, c) && t.Valid() && TransferInv(sc, c, t) && IsAck(sc, c, AckPacket(k), k)
    ensures TransferInv(sc, c, Acknowledge(t, k).0) && Acknowledge(t, k).0.Valid()
    ensures Acknowledge(t, k).1.Packet? ==> Authentic(sc, c, Acknowledge(t, k).1.packet)
    ensures Acknowledge(t, k).1.Finished? ==> c.complete
  {
    var (t', reply) := Acknowledge(t, k);
    if k == t.pending {
      if k > 0 { ShortIffLast(sc.payload, sc.BlockSize(), k); }
      if reply.Packet? {
        assert IsBlock(sc, c, reply.packet, k + 1);
      }
    }
  }

  lemma AckInv(sc: Scenario, c: Client, s: Server, k: block16)
    requires sc.WellFormed() && ClientInv(sc, c) && ServerInv(sc, c, s) && IsAck(sc, c, AckPacket(k), k)
    ensures ServerInv(sc, c, HandleAck(s, k, sc.addr))
  {
    if sc.addr in s.transfers {
      AckTransferInv(sc, c, s.transfers[sc.addr], k);
      var (t, reply) := Acknowledge(s.transfers[sc.addr], k);
      CancelValid(s, sc.addr);
      var d := CancelRetransmit(s, sc.addr).(transfers := s.transfers[sc.addr := t]);
      assert ServerInv(sc, c, d);
      if reply.Packet? {
        SendInv(sc, c, d, reply.packet, 0);
      }
    }
  }

  lemma OtherAckInv(sc: Scenario, c: Client, s: Server, k: block16, from: Addr)
    requires sc.WellFormed() && ServerInv(sc, c, s) && from != sc.addr
    ensures ServerInv(sc, c, HandleAck(s, k, from))
  {
    AckValid(s, k, from);
  }

  lemma ClientErrorOpcode()
    ensures Opcode(CLIENT_ERROR) == OPCODE_ERROR
  {
    assert CLIENT_ERROR == U16(OPCODE_ERROR) + (U16(0) + [] + [0]);
    OpcodeOf(OPCODE_ERROR, U16(0) + [] + [0]);
  }

  lemma RequestQueuesAJob(sc: Scenario, s: Server)
    requires sc.WellFormed() && s.Valid()
    ensures Datagram(s, sc.Request(), sc.addr) == s.(jobs := s.jobs + [Job(sc.addr, sc.filename, Dict(sc.options))])
  {
    var data := sc.Request();
    RrqRoundTrip(sc.filename, sc.mode, sc.options);
    assert Slice(data, 2, |data|) == data[2..];
  }

  lemma RequestInv(sc: Scenario, c: Client, s: Server)
    requires sc.WellFormed() && ServerInv(sc, c, s)
    ensures ServerInv(sc, c, Datagram(s, sc.Request(), sc.addr))
  {
    RequestQueuesAJob(sc, s);
  }

  lemma ReceivedInv(sc: Scenario, s: System, from: Addr, data: bytes)
    requires sc.WellFormed() && Inv(sc, s) && CanMove(sc, s, Serve(Received(from, data)))
    ensures ServerInv(sc, s.client, Datagram(s.server, data, from))
  {
    if from != sc.addr {
      OtherAckInv(sc, s.client, s.server, BlockNumber(data), from);
    } else if data == sc.Request() {
      RequestInv(sc, s.client, s.server);
    } else if data == CLIENT_ERROR {
      ClientErrorOpcode();
    } else {
      assert FromClient(sc, s.client, data);
      var k: block16 :| IsAck(sc, s.client, data, k);
      AckPacketFields(k);
      AckInv(sc, s.client, s.server, k);
    }
  }

  lemma DictEmptyIffNoOptions(options: seq<(bytes, bytes)>)
    ensures Dict(options) == map[] <==> |options| == 0
  {
    if |options| > 0 { assert options[|options| - 1].0 in Dict(options); }
  }

  lemma BeginInv(sc: Scenario, c: Client, s: Server)
    requires sc.WellFormed() && ClientInv(sc, c) && ServerInv(sc, c, s)
    ensures ServerInv(sc, c, SendAndArm(
              s.(transfers := s.transfers[sc.addr := Begin(sc.payload, sc.BlockSize(), sc.UseOack())]),
              sc.addr, FirstPacket(sc.payload, sc.BlockSize(), sc.UseOack()), 0))
  {
    var begun := Begin(sc.payload, sc.BlockSize(), sc.UseOack());
    var first := FirstPacket(sc.payload, sc.BlockSize(), sc.UseOack());
    assert Authentic(sc, c, first) by {
      if !sc.UseOack() { assert IsBlock(sc, c, first, 1); }
    }
    assert begun.Valid() && TransferInv(sc, c, begun);
    SendInv(sc, c, s.(transfers := s.transfers[sc.addr := begun]), first, 0);
  }

  lemma ResolvedInv(sc: Scenario, s: System, e: Event)
    requires sc.WellFormed() && Inv(sc, s) && e.Resolved? && CanMove(sc, s, Serve(e))
    ensures ServerInv(sc, s.client, Step(s.server, e))
  {
    StepValid(s.server, e);
    var job := s.server.jobs[e.job];
    var rest := s.server.(jobs := Without(s.server.jobs, e.job));
    assert ServerInv(sc, s.client, rest);
    if job.addr == sc.addr && e.payload.Some? {
      DictEmptyIffNoOptions(sc.options);
      BeginInv(sc, s.client, rest);
    }
  }

  lemma FiredInv(sc: Scenario, s: System, id: nat)
    requires sc.WellFormed() && Inv(sc, s) && id in s.server.armed
    ensures ServerInv(sc, s.client, Fire(s.server, id))
  {
    FireValid(s.server, id);
    var call := s.server.armed[id];
    var fired := s.server.(armed := s.server.armed - {id}, handles := s.server.handles - {call.addr});
    if call.attempt + 1 < MAX_RETRANSMITS && call.addr == sc.addr {
      SendInv(sc, s.client, fired, call.packet, call.attempt + 1);
    }
  }

  /** The server's half of the invariant only gains from the client moving forward. */
  lemma ServerInvMonotone(sc: Scenario, c: Client, c': Client, s: Server)
    requires sc.WellFormed() && ServerInv(sc, c, s)
    requires c.got <= c'.got && (c.blockSize == c'.blockSize || c'.blockSize == Some(sc.BlockSize()))
    ensures ServerInv(sc, c', s)
  {
    forall packet | Authentic(sc, c, packet) ensures Authentic(sc, c', packet) {
      if !(sc.UseOack() && packet == BlockSizeOack(sc.BlockSize())) {
        var k: block16 :| IsBlock(sc, c, packet, k);
        assert IsBlock(sc, c', packet, k);
      }
    }
  }

  lemma FromClientMonotone(sc: Scenario, c: Client, c': Client)
    requires sc.WellFormed() && ClientInv(sc, c)
    requires c.got <= c'.got && (c.blockSize == c'.blockSize || c'.blockSize == Some(sc.BlockSize()))
    ensures forall p :: p in c.out ==> FromClient(sc, c', p)
  {
    forall p | p in c.out ensures FromClient(sc, c', p) {
      assert FromClient(sc, c, p);
      if p != sc.Request() && p != CLIENT_ERROR {
        var k: block16 :| IsAck(sc, c, p, k);
        assert IsAck(sc, c', p, k);
      }
    }
  }

  lemma ReceiveOack(sc: Scenario, c: Client)
    requires sc.WellFormed() && ClientInv(sc, c) && sc.UseOack()
    ensures ClientInv(sc, Receive(sc, c, BlockSizeOack(sc.BlockSize())))
  {
    OackRoundTrip(sc.BlockSize());
    var c' := Receive(sc, c, BlockSizeOack(sc.BlockSize()));
    FromClientMonotone(sc, c, c');
    assert c'.out != c.out ==> IsAck(sc, c', AckPacket(0), 0);
  }

  lemma ReceiveBlock(sc: Scenario, c: Client, packet: bytes, k: block16)
    requires sc.WellFormed() && ClientInv(sc, c) && IsBlock(sc, c, packet, k)
    ensures ClientInv(sc, Receive(sc, c, packet)) && c.got <= Receive(sc, c, packet).got
    ensures Receive(sc, c, packet).blockSize == c.blockSize
  {
    DataPacketFields(k, Chunk(sc.payload, sc.BlockSize(), k));
    ShortIffLast(sc.payload, sc.BlockSize(), k);
    var c' := Receive(sc, c, packet);
    FromClientMonotone(sc, c, c');
    assert IsAck(sc, c', AckPacket(k), k);
    assert c'.out == c.out || c'.out == c.out + {AckPacket(k)};
  }

  lemma ReceiveInv(sc: Scenario, s: System, packet: bytes)
    requires sc.WellFormed() && Inv(sc, s) && Authentic(sc, s.client, packet)
    ensures Inv(sc, System(s.server, Receive(sc, s.client, packet)))
  {
    if sc.UseOack() && packet == BlockSizeOack(sc.BlockSize()) {
      OackRoundTrip(sc.BlockSize());
      ReceiveOack(sc, s.client);
    } else {
      var k: block16 :| IsBlock(sc, s.client, packet, k);
      ReceiveBlock(sc, s.client, packet, k);
    }
    ServerInvMonotone(sc, s.client, Receive(sc, s.client, packet), s.server);
  }

  lemma NextInv(sc: Scenario, s: System, m: Move)
    requires sc.WellFormed() && Inv(sc, s) && CanMove(sc, s, m)
    ensures Inv(sc, Next(sc, s, m))
  {
    match m
    case Serve(Received(from, data)) => ReceivedInv(sc, s, from, data);
    case Serve(Resolved(i, payload)) => ResolvedInv(sc, s, m.event);
    case Serve(TimerFired(id)) => FiredInv(sc, s, id);
    case ToClient(i) => ReceiveInv(sc, s, s.server.sent[i].1);
    case Abort =>
      var c' := s.client.(out := s.client.out + {CLIENT_ERROR});
      ServerInvMonotone(sc, s.client, c', s.server);
      FromClientMonotone(sc, s.client, c');
  }

  lemma {:induction false} RunInv(sc: Scenario, s: System, moves: seq<Move>, end: System)
    requires sc.WellFormed() && Inv(sc, s) && Run(sc, s, moves, end)
    ensures Inv(sc, end)
    decreases |moves|
  {
    if |moves| > 0 {
      NextValid(sc, s, moves[0]);
      NextInv(sc, s, moves[0]);
      RunInv(sc, Next(sc, s, moves[0]), moves[1..], end);
    }
  }

  // ---------- the theorems ----------

  /** At every moment of every run the client holds a prefix of the payload, and all of it once it
      has seen a short block. */
  lemma DeliversPrefix(sc: Scenario, moves: seq<Move>, end: System)
    requires sc.WellFormed() && Run(sc, Start(sc), moves, end)
    ensures end.client.data <= sc.payload
    ensures end.client.complete ==> end.client.data == sc.payload
  {
    RunInv(sc, Start(sc), moves, end);
    BlocksArePrefix(sc.payload, sc.BlockSize(), end.client.got);
  }

  lemma AcksAreFromTheClient(sc: Scenario, c: Client, ack: bytes)
    requires sc.WellFormed() && ClientInv(sc, c) && ack in c.out && Opcode(ack) == OPCODE_ACK
    ensures IsAck(sc, c, AckPacket(BlockNumber(ack)), BlockNumber(ack))
  {
    RrqRoundTrip(sc.filename, sc.mode, sc.options);
    ClientErrorOpcode();
    assert FromClient(sc, c, ack);
    var k: block16 :| IsAck(sc, c, ack, k);
    AckPacketFields(k);
  }

  /** When the server takes an acknowledgement as the last one, the client holds the whole payload. */
  lemma DoneMeansDelivered(sc: Scenario, moves: seq<Move>, end: System, ack: bytes)
    requires sc.WellFormed() && Run(sc, Start(sc), moves, end)
    requires sc.addr in end.server.transfers && ack in end.client.out && Opcode(ack) == OPCODE_ACK
    requires end.server.Valid() && Acknowledge(end.server.transfers[sc.addr], BlockNumber(ack)).1.Finished?
    ensures end.client.complete && end.client.data == sc.payload
  {
    RunInv(sc, Start(sc), moves, end);
    AcksAreFromTheClient(sc, end.client, ack);
    AckTransferInv(sc, end.client, end.server.transfers[sc.addr], BlockNumber(ack));
    DeliversPrefix(sc, moves, end);
  }

  // ---------- everything that is sent ----------

  function ServerEvents(moves: seq<Move>): seq<Event> {
    if |moves| == 0 then []
    else (if moves[0].Serve? then [moves[0].event] else []) + ServerEvents(moves[1..])
  }

  lemma {:induction false} ServerRun(sc: Scenario, s: System, moves: seq<Move>, end: System)
    requires s.server.Valid() && Run(sc, s, moves, end)
    ensures Possible(s.server, ServerEvents(moves)) && After(s.server, ServerEvents(moves)) == end.server
    decreases |moves|
  {
    if |moves| > 0 {
      NextValid(sc, s, moves[0]);
      ServerRun(sc, Next(sc, s, moves[0]), moves[1..], end);
      var events := ServerEvents(moves);
      if moves[0].Serve? {
        assert events[0] == moves[0].event && events[1..] == ServerEvents(moves[1..]);
      } else {
        assert events == ServerEvents(moves[1..]);
      }
    }
  }

  function SendsTo(sent: seq<(Addr, bytes)>, addr: Addr): nat {
    if |sent| == 0 then 0
    else SendsTo(sent[..|sent| - 1], addr) + (if sent[|sent| - 1].0 == addr then 1 else 0)
  }

  lemma {:induction false} SendsHaveSlots(sent: seq<(Addr, bytes)>, addr: Addr, lo: nat, hi: nat)
    requires forall i :: 0 <= i < |sent| && sent[i].0 == addr ==> lo <= Slot(sent[i].1) <= hi
    ensures SendsTo(sent, addr) == Sends(sent, addr, lo, hi)
  {
    if |sent| > 0 { SendsHaveSlots(sent[..|sent| - 1], addr, lo, hi); }
  }

  lemma AuthenticSlot(sc: Scenario, c: Client, packet: bytes)
    requires sc.WellFormed() && Authentic(sc, c, packet)
    ensures FirstBlock(sc.UseOack()) <= Slot(packet) <= sc.Count()
  {
    if sc.UseOack() && packet == BlockSizeOack(sc.BlockSize()) {
      OackRoundTrip(sc.BlockSize());
    } else {
      var k: block16 :| IsBlock(sc, c, packet, k);
      DataPacketFields(k, Chunk(sc.payload, sc.BlockSize(), k));
    }
  }

  /** The whole traffic to the client: MAX_RETRANSMITS sends for each block, and for the OACK if there
      is one, per transfer begun for it. */
  lemma TotalSends(sc: Scenario, moves: seq<Move>, end: System)
    requires sc.WellFormed() && Run(sc, Start(sc), moves, end)
    ensures Possible(INITIAL, ServerEvents(moves))
    ensures SendsTo(end.server.sent, sc.addr)
         <= MAX_RETRANSMITS * (sc.Count() + 1 - FirstBlock(sc.UseOack()))
            * Beginnings(INITIAL, ServerEvents(moves), sc.addr)
  {
    RunInv(sc, Start(sc), moves, end);
    ServerRun(sc, Start(sc), moves, end);
    var lo, hi := FirstBlock(sc.UseOack()), sc.Count();
    forall i | 0 <= i < |end.server.sent| && end.server.sent[i].0 == sc.addr
      ensures lo <= Slot(end.server.sent[i].1) <= hi
    {
      AuthenticSlot(sc, end.client, end.server.sent[i].1);
    }
    SendsHaveSlots(end.server.sent, sc.addr, lo, hi);
    SendBound(ServerEvents(moves), sc.addr, lo, hi);
    assert hi - lo + 1 == sc.Count() + 1 - FirstBlock(sc.UseOack());
  }
}
