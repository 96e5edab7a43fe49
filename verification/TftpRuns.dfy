/** What every run of the TFTP server keeps, whatever datagrams arrive, in whatever order jobs
    come back and timers fire: the bound on what is sent, and the pairing of transfers and timers. */
module TftpRuns {
  import opened Bytes
  import opened TftpPacket
  import opened TftpTransfer
  import opened TftpServer

  ghost predicate Possible(s: Server, events: seq<Event>)
    requires s.Valid()
    decreases |events|
  {
    |events| == 0 ||
    (Enabled(s, events[0]) && (StepValid(s, events[0]); Possible(Step(s, events[0]), events[1..])))
  }

  ghost function After(s: Server, events: seq<Event>): (end: Server)
    requires s.Valid() && Possible(s, events)
    ensures end.Valid()
    decreases |events|
  {
    if |events| == 0 then s else StepValid(s, events[0]); After(Step(s, events[0]), events[1..])
  }

  // ---------- how much is sent ----------

  /** The place of a packet in its transfer: 0 for the OACK, `k` for block `k`, -1 for anything else. */
  function Slot(packet: bytes): int {
    if Opcode(packet) == OPCODE_OACK then 0
    else if Opcode(packet) == OPCODE_DATA then BlockNumber(packet)
    else -1
  }

  lemma SlotOfFirstPacket(payload: bytes, blockSize: nat, useOack: bool)
    ensures Slot(FirstPacket(payload, blockSize, useOack)) == FirstBlock(useOack)
  {
    if useOack { OackRoundTrip(blockSize); } else { DataPacketFields(1, Chunk(payload, blockSize, 1)); }
  }

  lemma SlotOfError()
    ensures Slot(ErrorPacket(ERR_ACCESS_VIOLATION, WRITE_NOT_ALLOWED)) == -1
  {
    var rest := U16(ERR_ACCESS_VIOLATION) + WRITE_NOT_ALLOWED + [0];
    assert ErrorPacket(ERR_ACCESS_VIOLATION, WRITE_NOT_ALLOWED) == U16(OPCODE_ERROR) + rest;
    OpcodeOf(OPCODE_ERROR, rest);
  }

  /** How many packets with a slot in `lo..hi` have been sent to an address. */
  function Sends(sent: seq<(Addr, bytes)>, addr: Addr, lo: nat, hi: nat): nat {
    if |sent| == 0 then 0
    else
      var last := sent[|sent| - 1];
      Sends(sent[..|sent| - 1], addr, lo, hi) + (if last.0 == addr && lo <= Slot(last.1) <= hi then 1 else 0)
  }

  /** How many more sends the armed timers below `n` can still cause. */
  function Budget(armed: map<nat, Call>, n: nat, addr: Addr, lo: nat, hi: nat): int {
    if n == 0 then 0
    else Budget(armed, n - 1, addr, lo, hi) + CallBudget(armed, n - 1, addr, lo, hi)
  }

  function CallBudget(armed: map<nat, Call>, id: nat, addr: Addr, lo: nat, hi: nat): int {
    if id in armed && armed[id].addr == addr && lo <= Slot(armed[id].packet) <= hi
    then MAX_RETRANSMITS - 1 - armed[id].attempt else 0
  }

  /** Five sends for each block of the interval that a live transfer has and has not reached. */
  function Unreached(s: Server, addr: Addr, lo: nat, hi: nat): nat {
    if addr in s.transfers then MAX_RETRANSMITS * BlocksLeft(s.transfers[addr], lo, hi) else 0
  }

  function BlocksLeft(t: TransferState, lo: nat, hi: nat): nat {
    if t.blockSize == 0 then 0 else Max(0, Min(hi, BlockCount(|t.payload|, t.blockSize)) - Max(lo - 1, t.pending))
  }

  function Potential(s: Server, addr: Addr, lo: nat, hi: nat): int {
    Sends(s.sent, addr, lo, hi) + Budget(s.armed, s.nextCall, addr, lo, hi) + Unreached(s, addr, lo, hi)
  }

  /** Event `e` begins a transfer to `addr`. */
  predicate Begins(s: Server, e: Event, addr: Addr) {
    e.Resolved? && e.job < |s.jobs| && s.jobs[e.job].addr == addr && e.payload.Some? && NegotiateBlockSize(s.jobs[e.job].options).Some?
  }

  /** How many slots in `lo..hi` a transfer fills: the OACK if it has one, and its blocks. */
  function Share(length: nat, blockSize: nat, useOack: bool, lo: nat, hi: nat): nat
    requires blockSize >= 1
  {
    Max(0, Min(hi, BlockCount(length, blockSize)) + 1 - Max(lo, FirstBlock(useOack)))
  }

  /** The slots in `lo..hi` of the transfer to `addr` that event `e` begins, if it begins one. */
  function Granted(s: Server, e: Event, addr: Addr, lo: nat, hi: nat): nat {
    if Begins(s, e, addr) then
      var options := s.jobs[e.job].options;
      Share(|e.payload.value|, NegotiateBlockSize(options).value, options != map[], lo, hi)
    else 0
  }

  /** The slots in `lo..hi` of all transfers to `addr` that the run begins. */
  ghost function Allowance(s: Server, events: seq<Event>, addr: Addr, lo: nat, hi: nat): nat
    requires s.Valid() && Possible(s, events)
    decreases |events|
  {
    if |events| == 0 then 0
    else
      StepValid(s, events[0]);
      Granted(s, events[0], addr, lo, hi) + Allowance(Step(s, events[0]), events[1..], addr, lo, hi)
  }

  ghost function Beginnings(s: Server, events: seq<Event>, addr: Addr): nat
    requires s.Valid() && Possible(s, events)
    decreases |events|
  {
    if |events| == 0 then 0
    else
      StepValid(s, events[0]);
      (if Begins(s, events[0], addr) then 1 else 0) + Beginnings(Step(s, events[0]), events[1..], addr)
  }

  lemma {:induction false} BudgetOfSame(armed: map<nat, Call>, armed': map<nat, Call>, n: nat, addr: Addr, lo: nat, hi: nat)
    requires forall id: nat :: id < n ==> CallBudget(armed, id, addr, lo, hi) == CallBudget(armed', id, addr, lo, hi)
    ensures Budget(armed, n, addr, lo, hi) == Budget(armed', n, addr, lo, hi)
  {
    if n > 0 { BudgetOfSame(armed, armed', n - 1, addr, lo, hi); }
  }

  lemma {:induction false} BudgetWithout(armed: map<nat, Call>, gone: nat, n: nat, addr: Addr, lo: nat, hi: nat)
    requires gone < n
    ensures Budget(armed - {gone}, n, addr, lo, hi)
         == Budget(armed, n, addr, lo, hi) - CallBudget(armed, gone, addr, lo, hi)
  {
    if gone == n - 1 {
      BudgetOfSame(armed, armed - {gone}, n - 1, addr, lo, hi);
    } else {
      BudgetWithout(armed, gone, n - 1, addr, lo, hi);
    }
  }

  lemma {:induction false} BudgetNonNegative(s: Server, n: nat, addr: Addr, lo: nat, hi: nat)
    requires s.Valid()
    ensures Budget(s.armed, n, addr, lo, hi) >= 0
  {
    if n > 0 { BudgetNonNegative(s, n - 1, addr, lo, hi); }
  }

  lemma PotentialOfSend(s: Server, to: Addr, packet: bytes, attempt: nat, addr: Addr, lo: nat, hi: nat)
    ensures Potential(SendAndArm(s, to, packet, attempt), addr, lo, hi)
         == Potential(s, addr, lo, hi)
            + (if to == addr && lo <= Slot(packet) <= hi then MAX_RETRANSMITS - attempt else 0)
  {
    var after := SendAndArm(s, to, packet, attempt);
    assert after.sent[..|s.sent|] == s.sent;
    BudgetOfSame(s.armed, after.armed, s.nextCall, addr, lo, hi);
  }

  lemma PotentialOfCancel(s: Server, from: Addr, addr: Addr, lo: nat, hi: nat)
    requires s.Valid()
    ensures Potential(CancelRetransmit(s, from), addr, lo, hi) <= Potential(s, addr, lo, hi)
  {
    if from in s.handles {
      BudgetWithout(s.armed, s.handles[from], s.nextCall, addr, lo, hi);
    }
  }

  /** A block sent for the first time is one the transfer had not reached, and it is not past the last. */
  lemma AckReachesABlock(t: TransferState, block: block16)
    requires t.Valid()
    ensures var (next, reply) := Acknowledge(t, block);
      && next.pending >= t.pending && next.payload == t.payload && next.blockSize == t.blockSize && next.Valid()
      && (reply.Packet? ==> next.pending == t.pending + 1 && Slot(reply.packet) == next.pending
                            && next.pending <= BlockCount(|t.payload|, t.blockSize))
  {
    var (next, reply) := Acknowledge(t, block);
    if reply.Packet? {
      DataPacketFields(next.pending, Chunk(t.payload, t.blockSize, next.pending));
      if block > 0 { FullOrShort(t.payload, t.blockSize, block); }
      QuotientBound(|t.payload|, t.blockSize, block);
    }
  }

  lemma UnreachedShrinks(t: TransferState, next: TransferState, lo: nat, hi: nat)
    requires t.blockSize == next.blockSize >= 1 && t.payload == next.payload && t.pending <= next.pending
    ensures BlocksLeft(next, lo, hi) <= BlocksLeft(t, lo, hi)
    ensures t.pending < next.pending <= BlockCount(|t.payload|, t.blockSize) && lo <= next.pending <= hi ==>
              BlocksLeft(next, lo, hi) < BlocksLeft(t, lo, hi)
  {
  }

  lemma PotentialOfAck(s: Server, block: block16, from: Addr, addr: Addr, lo: nat, hi: nat)
    requires s.Valid() && lo <= hi
    ensures Potential(HandleAck(s, block, from), addr, lo, hi) <= Potential(s, addr, lo, hi)
  {
    if from in s.transfers {
      AckReachesABlock(s.transfers[from], block);
      var (t, reply) := Acknowledge(s.transfers[from], block);
      PotentialOfCancel(s, from, addr, lo, hi);
      var c := CancelRetransmit(s, from).(transfers := s.transfers[from := t]);
      assert Potential(c, addr, lo, hi) <= Potential(s, addr, lo, hi) - Unreached(s, addr, lo, hi) + Unreached(c, addr, lo, hi);
      UnreachedShrinks(s.transfers[from], t, lo, hi);
      if reply.Packet? {
        PotentialOfSend(c, from, reply.packet, 0, addr, lo, hi);
      }
    }
  }

  lemma PotentialOfBegin(s: Server, to: Addr, payload: bytes, blockSize: nat, useOack: bool, addr: Addr, lo: nat, hi: nat)
    requires blockSize >= 1 && lo <= hi
    ensures var after := SendAndArm(s.(transfers := s.transfers[to := Begin(payload, blockSize, useOack)]),
              to, FirstPacket(payload, blockSize, useOack), 0);
      Potential(after, addr, lo, hi) <= Potential(s, addr, lo, hi)
           + (if to == addr then MAX_RETRANSMITS * Share(|payload|, blockSize, useOack, lo, hi) else 0)
  {
    var started := s.(transfers := s.transfers[to := Begin(payload, blockSize, useOack)]);
    SlotOfFirstPacket(payload, blockSize, useOack);
    PotentialOfSend(started, to, FirstPacket(payload, blockSize, useOack), 0, addr, lo, hi);
  }

  lemma PotentialOfResolve(s: Server, e: Event, addr: Addr, lo: nat, hi: nat)
    requires s.Valid() && e.Resolved? && Enabled(s, e) && lo <= hi
    ensures Potential(Step(s, e), addr, lo, hi) <= Potential(s, addr, lo, hi) + MAX_RETRANSMITS * Granted(s, e, addr, lo, hi)
  {
    var job := s.jobs[e.job];
    var size := NegotiateBlockSize(job.options);
    if e.payload.Some? && size.Some? {
      PotentialOfBegin(s.(jobs := Without(s.jobs, e.job)), job.addr, e.payload.value, size.value, job.options != map[],
        addr, lo, hi);
    }
  }

  lemma PotentialOfFire(s: Server, id: nat, addr: Addr, lo: nat, hi: nat)
    requires s.Valid() && id in s.armed
    ensures Potential(Fire(s, id), addr, lo, hi) <= Potential(s, addr, lo, hi)
  {
    var call := s.armed[id];
    var fired := s.(armed := s.armed - {id}, handles := s.handles - {call.addr});
    BudgetWithout(s.armed, id, s.nextCall, addr, lo, hi);
    if call.attempt + 1 < MAX_RETRANSMITS {
      PotentialOfSend(fired, call.addr, call.packet, call.attempt + 1, addr, lo, hi);
    }
  }

  lemma PotentialOfDatagram(s: Server, data: bytes, from: Addr, addr: Addr, lo: nat, hi: nat)
    requires s.Valid() && lo <= hi
    ensures Potential(Datagram(s, data, from), addr, lo, hi) <= Potential(s, addr, lo, hi)
  {
    if Opcode(data) == OPCODE_ACK {
      PotentialOfAck(s, BlockNumber(data), from, addr, lo, hi);
    } else if Opcode(data) == OPCODE_WRQ {
      SlotOfError();
      assert Datagram(s, data, from).sent[..|s.sent|] == s.sent;
    }
  }

  lemma PotentialOfStep(s: Server, e: Event, addr: Addr, lo: nat, hi: nat)
    requires s.Valid() && Enabled(s, e) && lo <= hi
    ensures Potential(Step(s, e), addr, lo, hi) <= Potential(s, addr, lo, hi) + MAX_RETRANSMITS * Granted(s, e, addr, lo, hi)
  {
    match e
    case Received(from, data) => PotentialOfDatagram(s, data, from, addr, lo, hi);
    case Resolved(_, _) => PotentialOfResolve(s, e, addr, lo, hi);
    case TimerFired(id) => PotentialOfFire(s, id, addr, lo, hi);
  }

  lemma {:induction false} PotentialOfRun(s: Server, events: seq<Event>, addr: Addr, lo: nat, hi: nat)
    requires s.Valid() && Possible(s, events) && lo <= hi
    ensures Potential(After(s, events), addr, lo, hi)
         <= Potential(s, addr, lo, hi) + MAX_RETRANSMITS * Allowance(s, events, addr, lo, hi)
    decreases |events|
  {
    if |events| > 0 {
      StepValid(s, events[0]);
      PotentialOfStep(s, events[0], addr, lo, hi);
      var next := Step(s, events[0]);
      PotentialOfRun(next, events[1..], addr, lo, hi);
      assert After(s, events) == After(next, events[1..]);
    }
  }

  lemma Distribute(unit: nat, one: bool, n: nat)
    ensures unit * ((if one then 1 else 0) + n) == (if one then unit else 0) + unit * n
  {
  }

  lemma {:induction false} AllowanceByInterval(s: Server, events: seq<Event>, addr: Addr, lo: nat, hi: nat, width: nat)
    requires s.Valid() && Possible(s, events) && width == hi - lo + 1
    ensures Allowance(s, events, addr, lo, hi) <= width * Beginnings(s, events, addr)
    decreases |events|
  {
    if |events| > 0 {
      StepValid(s, events[0]);
      var next := Step(s, events[0]);
      AllowanceByInterval(next, events[1..], addr, lo, hi, width);
      Distribute(width, Begins(s, events[0], addr), Beginnings(next, events[1..], addr));
    }
  }

  /** In every run from the start, whatever stale or duplicate acknowledgements, errors and repeated
      requests arrive, the packets of slots `lo..hi` are sent to an address at most MAX_RETRANSMITS
      times each per transfer begun for it that has them. With `lo == hi` this bounds one packet. */
  lemma SendBound(events: seq<Event>, addr: Addr, lo: nat, hi: nat)
    requires Possible(INITIAL, events) && lo <= hi
    ensures Sends(After(INITIAL, events).sent, addr, lo, hi)
         <= MAX_RETRANSMITS * Allowance(INITIAL, events, addr, lo, hi)
         <= MAX_RETRANSMITS * (hi - lo + 1) * Beginnings(INITIAL, events, addr)
  {
    PotentialOfRun(INITIAL, events, addr, lo, hi);
    var end := After(INITIAL, events);
    BudgetNonNegative(end, end.nextCall, addr, lo, hi);
    AllowanceByInterval(INITIAL, events, addr, lo, hi, hi - lo + 1);
    Regroup(MAX_RETRANSMITS, Allowance(INITIAL, events, addr, lo, hi), hi - lo + 1, Beginnings(INITIAL, events, addr));
  }

  lemma Regroup(factor: nat, a: nat, b: nat, c: nat)
    requires a <= b * c
    ensures factor * a <= factor * b * c
  {
    assert factor * b * c == factor * (b * c);
  }

  // ---------- how often timers fire ----------

  /** The packets of all transfers begun for `addr`: each has its blocks, and its OACK if it uses one. */
  ghost function Packets(s: Server, events: seq<Event>, addr: Addr): nat
    requires s.Valid() && Possible(s, events)
    decreases |events|
  {
    if |events| == 0 then 0
    else
      StepValid(s, events[0]);
      (if Begins(s, events[0], addr) then
         var options := s.jobs[events[0].job].options;
         BlockCount(|events[0].payload.value|, NegotiateBlockSize(options).value) + 1 - FirstBlock(options != map[])
       else 0)
      + Packets(Step(s, events[0]), events[1..], addr)
  }

  lemma {:induction false} AllowanceIsPackets(s: Server, events: seq<Event>, addr: Addr, hi: nat)
    requires s.Valid() && Possible(s, events)
    ensures Allowance(s, events, addr, 0, hi) <= Packets(s, events, addr)
    decreases |events|
  {
    if |events| > 0 {
      StepValid(s, events[0]);
      AllowanceIsPackets(Step(s, events[0]), events[1..], addr, hi);
    }
  }

  /** How many of the events are a timer of this address firing. */
  ghost function Firings(s: Server, events: seq<Event>, addr: Addr): nat
    requires s.Valid() && Possible(s, events)
    decreases |events|
  {
    if |events| == 0 then 0
    else
      StepValid(s, events[0]);
      (if Fires(s, events[0], addr) then 1 else 0) + Firings(Step(s, events[0]), events[1..], addr)
  }

  predicate Fires(s: Server, e: Event, addr: Addr) { e.TimerFired? && e.call in s.armed && s.armed[e.call].addr == addr }

  function ArmedFor(armed: map<nat, Call>, addr: Addr): set<nat> { set id | id in armed && armed[id].addr == addr }

  /** Every timer carries a packet of a transfer. */
  ghost predicate CarriesPackets(s: Server) { forall id :: id in s.armed ==> Slot(s.armed[id].packet) >= 0 }

  /** Sends not yet followed by the firing of the timer they armed. */
  function Unfired(s: Server, addr: Addr): int { Sends(s.sent, addr, 0, MAX_BLOCK) - |ArmedFor(s.armed, addr)| }

  lemma UnfiredOfSend(s: Server, to: Addr, packet: bytes, attempt: nat, addr: Addr)
    requires s.Valid() && CarriesPackets(s) && Slot(packet) >= 0
    ensures CarriesPackets(SendAndArm(s, to, packet, attempt))
    ensures Unfired(SendAndArm(s, to, packet, attempt), addr) == Unfired(s, addr)
  {
    OneMoreSend(s.sent, (to, packet), addr, 0, MAX_BLOCK);
    ArmedAfterSend(s, to, packet, attempt, addr);
  }

  lemma OneMoreSend(sent: seq<(Addr, bytes)>, last: (Addr, bytes), addr: Addr, lo: nat, hi: nat)
    ensures Sends(sent + [last], addr, lo, hi)
         == Sends(sent, addr, lo, hi) + (if last.0 == addr && lo <= Slot(last.1) <= hi then 1 else 0)
  {
    assert (sent + [last])[..|sent|] == sent;
  }

  lemma ArmedAfterSend(s: Server, to: Addr, packet: bytes, attempt: nat, addr: Addr)
    requires s.nextCall !in s.armed
    ensures |ArmedFor(SendAndArm(s, to, packet, attempt).armed, addr)| == |ArmedFor(s.armed, addr)| + (if to == addr then 1 else 0)
  {
    var after := SendAndArm(s, to, packet, attempt);
    if to == addr {
      assert ArmedFor(after.armed, addr) == ArmedFor(s.armed, addr) + {s.nextCall};
    } else {
      assert ArmedFor(after.armed, addr) == ArmedFor(s.armed, addr);
    }
  }

  lemma UnfiredOfDisarm(s: Server, t: Server, id: nat, addr: Addr)
    requires id in s.armed && t.armed == s.armed - {id} && t.sent == s.sent
    ensures Unfired(t, addr) == Unfired(s, addr) + (if s.armed[id].addr == addr then 1 else 0)
  {
    assert ArmedFor(t.armed, addr) == ArmedFor(s.armed, addr) - {id};
  }

  lemma UnfiredOfAck(s: Server, block: block16, from: Addr, addr: Addr)
    requires s.Valid() && CarriesPackets(s)
    ensures CarriesPackets(HandleAck(s, block, from)) && Unfired(HandleAck(s, block, from), addr) >= Unfired(s, addr)
  {
    if from in s.transfers {
      AckReachesABlock(s.transfers[from], block);
      CancelValid(s, from);
      var (t, reply) := Acknowledge(s.transfers[from], block);
      var c := CancelRetransmit(s, from).(transfers := s.transfers[from := t]);
      if from in s.handles { UnfiredOfDisarm(s, c, s.handles[from], addr); }
      if reply.Packet? { UnfiredOfSend(c, from, reply.packet, 0, addr); }
    }
  }

  lemma UnfiredOfResolve(s: Server, e: Event, addr: Addr)
    requires s.Valid() && CarriesPackets(s) && e.Resolved? && Enabled(s, e)
    ensures CarriesPackets(Step(s, e)) && Unfired(Step(s, e), addr) == Unfired(s, addr)
  {
    var job := s.jobs[e.job];
    var size := NegotiateBlockSize(job.options);
    if e.payload.Some? && size.Some? {
      var useOack := job.options != map[];
      var begun := Begin(e.payload.value, size.value, useOack);
      var started := s.(jobs := Without(s.jobs, e.job), transfers := s.transfers[job.addr := begun]);
      assert begun.Valid() && started.Valid();
      SlotOfFirstPacket(e.payload.value, size.value, useOack);
      UnfiredOfSend(started, job.addr, FirstPacket(e.payload.value, size.value, useOack), 0, addr);
    }
  }

  lemma UnfiredOfFire(s: Server, id: nat, addr: Addr)
    requires s.Valid() && CarriesPackets(s) && id in s.armed
    ensures CarriesPackets(Fire(s, id))
    ensures Unfired(Fire(s, id), addr) == Unfired(s, addr) + (if s.armed[id].addr == addr then 1 else 0)
  {
    var call := s.armed[id];
    var fired := s.(armed := s.armed - {id}, handles := s.handles - {call.addr});
    assert fired.Valid();
    UnfiredOfDisarm(s, fired, id, addr);
    if call.attempt + 1 < MAX_RETRANSMITS { UnfiredOfSend(fired, call.addr, call.packet, call.attempt + 1, addr); }
  }

  lemma UnfiredOfStep(s: Server, e: Event, addr: Addr)
    requires s.Valid() && CarriesPackets(s) && Enabled(s, e)
    ensures CarriesPackets(Step(s, e))
    ensures Unfired(Step(s, e), addr) >= Unfired(s, addr) + (if Fires(s, e, addr) then 1 else 0)
  {
    match e
    case Received(from, data) =>
      if Opcode(data) == OPCODE_ACK {
        UnfiredOfAck(s, BlockNumber(data), from, addr);
      } else if Opcode(data) == OPCODE_WRQ {
        SlotOfError();
        assert Datagram(s, data, from).sent[..|s.sent|] == s.sent;
      }
    case Resolved(_, _) => UnfiredOfResolve(s, e, addr);
    case TimerFired(id) => UnfiredOfFire(s, id, addr);
  }

  lemma {:induction false} UnfiredOfRun(s: Server, events: seq<Event>, addr: Addr)
    requires s.Valid() && CarriesPackets(s) && Possible(s, events)
    ensures Unfired(After(s, events), addr) >= Unfired(s, addr) + Firings(s, events, addr)
    decreases |events|
  {
    if |events| > 0 {
      StepValid(s, events[0]);
      UnfiredOfStep(s, events[0], addr);
      UnfiredOfRun(Step(s, events[0]), events[1..], addr);
    }
  }

  /** Termination: over every run the timers of an address fire at most once per packet sent to it, and
      that is at most five times the packets of the transfers begun for it. When no further transfer
      is begun, everything comes to rest, whatever else arrives. */
  lemma FiringsAreBounded(events: seq<Event>, addr: Addr)
    requires Possible(INITIAL, events)
    ensures Firings(INITIAL, events, addr)
         <= Sends(After(INITIAL, events).sent, addr, 0, MAX_BLOCK)
         <= MAX_RETRANSMITS * Packets(INITIAL, events, addr)
  {
    assert ArmedFor(INITIAL.armed, addr) == {};
    UnfiredOfRun(INITIAL, events, addr);
    SendBound(events, addr, 0, MAX_BLOCK);
    AllowanceIsPackets(INITIAL, events, addr, MAX_BLOCK);
  }

  // ---------- what a datagram is answered ----------

  /** A write request is answered by one ERROR packet, code 2, to its sender, and changes nothing else. */
  lemma WriteRequestIsRefused(s: Server, data: bytes, addr: Addr)
    requires s.Valid() && |data| >= 2 && data[..2] == [0, 2]
    ensures var after := Datagram(s, data, addr);
      && |after.sent| == |s.sent| + 1 && after.sent[..|s.sent|] == s.sent
      && after == s.(sent := after.sent)
      && var (to, packet) := after.sent[|s.sent|];
         to == addr && |packet| > 4 && packet[..4] == [0, 5, 0, 2] && packet[|packet| - 1] == 0
  {
    BigEndian(0, 2, 0, 0);
    assert Slice(data, 0, 2) == data[..2];
    var packet := ErrorPacket(ERR_ACCESS_VIOLATION, WRITE_NOT_ALLOWED);
    assert packet[..4] == [0, 5, 0, 2];
  }

  /** Packets with an ERROR opcode sent to an address. */
  function Errors(sent: seq<(Addr, bytes)>, addr: Addr): nat {
    if |sent| == 0 then 0
    else
      var last := sent[|sent| - 1];
      Errors(sent[..|sent| - 1], addr) + (if last.0 == addr && Opcode(last.1) == OPCODE_ERROR then 1 else 0)
  }

  predicate IsWrite(e: Event, addr: Addr) { e.Received? && e.addr == addr && Opcode(e.data) == OPCODE_WRQ }

  predicate IsRead(e: Event, addr: Addr) { e.Received? && e.addr == addr && Opcode(e.data) == OPCODE_RRQ }

  function Count(events: seq<Event>, wanted: Event -> bool): nat {
    if |events| == 0 then 0 else (if wanted(events[0]) then 1 else 0) + Count(events[1..], wanted)
  }

  lemma ErrorsOfMore(sent: seq<(Addr, bytes)>, last: (Addr, bytes), addr: Addr)
    ensures Errors(sent + [last], addr) == Errors(sent, addr) + (if last.0 == addr && Opcode(last.1) == OPCODE_ERROR then 1 else 0)
  {
    assert (sent + [last])[..|sent|] == sent;
  }

  /** A step sends at most one packet: the refusal of a write request, or one of a transfer. */
  lemma StepSends(s: Server, e: Event)
    requires s.Valid() && CarriesPackets(s) && Enabled(s, e)
    ensures var sent := Step(s, e).sent;
      if e.Received? && Opcode(e.data) == OPCODE_WRQ then
        sent == s.sent + [(e.addr, ErrorPacket(ERR_ACCESS_VIOLATION, WRITE_NOT_ALLOWED))]
      else sent == s.sent || exists last: (Addr, bytes) :: Slot(last.1) >= 0 && sent == s.sent + [last]
  {
    match e
    case Received(from, data) =>
      if Opcode(data) == OPCODE_ACK && from in s.transfers {
        AckReachesABlock(s.transfers[from], BlockNumber(data));
        var (t, reply) := Acknowledge(s.transfers[from], BlockNumber(data));
        if reply.Packet? { assert Step(s, e).sent == s.sent + [(from, reply.packet)]; }
      }
    case Resolved(i, payload) =>
      var job := s.jobs[i];
      var size := NegotiateBlockSize(job.options);
      if payload.Some? && size.Some? {
        SlotOfFirstPacket(payload.value, size.value, job.options != map[]);
        assert Step(s, e).sent == s.sent + [(job.addr, FirstPacket(payload.value, size.value, job.options != map[]))];
      }
    case TimerFired(id) =>
      assert Step(s, e).sent == s.sent || Step(s, e).sent == s.sent + [(s.armed[id].addr, s.armed[id].packet)];
  }

  lemma ErrorsOfStep(s: Server, e: Event, addr: Addr)
    requires s.Valid() && CarriesPackets(s) && Enabled(s, e)
    ensures Errors(Step(s, e).sent, addr) == Errors(s.sent, addr) + (if IsWrite(e, addr) then 1 else 0)
  {
    StepSends(s, e);
    if e.Received? && Opcode(e.data) == OPCODE_WRQ {
      var packet := ErrorPacket(ERR_ACCESS_VIOLATION, WRITE_NOT_ALLOWED);
      OpcodeOf(OPCODE_ERROR, U16(ERR_ACCESS_VIOLATION) + WRITE_NOT_ALLOWED + [0]);
      assert packet == U16(OPCODE_ERROR) + (U16(ERR_ACCESS_VIOLATION) + WRITE_NOT_ALLOWED + [0]);
      ErrorsOfMore(s.sent, (e.addr, packet), addr);
    } else if Step(s, e).sent != s.sent {
      var last: (Addr, bytes) :| Slot(last.1) >= 0 && Step(s, e).sent == s.sent + [last];
      ErrorsOfMore(s.sent, last, addr);
    }
  }

  lemma {:induction false} ErrorsOfRun(s: Server, events: seq<Event>, addr: Addr)
    requires s.Valid() && CarriesPackets(s) && Possible(s, events)
    ensures Errors(After(s, events).sent, addr) == Errors(s.sent, addr) + Count(events, e => IsWrite(e, addr))
    decreases |events|
  {
    if |events| > 0 {
      StepValid(s, events[0]);
      ErrorsOfStep(s, events[0], addr);
      UnfiredOfStep(s, events[0], addr);
      ErrorsOfRun(Step(s, events[0]), events[1..], addr);
    }
  }

  /** Over every run an address is sent as many ERROR packets as write requests came from it. */
  lemma EveryWriteIsRefused(events: seq<Event>, addr: Addr)
    requires Possible(INITIAL, events)
    ensures Errors(After(INITIAL, events).sent, addr) == Count(events, e => IsWrite(e, addr))
  {
    ErrorsOfRun(INITIAL, events, addr);
  }

  /** Read requests of an address that are still being resolved. */
  function Waiting(jobs: seq<Job>, addr: Addr): nat {
    if |jobs| == 0 then 0 else Waiting(jobs[..|jobs| - 1], addr) + (if jobs[|jobs| - 1].addr == addr then 1 else 0)
  }

  lemma {:induction false} WaitingWithout(jobs: seq<Job>, i: nat, addr: Addr)
    requires i < |jobs|
    ensures Waiting(Without(jobs, i), addr) == Waiting(jobs, addr) - (if jobs[i].addr == addr then 1 else 0)
  {
    var n := |jobs| - 1;
    if i == n {
      assert Without(jobs, i) == jobs[..n];
    } else {
      WaitingWithout(jobs[..n], i, addr);
      assert Without(jobs, i)[..n - 1] == Without(jobs[..n], i) && Without(jobs, i)[n - 1] == jobs[n];
    }
  }

  /** How many of the events are the resolution of a read request of this address. */
  ghost function Resolutions(s: Server, events: seq<Event>, addr: Addr): nat
    requires s.Valid() && Possible(s, events)
    decreases |events|
  {
    if |events| == 0 then 0
    else
      StepValid(s, events[0]);
      (if events[0].Resolved? && s.jobs[events[0].job].addr == addr then 1 else 0)
      + Resolutions(Step(s, events[0]), events[1..], addr)
  }

  lemma WaitingOfStep(s: Server, e: Event, addr: Addr)
    requires s.Valid() && Enabled(s, e)
    ensures Waiting(Step(s, e).jobs, addr) == Waiting(s.jobs, addr) + (if IsRead(e, addr) then 1 else 0)
              - (if e.Resolved? && s.jobs[e.job].addr == addr then 1 else 0)
  {
    match e
    case Received(from, data) =>
      if Opcode(data) == OPCODE_RRQ { assert Step(s, e).jobs[..|s.jobs|] == s.jobs; }
    case Resolved(i, _) => WaitingWithout(s.jobs, i, addr);
    case TimerFired(_) =>
  }

  lemma {:induction false} WaitingOfRun(s: Server, events: seq<Event>, addr: Addr)
    requires s.Valid() && Possible(s, events)
    ensures Waiting(After(s, events).jobs, addr) + Resolutions(s, events, addr)
         == Waiting(s.jobs, addr) + Count(events, e => IsRead(e, addr))
    decreases |events|
  {
    if |events| > 0 {
      StepValid(s, events[0]);
      WaitingOfStep(s, events[0], addr);
      WaitingOfRun(Step(s, events[0]), events[1..], addr);
    }
  }

  /** Over every run the read requests of an address are those resolved, once each, and those waiting. */
  lemma EveryReadIsResolvedOnce(events: seq<Event>, addr: Addr)
    requires Possible(INITIAL, events)
    ensures Count(events, e => IsRead(e, addr))
         == Resolutions(INITIAL, events, addr) + Waiting(After(INITIAL, events).jobs, addr)
  {
    WaitingOfRun(INITIAL, events, addr);
  }

  // ---------- one timer per live transfer ----------

  /** A live transfer has exactly one armed timer, the one its handle names, and that timer carries
      the packet the transfer waits on; an address without a transfer has no timer. */
  ghost predicate Disciplined(s: Server, addr: Addr) {
    if addr in s.transfers then
      && addr in s.handles && s.handles[addr] in s.armed
      && s.transfers[addr].pending <= MAX_BLOCK
      && s.armed[s.handles[addr]].packet == PendingPacket(s.transfers[addr])
      && forall id :: id in s.armed && s.armed[id].addr == addr ==> id == s.handles[addr]
    else
      forall id :: id in s.armed ==> s.armed[id].addr != addr
  }

  /** The acknowledgement is not of the pending block, or is of block 65535 and more must follow. */
  predicate LeadsNowhere(t: TransferState, block: block16) {
    block != t.pending || (block == MAX_BLOCK && |t.payload| >= MAX_BLOCK * t.blockSize)
  }

  lemma LeadsNowhereIff(t: TransferState, block: block16)
    requires t.Valid()
    ensures LeadsNowhere(t, block) <==> Acknowledge(t, block).1.Ignored? || Acknowledge(t, block).1.Overflow?
  {
    if block == t.pending && block > 0 { FullOrShort(t.payload, t.blockSize, block); }
  }

  /** The three events that break the pairing for a live transfer: an acknowledgement that leads
      nowhere, a datagram that is neither a request nor an acknowledgement, and the beginning of
      another transfer for the same address. */
  predicate Breaks(s: Server, e: Event, addr: Addr)
    requires s.Valid() && Enabled(s, e)
  {
    && addr in s.transfers
    && match e
       case Received(from, data) =>
         && from == addr
         && Opcode(data) != OPCODE_RRQ && Opcode(data) != OPCODE_WRQ
         && (Opcode(data) == OPCODE_ACK ==> LeadsNowhere(s.transfers[addr], BlockNumber(data)))
       case Resolved(_, _) => Begins(s, e, addr)
       case TimerFired(_) => false
  }

  lemma CancelOther(s: Server, from: Addr, addr: Addr)
    requires s.Valid() && Disciplined(s, addr) && from != addr
    ensures Disciplined(CancelRetransmit(s, from), addr)
  {
    assert from in s.handles ==> s.armed[s.handles[from]].addr != addr;
  }

  lemma SendToOther(s: Server, to: Addr, packet: bytes, addr: Addr)
    requires Disciplined(s, addr) && to != addr && forall id :: id in s.armed ==> id < s.nextCall
    ensures Disciplined(SendAndArm(s, to, packet, 0), addr)
  {
  }

  lemma OtherAckDiscipline(s: Server, block: block16, from: Addr, addr: Addr)
    requires s.Valid() && Disciplined(s, addr) && from != addr
    ensures Disciplined(HandleAck(s, block, from), addr)
  {
    if from in s.transfers {
      CancelOther(s, from, addr);
      var (t, reply) := Acknowledge(s.transfers[from], block);
      var c := CancelRetransmit(s, from).(transfers := s.transfers[from := t]);
      if reply.Packet? { SendToOther(c, from, reply.packet, addr); }
    }
  }

  lemma DisciplineOfAck(s: Server, block: block16, from: Addr, addr: Addr)
    requires s.Valid() && Disciplined(s, addr)
    ensures Disciplined(HandleAck(s, block, from), addr) <==>
            !(from == addr && addr in s.transfers && LeadsNowhere(s.transfers[addr], block))
  {
    if addr in s.transfers { LeadsNowhereIff(s.transfers[addr], block); }
    if from != addr {
      OtherAckDiscipline(s, block, from, addr);
    } else if addr in s.transfers {
      var c := CancelRetransmit(s, addr);
      assert forall id :: id in c.armed ==> c.armed[id].addr != addr;
      assert addr !in c.handles;
    }
  }

  lemma ResolveDiscipline(s: Server, e: Event, addr: Addr)
    requires s.Valid() && e.Resolved? && Enabled(s, e) && Disciplined(s, addr)
    ensures Disciplined(Step(s, e), addr) <==> !(addr in s.transfers && Begins(s, e, addr))
  {
    if addr in s.transfers && Begins(s, e, addr) {
      var first := s.handles[addr];
      assert first in Step(s, e).armed && Step(s, e).armed[first].addr == addr && Step(s, e).handles[addr] != first;
    }
  }

  lemma FireDiscipline(s: Server, id: nat, addr: Addr)
    requires s.Valid() && id in s.armed && Disciplined(s, addr)
    ensures Disciplined(Fire(s, id), addr)
  {
  }

  /** The pairing is kept by every event except, exactly, the three kinds in `Breaks`. */
  lemma TimerDiscipline(s: Server, e: Event, addr: Addr)
    requires s.Valid() && Enabled(s, e) && Disciplined(s, addr)
    ensures Disciplined(Step(s, e), addr) <==> !Breaks(s, e, addr)
  {
    match e
    case Received(from, data) => DisciplineOfAck(s, BlockNumber(data), from, addr);
    case Resolved(_, _) => ResolveDiscipline(s, e, addr);
    case TimerFired(id) => FireDiscipline(s, id, addr);
  }

  /** No event of the run is one of the three kinds for this address. */
  ghost predicate Unbroken(s: Server, events: seq<Event>, addr: Addr)
    requires s.Valid() && Possible(s, events)
    decreases |events|
  {
    |events| == 0 || (!Breaks(s, events[0], addr) && (StepValid(s, events[0]); Unbroken(Step(s, events[0]), events[1..], addr)))
  }

  lemma {:induction false} DisciplineOfRun(s: Server, events: seq<Event>, addr: Addr)
    requires s.Valid() && Possible(s, events) && Unbroken(s, events, addr) && Disciplined(s, addr)
    ensures Disciplined(After(s, events), addr)
    decreases |events|
  {
    if |events| > 0 {
      StepValid(s, events[0]);
      TimerDiscipline(s, events[0], addr);
      DisciplineOfRun(Step(s, events[0]), events[1..], addr);
    }
  }

  /** After every run without such an event the pairing holds: a transfer is live if and only if a timer
      of its address is armed, and then exactly one is, with the packet the transfer waits on. So once
      no timer is left, no transfer is. */
  lemma LiveIffOneTimer(events: seq<Event>, addr: Addr)
    requires Possible(INITIAL, events) && Unbroken(INITIAL, events, addr)
    ensures var end := After(INITIAL, events);
      && (addr in end.transfers <==> ArmedFor(end.armed, addr) != {})
      && (addr in end.transfers ==>
            && addr in end.handles && ArmedFor(end.armed, addr) == {end.handles[addr]}
            && end.transfers[addr].pending <= MAX_BLOCK
            && end.armed[end.handles[addr]].packet == PendingPacket(end.transfers[addr]))
  {
    DisciplineOfRun(INITIAL, events, addr);
    var end := After(INITIAL, events);
    if addr in end.transfers {
      assert end.handles[addr] in ArmedFor(end.armed, addr);
    }
  }

  /** Under the pairing a transfer leaves the table only by the acknowledgement of its last block
      or by its timer giving up on the fifth unanswered send. */
  lemma LeavesByDoneOrGiveUp(s: Server, e: Event, addr: Addr)
    requires s.Valid() && Enabled(s, e) && Disciplined(s, addr) && !Breaks(s, e, addr)
    requires addr in s.transfers && addr !in Step(s, e).transfers
    ensures (e.Received? && e.addr == addr && Opcode(e.data) == OPCODE_ACK
             && Acknowledge(s.transfers[addr], BlockNumber(e.data)).1.Finished?)
         || (e.TimerFired? && e.call == s.handles[addr] && s.armed[e.call].attempt == MAX_RETRANSMITS - 1)
  {
    match e
    case Received(from, data) => if Opcode(data) == OPCODE_ACK && from in s.transfers && from != addr {}
    case Resolved(_, _) =>
    case TimerFired(id) => assert s.armed[id].addr == addr;
  }

  /** The timer of an unanswered transfer fired again and again, until nothing is left to fire. */
  ghost function FireUntilGone(s: Server, addr: Addr): (end: Server)
    requires s.Valid() && Disciplined(s, addr)
    ensures end.Valid() && Disciplined(end, addr) && addr !in end.transfers
    decreases if addr in s.transfers then MAX_RETRANSMITS - s.armed[s.handles[addr]].attempt else 0
  {
    if addr !in s.transfers then s
    else
      var id := s.handles[addr];
      StepValid(s, TimerFired(id));
      TimerDiscipline(s, TimerFired(id), addr);
      FireUntilGone(Fire(s, id), addr)
  }

  function Repeat<T>(x: T, n: nat): seq<T> { if n == 0 then [] else [x] + Repeat(x, n - 1) }

  /** Left unanswered, a packet sent for the first time, so with attempt 0, is sent exactly four times more:
      five sends in all, after which the transfer is gone. */
  lemma {:induction false} UnansweredPacketIsSentFiveTimes(s: Server, addr: Addr)
    requires s.Valid() && Disciplined(s, addr) && addr in s.transfers
    ensures FireUntilGone(s, addr).sent
         == s.sent + Repeat((addr, PendingPacket(s.transfers[addr])), 4 - s.armed[s.handles[addr]].attempt)
    decreases MAX_RETRANSMITS - s.armed[s.handles[addr]].attempt
  {
    var id := s.handles[addr];
    StepValid(s, TimerFired(id));
    TimerDiscipline(s, TimerFired(id), addr);
    if s.armed[id].attempt + 1 < MAX_RETRANSMITS {
      UnansweredPacketIsSentFiveTimes(Fire(s, id), addr);
    }
  }
}
