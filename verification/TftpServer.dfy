/** The per-address transfer and timer tables of tftp.py: the `TftpProtocol` class and the value
    its objects stand for. A worker thread resolving a file is a queued job; the reactor's clock
    is the set of armed calls, any of which may be the next to fire. */
module TftpServer {
  import opened Bytes
  import opened TftpPacket
  import opened TftpTransfer

  const MAX_RETRANSMITS := 5

  datatype Addr = Addr(host: bytes, port: nat)

  /** A pending `callLater` of the retransmission handler. */
  datatype Call = Call(addr: Addr, packet: bytes, attempt: nat)

  /** A read request whose payload is being resolved in a worker thread. */
  datatype Job = Job(addr: Addr, filename: bytes, options: Options)

  datatype Server = Server(
    transfers: map<Addr, TransferState>,
    handles: map<Addr, nat>,
    armed: map<nat, Call>,
    nextCall: nat,
    jobs: seq<Job>,
    sent: seq<(Addr, bytes)>)
  {
    /** What every reachable state satisfies, whatever arrives and in whatever order: a handle
        always names an armed timer of its own address, so `call.active()` is never false. */
    ghost predicate Valid() {
      && (forall a :: a in transfers ==> transfers[a].Valid())
      && (forall a :: a in handles ==> handles[a] in armed && armed[handles[a]].addr == a)
      && (forall id :: id in armed ==> id < nextCall && armed[id].attempt < MAX_RETRANSMITS)
    }
  }

  const INITIAL := Server(map[], map[], map[], 0, [], [])

  // ---------- the steps, on values ----------

  function SendAndArm(s: Server, addr: Addr, packet: bytes, attempt: nat): Server {
    s.(sent := s.sent + [(addr, packet)],
       armed := s.armed[s.nextCall := Call(addr, packet, attempt)],
       handles := s.handles[addr := s.nextCall],
       nextCall := s.nextCall + 1)
  }

  function CancelRetransmit(s: Server, addr: Addr): Server {
    if addr in s.handles then s.(handles := s.handles - {addr}, armed := s.armed - {s.handles[addr]}) else s
  }

  function HandleAck(s: Server, block: nat, addr: Addr): Server
    requires s.Valid()
  {
    if addr !in s.transfers then s
    else
      var (t, reply) := Acknowledge(s.transfers[addr], block);
      var c := CancelRetransmit(s, addr).(transfers := s.transfers[addr := t]);
      match reply
      case Packet(packet) => SendAndArm(c, addr, packet, 0)
      case Finished => c.(transfers := c.transfers - {addr})
      case Ignored => c
      case Overflow => c
  }

  function Datagram(s: Server, data: bytes, addr: Addr): Server
    requires s.Valid()
  {
    if Opcode(data) == OPCODE_WRQ then
      s.(sent := s.sent + [(addr, ErrorPacket(ERR_ACCESS_VIOLATION, WRITE_NOT_ALLOWED))])
    else if Opcode(data) == OPCODE_RRQ then
      var (filename, options) := ParseRrq(Slice(data, 2, |data|));
      s.(jobs := s.jobs + [Job(addr, filename, options)])
    else if Opcode(data) == OPCODE_ACK then HandleAck(s, BlockNumber(data), addr)
    else s.(transfers := s.transfers - {addr})
  }

  function Without<T>(s: seq<T>, i: nat): seq<T>
    requires i < |s|
  {
    s[..i] + s[i + 1..]
  }

  /** Job `i` comes back with the payload, or with None if resolving it raised. */
  function Resolve(s: Server, i: nat, payload: Option<bytes>): Server
    requires i < |s.jobs|
  {
    var job := s.jobs[i];
    var rest := s.(jobs := Without(s.jobs, i));
    var size := NegotiateBlockSize(job.options);
    if payload.None? || size.None? then rest
    else
      var useOack := job.options != map[];
      SendAndArm(rest.(transfers := rest.transfers[job.addr := Begin(payload.value, size.value, useOack)]),
        job.addr, FirstPacket(payload.value, size.value, useOack), 0)
  }

  function Fire(s: Server, id: nat): Server
    requires id in s.armed
  {
    var call := s.armed[id];
    var fired := s.(armed := s.armed - {id}, handles := s.handles - {call.addr});
    if call.attempt + 1 >= MAX_RETRANSMITS then fired.(transfers := fired.transfers - {call.addr})
    else SendAndArm(fired, call.addr, call.packet, call.attempt + 1)
  }

  datatype Event =
    | Received(addr: Addr, data: bytes)
    | Resolved(job: nat, payload: Option<bytes>)
    | TimerFired(call: nat)

  predicate Enabled(s: Server, e: Event) {
    match e
    case Received(_, _) => true
    case Resolved(job, _) => job < |s.jobs|
    case TimerFired(call) => call in s.armed
  }

  function Step(s: Server, e: Event): Server
    requires s.Valid() && Enabled(s, e)
  {
    match e
    case Received(addr, data) => Datagram(s, data, addr)
    case Resolved(job, payload) => Resolve(s, job, payload)
    case TimerFired(call) => Fire(s, call)
  }

  lemma CancelValid(s: Server, addr: Addr)
    requires s.Valid()
    ensures CancelRetransmit(s, addr).Valid()
  {
  }

  lemma SendValid(s: Server, addr: Addr, packet: bytes, attempt: nat)
    requires s.Valid() && attempt < MAX_RETRANSMITS
    ensures SendAndArm(s, addr, packet, attempt).Valid()
  {
  }

  lemma AckValid(s: Server, block: block16, addr: Addr)
    requires s.Valid()
    ensures HandleAck(s, block, addr).Valid()
  {
    if addr in s.transfers {
      var (t, reply) := Acknowledge(s.transfers[addr], block);
      CancelValid(s, addr);
      var c := CancelRetransmit(s, addr).(transfers := s.transfers[addr := t]);
      assert c.Valid();
      if reply.Packet? {
        SendValid(c, addr, reply.packet, 0);
      }
    }
  }

  lemma ResolveValid(s: Server, i: nat, payload: Option<bytes>)
    requires s.Valid() && i < |s.jobs|
    ensures Resolve(s, i, payload).Valid()
  {
    var size := NegotiateBlockSize(s.jobs[i].options);
    if payload.Some? && size.Some? {
      StartValid(s.(jobs := Without(s.jobs, i)), s.jobs[i].addr, payload.value, size.value, s.jobs[i].options != map[]);
    }
  }

  lemma StartValid(s: Server, addr: Addr, payload: bytes, blockSize: nat, useOack: bool)
    requires s.Valid() && blockSize >= 1
    ensures SendAndArm(s.(transfers := s.transfers[addr := Begin(payload, blockSize, useOack)]),
              addr, FirstPacket(payload, blockSize, useOack), 0).Valid()
  {
    var started := s.(transfers := s.transfers[addr := Begin(payload, blockSize, useOack)]);
    assert Begin(payload, blockSize, useOack).Valid();
    SendValid(started, addr, FirstPacket(payload, blockSize, useOack), 0);
  }

  lemma FireValid(s: Server, id: nat)
    requires s.Valid() && id in s.armed
    ensures Fire(s, id).Valid()
  {
    var call := s.armed[id];
    var fired := s.(armed := s.armed - {id}, handles := s.handles - {call.addr});
    assert fired.Valid();
    if call.attempt + 1 < MAX_RETRANSMITS {
      SendValid(fired, call.addr, call.packet, call.attempt + 1);
    }
  }

  lemma StepValid(s: Server, e: Event)
    requires s.Valid() && Enabled(s, e)
    ensures Step(s, e).Valid()
  {
    match e
    case Received(addr, data) => AckValid(s, BlockNumber(data), addr);
    case Resolved(job, payload) => ResolveValid(s, job, payload);
    case TimerFired(call) => FireValid(s, call);
  }

  /** A stored timer handle is always still active. */
  lemma HandlesAreActive(s: Server, addr: Addr)
    requires s.Valid() && addr in s.handles
    ensures s.handles[addr] in s.armed && CancelRetransmit(s, addr).armed.Keys == s.armed.Keys - {s.handles[addr]}
  {
  }

  // ---------- the object ----------

  class TftpProtocol {
    var transfers: map<Addr, Transfer>
    var retransmitCalls: map<Addr, nat>
    var armed: map<nat, Call>
    var nextCall: nat
    var jobs: seq<Job>
    var sent: seq<(Addr, bytes)>
    /** The states of the transfer objects. */
    ghost var states: map<Addr, TransferState>

    ghost function View(): Server
      reads this
    {
      Server(states, retransmitCalls, armed, nextCall, jobs, sent)
    }

    /** `states` describes the transfer objects, and no two addresses share one. */
    ghost predicate Linked()
      reads this, transfers.Values
    {
      && states.Keys == transfers.Keys
      && (forall a :: a in transfers ==> transfers[a].State() == states[a])
      && (forall a, b :: a in transfers && b in transfers && a != b ==> transfers[a] != transfers[b])
    }

    ghost predicate Valid()
      reads this, transfers.Values
    {
      Linked() && View().Valid()
    }

    constructor ()
      ensures Valid() && View() == INITIAL
    {
      transfers, retransmitCalls, armed := map[], map[], map[];
      nextCall, jobs, sent, states := 0, [], [], map[];
    }

    method DatagramReceived(data: bytes, addr: Addr)
      requires Valid()
      modifies this, transfers.Values
      ensures Valid() && View() == Datagram(old(View()), data, addr)
    {
      StepValid(View(), Received(addr, data));
      var opcode := FromBigEndian(Slice(data, 0, 2));
      if opcode == OPCODE_WRQ {
        sent := sent + [(addr, ErrorPacket(ERR_ACCESS_VIOLATION, WRITE_NOT_ALLOWED))];
      } else if opcode == OPCODE_RRQ {
        var (filename, options) := ParseRrq(Slice(data, 2, |data|));
        jobs := jobs + [Job(addr, filename, options)];
      } else if opcode == OPCODE_ACK {
        AckReceived(FromBigEndian(Slice(data, 2, 4)), addr);
      } else {
        PopTransfer(addr);
      }
    }

    method PopTransfer(addr: Addr)
      requires Linked()
      modifies this`transfers, this`states
      ensures Linked() && transfers.Values <= old(transfers.Values)
      ensures View() == old(View()).(transfers := old(states) - {addr})
    {
      transfers := transfers - {addr};
      states := states - {addr};
      assert forall t :: t in transfers.Values ==> t in old(transfers.Values);
    }

    method JobResolved(i: nat, payload: Option<bytes>)
      requires Valid() && i < |jobs|
      modifies this
      ensures Valid() && View() == Resolve(old(View()), i, payload)
    {
      ResolveValid(View(), i, payload);
      var job := jobs[i];
      jobs := jobs[..i] + jobs[i + 1..];
      var size := NegotiateBlockSize(job.options);
      if payload.Some? && size.Some? {
        StartTransfer(payload.value, job.addr, size.value, job.options != map[]);
      }
    }

    method StartTransfer(payload: bytes, addr: Addr, blockSize: nat, useOack: bool)
      requires Linked()
      modifies this
      ensures Linked()
      ensures View() == SendAndArm(
        old(View()).(transfers := old(View()).transfers[addr := Begin(payload, blockSize, useOack)]),
        addr, FirstPacket(payload, blockSize, useOack), 0)
    {
      var transfer := new Transfer(payload, blockSize, useOack);
      var packet := transfer.FirstPacketToSend();
      transfers := transfers[addr := transfer];
      states := states[addr := Begin(payload, blockSize, useOack)];
      SendAndArmRetransmit(addr, packet, 0);
    }

    method AckReceived(block: nat, addr: Addr)
      requires Valid() && block <= MAX_BLOCK
      modifies this, transfers.Values
      ensures Linked() && View() == HandleAck(old(View()), block, addr)
    {
      if addr !in transfers {
        return;
      }
      CancelTimer(addr);
      var reply := AcknowledgeAt(addr, block);
      if reply.Packet? {
        SendAndArmRetransmit(addr, reply.packet, 0);
      }
      if reply.Finished? {
        PopTransfer(addr);
      }
    }

    method AcknowledgeAt(addr: Addr, block: nat) returns (reply: AckReply)
      requires Linked() && addr in transfers && states[addr].Valid()
      modifies this`states, transfers[addr]
      ensures Linked()
      ensures states == old(states)[addr := Acknowledge(old(states)[addr], block).0]
      ensures reply == Acknowledge(old(states)[addr], block).1
    {
      reply := transfers[addr].HandleAck(block);
      states := states[addr := Acknowledge(states[addr], block).0];
    }

    method SendAndArmRetransmit(addr: Addr, packet: bytes, attempt: nat)
      requires Linked()
      modifies this`sent, this`armed, this`retransmitCalls, this`nextCall
      ensures Linked() && View() == SendAndArm(old(View()), addr, packet, attempt)
    {
      sent := sent + [(addr, packet)];
      armed := armed[nextCall := Call(addr, packet, attempt)];
      retransmitCalls := retransmitCalls[addr := nextCall];
      nextCall := nextCall + 1;
    }

    method RetransmitTimeout(id: nat)
      requires Valid() && id in armed
      modifies this
      ensures Valid() && View() == Fire(old(View()), id)
    {
      FireValid(View(), id);
      var call := TakeCall(id);
      if call.attempt + 1 >= MAX_RETRANSMITS {
        PopTransfer(call.addr);
      } else {
        SendAndArmRetransmit(call.addr, call.packet, call.attempt + 1);
      }
    }

    /** The reactor starts an armed call, whose handler first forgets its handle. */
    method TakeCall(id: nat) returns (call: Call)
      requires Linked() && id in armed
      modifies this`armed, this`retransmitCalls
      ensures Linked() && call == old(armed)[id]
      ensures View() == old(View()).(armed := old(armed) - {id}, handles := old(retransmitCalls) - {call.addr})
    {
      call := armed[id];
      armed := armed - {id};
      retransmitCalls := retransmitCalls - {call.addr};
    }

    method CancelTimer(addr: Addr)
      requires Linked()
      modifies this`armed, this`retransmitCalls
      ensures Linked() && View() == CancelRetransmit(old(View()), addr)
    {
      if addr in retransmitCalls {
        var call := retransmitCalls[addr];
        retransmitCalls := retransmitCalls - {addr};
        if call in armed {
          armed := armed - {call};
        }
      }
    }
  }
}
