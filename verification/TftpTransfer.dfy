/** One file transfer: the `_Transfer` class of tftp.py, the value it stands for, and the block
    arithmetic behind it. */
module TftpTransfer {
  import opened Bytes
  import opened TftpPacket

  /** What `handle_ack` hands back. `Overflow` is the OverflowError of numbering block 65536,
      raised after the transfer has already advanced. */
  datatype AckReply = Packet(packet: bytes) | Ignored | Finished | Overflow

  /** The value of a transfer: the fields of the object. */
  datatype TransferState = TransferState(
    payload: bytes, blockSize: nat, pending: nat, sentChunks: map<nat, bytes>)
  {
    /** Holds from `first_packet` on: the pending block is recorded as it was sent. */
    ghost predicate Valid() {
      && blockSize >= 1
      && pending <= MAX_BLOCK + 1
      && (pending > 0 ==> pending in sentChunks && sentChunks[pending] == Chunk(payload, blockSize, pending))
    }
  }

  /** Block `block` of the payload, counting from 1. */
  function Chunk(payload: bytes, blockSize: nat, block: nat): bytes
    requires block >= 1
  {
    Slice(payload, (block - 1) * blockSize, (block - 1) * blockSize + blockSize)
  }

  /** The number of blocks RFC 1350 section 6 asks for: the last one is the first short one. */
  function BlockCount(length: nat, blockSize: nat): nat
    requires blockSize >= 1
  {
    length / blockSize + 1
  }

  function Begin(payload: bytes, blockSize: nat, useOack: bool): TransferState {
    if useOack then TransferState(payload, blockSize, 0, map[])
    else TransferState(payload, blockSize, 1, map[1 := Chunk(payload, blockSize, 1)])
  }

  function FirstPacket(payload: bytes, blockSize: nat, useOack: bool): bytes {
    if useOack then BlockSizeOack(blockSize) else DataPacket(1, Chunk(payload, blockSize, 1))
  }

  /** The packet a live transfer is waiting to have acknowledged. */
  function PendingPacket(t: TransferState): bytes
    requires t.pending <= MAX_BLOCK
  {
    if t.pending == 0 then BlockSizeOack(t.blockSize)
    else DataPacket(t.pending, Chunk(t.payload, t.blockSize, t.pending))
  }

  /** The effect of one ACK on a transfer. */
  function Acknowledge(t: TransferState, block: nat): (TransferState, AckReply)
    requires block == t.pending && block != 0 ==> block in t.sentChunks
  {
    if block != t.pending then (t, Ignored)
    else if block != 0 && |t.sentChunks[block]| < t.blockSize then (t, Finished)
    else
      var next := block + 1;
      var chunk := Chunk(t.payload, t.blockSize, next);
      var advanced := t.(sentChunks := t.sentChunks[next := chunk], pending := next);
      (advanced, if next <= MAX_BLOCK then Packet(DataPacket(next, chunk)) else Overflow)
  }

  class Transfer {
    const payload: bytes
    const blockSize: nat
    var pendingBlock: nat
    var sentChunks: map<nat, bytes>

    function State(): TransferState
      reads this
    {
      TransferState(payload, blockSize, pendingBlock, sentChunks)
    }

    constructor (payload: bytes, blockSize: nat, useOack: bool)
      ensures State() == TransferState(payload, blockSize, if useOack then 0 else 1, map[])
    {
      this.payload := payload;
      this.blockSize := blockSize;
      this.pendingBlock := if useOack then 0 else 1;
      this.sentChunks := map[];
    }

    method FirstPacketToSend() returns (packet: bytes)
      requires pendingBlock <= 1 && sentChunks == map[]
      modifies this
      ensures State() == Begin(payload, blockSize, old(pendingBlock) == 0)
      ensures packet == FirstPacket(payload, blockSize, old(pendingBlock) == 0)
    {
      if pendingBlock == 0 {
        return OackPacket([(BLKSIZE, PrintNat(blockSize))]);
      }
      var chunk := Chunk(payload, blockSize, 1);
      sentChunks := sentChunks[1 := chunk];
      packet := DataPacket(1, chunk);
    }

    method HandleAck(block: nat) returns (reply: AckReply)
      requires State().Valid()
      modifies this
      ensures (State(), reply) == Acknowledge(old(State()), block)
    {
      if block != pendingBlock {
        return Ignored;
      }
      if block != 0 && |sentChunks[block]| < blockSize {
        return Finished;
      }
      var nextBlock := block + 1;
      var chunk := Chunk(payload, blockSize, nextBlock);
      sentChunks := sentChunks[nextBlock := chunk];
      pendingBlock := nextBlock;
      if nextBlock > MAX_BLOCK {
        return Overflow;
      }
      reply := Packet(DataPacket(nextBlock, chunk));
    }
  }

  // ---------- block arithmetic ----------

  lemma Monotone(a: nat, b: nat, factor: nat)
    requires a <= b
    ensures a * factor <= b * factor
  {
  }

  lemma QuotientBound(length: nat, blockSize: nat, k: nat)
    requires blockSize >= 1
    ensures length < k * blockSize <==> length / blockSize < k
  {
    var q := length / blockSize;
    assert q * blockSize <= length < q * blockSize + blockSize;
    if q < k {
      Monotone(q + 1, k, blockSize);
      assert (q + 1) * blockSize == q * blockSize + blockSize;
    } else {
      Monotone(k, q, blockSize);
    }
  }

  /** Exactly the last block is short, and every block up to it starts inside the payload or at its end. */
  lemma ShortIffLast(payload: bytes, blockSize: nat, block: nat)
    requires blockSize >= 1 && 1 <= block <= BlockCount(|payload|, blockSize)
    ensures (block - 1) * blockSize <= |payload|
    ensures |Chunk(payload, blockSize, block)| < blockSize <==> block == BlockCount(|payload|, blockSize)
    ensures Chunk(payload, blockSize, block)
         == payload[(block - 1) * blockSize..Min(block * blockSize, |payload|)]
  {
    QuotientBound(|payload|, blockSize, block);
    QuotientBound(|payload|, blockSize, block - 1);
    assert block * blockSize == (block - 1) * blockSize + blockSize;
  }

  /** The first `n` blocks, one after the other. */
  function Blocks(payload: bytes, blockSize: nat, n: nat): bytes {
    if n == 0 then [] else Blocks(payload, blockSize, n - 1) + Chunk(payload, blockSize, n)
  }

  lemma NextBlock(payload: bytes, blockSize: nat, n: nat)
    requires blockSize >= 1 && 1 <= n <= BlockCount(|payload|, blockSize)
    ensures payload[..Min((n - 1) * blockSize, |payload|)] + Chunk(payload, blockSize, n)
         == payload[..Min(n * blockSize, |payload|)]
  {
    ShortIffLast(payload, blockSize, n);
    var lo, hi := (n - 1) * blockSize, Min(n * blockSize, |payload|);
    assert lo <= n * blockSize;
    assert payload[..lo] + payload[lo..hi] == payload[..hi];
  }

  lemma {:induction false} BlocksAreSlices(payload: bytes, blockSize: nat, n: nat)
    requires blockSize >= 1 && n <= BlockCount(|payload|, blockSize)
    ensures Blocks(payload, blockSize, n) == payload[..Min(n * blockSize, |payload|)]
  {
    if n > 0 {
      BlocksAreSlices(payload, blockSize, n - 1);
      NextBlock(payload, blockSize, n);
    }
  }

  /** Any number of blocks is a prefix of the payload; all of them are the payload. */
  lemma BlocksArePrefix(payload: bytes, blockSize: nat, n: nat)
    requires blockSize >= 1 && n <= BlockCount(|payload|, blockSize)
    ensures Blocks(payload, blockSize, n) <= payload
    ensures n == BlockCount(|payload|, blockSize) ==> Blocks(payload, blockSize, n) == payload
  {
    BlocksAreSlices(payload, blockSize, n);
    QuotientBound(|payload|, blockSize, n);
    assert payload[..|payload|] == payload;
  }

  lemma FullOrShort(payload: bytes, blockSize: nat, block: nat)
    requires blockSize >= 1 && block >= 1
    ensures |Chunk(payload, blockSize, block)| < blockSize <==> |payload| < block * blockSize
  {
    assert (block - 1) * blockSize + blockSize == block * blockSize;
    assert (block - 1) * blockSize >= 0;
  }

  // ---------- the acknowledgement run of one transfer ----------

  /** The transfer after a sequence of acknowledgements, each a 16-bit number. */
  function AcknowledgeAll(t: TransferState, acks: seq<block16>): (after: TransferState)
    requires t.Valid()
    ensures after.Valid() && after.payload == t.payload && after.blockSize == t.blockSize
  {
    if |acks| == 0 then t
    else Acknowledge(AcknowledgeAll(t, acks[..|acks| - 1]), acks[|acks| - 1]).0
  }

  /** The acknowledgements `from`, `from + 1`, up to but not including `to`. */
  function InOrder(from: nat, to: nat): seq<block16>
    requires to <= MAX_BLOCK + 1
  {
    if to <= from then [] else InOrder(from, to - 1) + [to - 1]
  }

  function FirstBlock(useOack: bool): nat { if useOack then 0 else 1 }

  /** Acknowledged in order, a transfer is waiting for block `n` after the acknowledgement of `n - 1`. */
  lemma {:induction false} InOrderAdvances(payload: bytes, blockSize: nat, useOack: bool, n: nat)
    requires blockSize >= 1 && FirstBlock(useOack) <= n <= MAX_BLOCK
    requires n <= BlockCount(|payload|, blockSize)
    ensures AcknowledgeAll(Begin(payload, blockSize, useOack), InOrder(FirstBlock(useOack), n)).pending == n
  {
    var acks := InOrder(FirstBlock(useOack), n);
    if n > FirstBlock(useOack) {
      InOrderAdvances(payload, blockSize, useOack, n - 1);
      assert acks[..|acks| - 1] == InOrder(FirstBlock(useOack), n - 1);
      if n > 1 {
        ShortIffLast(payload, blockSize, n - 1);
      }
    }
  }

  ghost predicate CanReply(t: TransferState, reply: AckReply)
    requires t.Valid()
  {
    exists acks: seq<block16>, block: block16 :: Acknowledge(AcknowledgeAll(t, acks), block).1 == reply
  }

  lemma RepliesOfATransfer(t: TransferState, block: block16)
    requires t.Valid()
    ensures Acknowledge(t, block).1 == Overflow ==> |t.payload| >= MAX_BLOCK * t.blockSize
    ensures Acknowledge(t, block).1 == Finished ==> |t.payload| < MAX_BLOCK * t.blockSize
  {
    if block == t.pending && block > 0 {
      FullOrShort(t.payload, t.blockSize, block);
      Monotone(block, MAX_BLOCK, t.blockSize);
    }
  }

  /** The 16-bit bound is sharp: some acknowledgement sequence drives a transfer into the
      OverflowError if and only if the payload fills 65535 blocks. */
  lemma OverflowIffTooLong(payload: bytes, blockSize: nat, useOack: bool)
    requires blockSize >= 1
    ensures CanReply(Begin(payload, blockSize, useOack), Overflow) <==> |payload| >= MAX_BLOCK * blockSize
  {
    var t := Begin(payload, blockSize, useOack);
    if |payload| >= MAX_BLOCK * blockSize {
      QuotientBound(|payload|, blockSize, MAX_BLOCK);
      InOrderAdvances(payload, blockSize, useOack, MAX_BLOCK);
      ShortIffLast(payload, blockSize, MAX_BLOCK);
      assert Acknowledge(AcknowledgeAll(t, InOrder(FirstBlock(useOack), MAX_BLOCK)), MAX_BLOCK).1 == Overflow;
    } else {
      forall acks, block: block16 ensures Acknowledge(AcknowledgeAll(t, acks), block).1 != Overflow {
        RepliesOfATransfer(AcknowledgeAll(t, acks), block);
      }
    }
  }

  /** And a transfer can be acknowledged to its end if and only if it stays below that bound. */
  lemma FinishIffShortEnough(payload: bytes, blockSize: nat, useOack: bool)
    requires blockSize >= 1
    ensures CanReply(Begin(payload, blockSize, useOack), Finished) <==> |payload| < MAX_BLOCK * blockSize
  {
    var t := Begin(payload, blockSize, useOack);
    if |payload| < MAX_BLOCK * blockSize {
      var n := BlockCount(|payload|, blockSize);
      QuotientBound(|payload|, blockSize, MAX_BLOCK);
      InOrderAdvances(payload, blockSize, useOack, n);
      ShortIffLast(payload, blockSize, n);
      assert Acknowledge(AcknowledgeAll(t, InOrder(FirstBlock(useOack), n)), n).1 == Finished;
    } else {
      forall acks, block: block16 ensures Acknowledge(AcknowledgeAll(t, acks), block).1 != Finished {
        RepliesOfATransfer(AcknowledgeAll(t, acks), block);
      }
    }
  }
}
