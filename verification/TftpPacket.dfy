/** The TFTP packet codec of tftp.py (RFC 1350 section 5, RFC 2347, RFC 2348).
    Every function here is pure, as in the source. */
module TftpPacket {
  import opened Bytes

  const OPCODE_RRQ := 1
  const OPCODE_WRQ := 2
  const OPCODE_DATA := 3
  const OPCODE_ACK := 4
  const OPCODE_ERROR := 5
  const OPCODE_OACK := 6

  const ERR_ACCESS_VIOLATION := 2

  const DEFAULT_BLOCK_SIZE := 512
  const MIN_BLOCK_SIZE := 8
  const MAX_BLOCK_SIZE := 1468
  const MAX_BLOCK := 0xFFFF

  /** A block number as it travels: two bytes. */
  type block16 = n: nat | n <= MAX_BLOCK

  /** The text "blksize". */
  const BLKSIZE: bytes := [98, 108, 107, 115, 105, 122, 101]
  /** The text "write not allowed". */
  const WRITE_NOT_ALLOWED: bytes :=
    [119, 114, 105, 116, 101, 32, 110, 111, 116, 32, 97, 108, 108, 111, 119, 101, 100]

  type Options = map<bytes, bytes>

  function Pairs(fields: seq<bytes>): seq<(bytes, bytes)> {
    if |fields| < 2 then [] else [(fields[0], fields[1])] + Pairs(fields[2..])
  }

  /** `dict(pairs)`: a repeated key keeps its last value. */
  function Dict(pairs: seq<(bytes, bytes)>): Options {
    if |pairs| == 0 then map[]
    else Dict(pairs[..|pairs| - 1])[pairs[|pairs| - 1].0 := pairs[|pairs| - 1].1]
  }

  /** File name and options of a read request, opcode already removed. */
  function ParseRrq(payload: bytes): (bytes, Options) {
    var fields := Split(0, payload);
    (fields[0], Dict(Pairs(if |fields| < 3 then [] else fields[2..|fields| - 1])))
  }

  function OptionBody(options: seq<(bytes, bytes)>): bytes {
    if |options| == 0 then []
    else options[0].0 + [0] + (options[0].1 + [0] + OptionBody(options[1..]))
  }

  function OackPacket(options: seq<(bytes, bytes)>): bytes {
    U16(OPCODE_OACK) + OptionBody(options)
  }

  function DataPacket(block: nat, chunk: bytes): bytes
    requires block <= MAX_BLOCK
  {
    U16(OPCODE_DATA) + U16(block) + chunk
  }

  function ErrorPacket(code: nat, message: bytes): bytes
    requires code < 0x1_0000
  {
    U16(OPCODE_ERROR) + U16(code) + message + [0]
  }

  function Distance(a: int, b: int): nat { if a < b then b - a else a - b }

  /** The allowed size nearest to the one asked for, so that one itself if it is allowed.
      None stands for the ValueError that a non-numeric blksize raises. */
  function NegotiateBlockSize(requested: Options): (size: Option<nat>)
    ensures size.Some? && BLKSIZE in requested ==> 8 <= size.value <= 1468
    ensures BLKSIZE in requested && ParseInt(requested[BLKSIZE]).Some? && size.Some? ==>
              var asked := ParseInt(requested[BLKSIZE]).value;
              forall k | 8 <= k <= 1468 :: Distance(asked, size.value) <= Distance(asked, k)
    ensures size.Some? && BLKSIZE !in requested ==> size.value == 512
    ensures size.None? <==> BLKSIZE in requested && ParseInt(requested[BLKSIZE]).None?
  {
    if BLKSIZE !in requested then Some(DEFAULT_BLOCK_SIZE)
    else match ParseInt(requested[BLKSIZE])
      case None => None
      case Some(v) => Some(Max(MIN_BLOCK_SIZE, Min(v, MAX_BLOCK_SIZE)))
  }

  // ---------- reading packets back ----------

  function Opcode(data: bytes): nat { FromBigEndian(Slice(data, 0, 2)) }

  function BlockNumber(data: bytes): block16 { FromBigEndian(Slice(data, 2, 4)) }

  /** The request a client puts on the wire. */
  function RrqPacket(filename: bytes, mode: bytes, options: seq<(bytes, bytes)>): bytes {
    U16(OPCODE_RRQ) + (filename + [0] + (mode + [0] + OptionBody(options)))
  }

  function AckPacket(block: nat): bytes
    requires block <= MAX_BLOCK
  {
    U16(OPCODE_ACK) + U16(block)
  }

  lemma OpcodeOf(opcode: nat, rest: bytes)
    requires opcode < 0x1_0000
    ensures Opcode(U16(opcode) + rest) == opcode
    ensures (U16(opcode) + rest)[2..] == rest
  {
    assert Slice(U16(opcode) + rest, 0, 2) == U16(opcode);
    U16RoundTrip(opcode);
  }

  lemma DataPacketFields(block: nat, chunk: bytes)
    requires block <= MAX_BLOCK
    ensures Opcode(DataPacket(block, chunk)) == OPCODE_DATA
    ensures BlockNumber(DataPacket(block, chunk)) == block
    ensures DataPacket(block, chunk)[4..] == chunk
  {
    var p := DataPacket(block, chunk);
    assert p == U16(OPCODE_DATA) + (U16(block) + chunk);
    OpcodeOf(OPCODE_DATA, U16(block) + chunk);
    assert Slice(p, 2, 4) == U16(block);
    U16RoundTrip(block);
  }

  lemma AckPacketFields(block: nat)
    requires block <= MAX_BLOCK
    ensures Opcode(AckPacket(block)) == OPCODE_ACK
    ensures BlockNumber(AckPacket(block)) == block
  {
    OpcodeOf(OPCODE_ACK, U16(block));
    assert Slice(AckPacket(block), 2, 4) == U16(block);
    U16RoundTrip(block);
  }

  // ---------- the request codec inverts ----------

  predicate NulFree(options: seq<(bytes, bytes)>) {
    forall o :: o in options ==> 0 !in o.0 && 0 !in o.1
  }

  function Flatten(options: seq<(bytes, bytes)>): seq<bytes> {
    if |options| == 0 then [] else [options[0].0, options[0].1] + Flatten(options[1..])
  }

  lemma SplitTwo(first: bytes, second: bytes, tail: bytes)
    requires 0 !in first && 0 !in second
    ensures Split(0, first + [0] + (second + [0] + tail)) == [first, second] + Split(0, tail)
  {
    SplitFirst(0, second, tail);
    SplitFirst(0, first, second + [0] + tail);
    assert [first] + ([second] + Split(0, tail)) == [first, second] + Split(0, tail);
  }

  lemma {:induction false} SplitOptionBody(options: seq<(bytes, bytes)>)
    requires NulFree(options)
    ensures Split(0, OptionBody(options)) == Flatten(options) + [[]]
  {
    if |options| > 0 {
      assert options[0] in options;
      SplitOptionBody(options[1..]);
      SplitTwo(options[0].0, options[0].1, OptionBody(options[1..]));
      var pair := [options[0].0, options[0].1];
      assert pair + (Flatten(options[1..]) + [[]]) == pair + Flatten(options[1..]) + [[]];
    }
  }

  lemma {:induction false} PairsInvertsFlatten(options: seq<(bytes, bytes)>)
    ensures Pairs(Flatten(options)) == options
  {
    if |options| > 0 {
      PairsInvertsFlatten(options[1..]);
      assert Flatten(options)[2..] == Flatten(options[1..]);
    }
  }

  /** `parse_rrq` recovers the file name and, last value winning, the options of any request. */
  lemma RrqRoundTrip(filename: bytes, mode: bytes, options: seq<(bytes, bytes)>)
    requires 0 !in filename && 0 !in mode && NulFree(options)
    ensures Opcode(RrqPacket(filename, mode, options)) == OPCODE_RRQ
    ensures ParseRrq(RrqPacket(filename, mode, options)[2..]) == (filename, Dict(options))
  {
    var body := OptionBody(options);
    OpcodeOf(OPCODE_RRQ, filename + [0] + (mode + [0] + body));
    SplitOptionBody(options);
    PairsInvertsFlatten(options);
    SplitTwo(filename, mode, body);
    var fields := Split(0, filename + [0] + (mode + [0] + body));
    assert fields == [filename, mode] + Flatten(options) + [[]];
    assert fields[2..|fields| - 1] == Flatten(options);
    assert |fields| == 3 ==> Pairs([]) == options;
  }

  ghost predicate DistinctKeys(options: seq<(bytes, bytes)>) {
    forall i, j :: 0 <= i < j < |options| ==> options[i].0 != options[j].0
  }

  lemma {:induction false} DictHolds(options: seq<(bytes, bytes)>, i: nat)
    requires DistinctKeys(options) && i < |options|
    ensures options[i].0 in Dict(options) && Dict(options)[options[i].0] == options[i].1
  {
    var init := options[..|options| - 1];
    if i < |init| {
      assert init[i] == options[i];
      DictHolds(init, i);
    }
  }

  lemma {:induction false} DictKeys(options: seq<(bytes, bytes)>, k: bytes) returns (i: nat)
    requires k in Dict(options)
    ensures i < |options| && options[i].0 == k
  {
    var init := options[..|options| - 1];
    if k in Dict(init) {
      i := DictKeys(init, k);
    } else {
      i := |init|;
    }
  }

  lemma {:induction false} DictSize(options: seq<(bytes, bytes)>)
    requires DistinctKeys(options)
    ensures |Dict(options)| == |options|
  {
    if |options| > 0 {
      var init, last := options[..|options| - 1], options[|options| - 1];
      DictSize(init);
      if last.0 in Dict(init) {
        var i := DictKeys(init, last.0);
      }
    }
  }

  /** With distinct keys the dictionary holds exactly the listed options. */
  lemma DictRecovers(options: seq<(bytes, bytes)>)
    requires DistinctKeys(options)
    ensures forall i :: 0 <= i < |options| ==> options[i].0 in Dict(options) && Dict(options)[options[i].0] == options[i].1
    ensures forall k :: k in Dict(options) ==> exists i :: 0 <= i < |options| && options[i].0 == k
    ensures |Dict(options)| == |options|
  {
    DictSize(options);
    forall i | 0 <= i < |options|
      ensures options[i].0 in Dict(options) && Dict(options)[options[i].0] == options[i].1
    {
      DictHolds(options, i);
    }
    forall k | k in Dict(options)
      ensures exists i :: 0 <= i < |options| && options[i].0 == k
    {
      var i := DictKeys(options, k);
    }
  }

  /** The options an OACK body lists: the reader's side of `oack_packet`. */
  function ReadOptions(body: bytes): Options {
    var fields := Split(0, body);
    Dict(Pairs(fields[..|fields| - 1]))
  }

  lemma ReadOptionsInvertsBody(options: seq<(bytes, bytes)>)
    requires NulFree(options)
    ensures ReadOptions(OptionBody(options)) == Dict(options)
  {
    SplitOptionBody(options);
    PairsInvertsFlatten(options);
    var fields := Split(0, OptionBody(options));
    assert fields[..|fields| - 1] == Flatten(options);
  }

  lemma DictSingleton(key: bytes, value: bytes)
    ensures Dict([(key, value)]) == map[key := value]
  {
    var options := [(key, value)];
    assert options[..|options| - 1] == [];
    assert Dict([]) == map[];
  }

  function BlockSizeOack(size: nat): bytes { OackPacket([(BLKSIZE, PrintNat(size))]) }

  function ReadBlockSize(oack: bytes): Option<int> {
    var options := ReadOptions(Slice(oack, 2, |oack|));
    if BLKSIZE in options then ParseInt(options[BLKSIZE]) else None
  }

  lemma OackRoundTrip(size: nat)
    ensures Opcode(BlockSizeOack(size)) == OPCODE_OACK
    ensures ReadBlockSize(BlockSizeOack(size)) == Some(size)
  {
    var options := [(BLKSIZE, PrintNat(size))];
    var oack := BlockSizeOack(size);
    OpcodeOf(OPCODE_OACK, OptionBody(options));
    assert Slice(oack, 2, |oack|) == OptionBody(options);
    assert NulFree(options) by {
      assert forall d :: d in PrintNat(size) ==> IsDigit(d) && d != 0;
    }
    ReadOptionsInvertsBody(options);
    DictSingleton(BLKSIZE, PrintNat(size));
    ParseIntInvertsPrint(size);
  }

  /** The opcodes on the wire (RFC 1350 section 5, RFC 2347), and the 16-bit block number. */
  lemma OpcodesAre(filename: bytes, mode: bytes, options: seq<(bytes, bytes)>, block: block16, chunk: bytes)
    ensures RrqPacket(filename, mode, options)[..2] == [0, 1]
    ensures DataPacket(block, chunk)[..4] == [0, 3, block / 0x100, block % 0x100]
    ensures AckPacket(block) == [0, 4, block / 0x100, block % 0x100]
    ensures OackPacket(options)[..2] == [0, 6]
    ensures DataPacket(65535, chunk)[2..4] == [255, 255]
  {
  }

  lemma WordsSpelledOut()
    ensures BLKSIZE == Text("blksize") && WRITE_NOT_ALLOWED == Text("write not allowed")
  {
  }
}
