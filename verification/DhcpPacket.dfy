/** The DHCP packet codec of dhcp/common.py (RFC 2131 section 2, RFC 2132 sections 2 and 3.1). */
module DhcpPacket {
  import opened Bytes

  const OPT_SUBNET_MASK: byte := 1
  const OPT_ROUTER: byte := 3
  const OPT_REQUESTED_IP: byte := 50
  const OPT_LEASE_TIME: byte := 51
  const OPT_MESSAGE_TYPE: byte := 53
  const OPT_SERVER_ID: byte := 54
  const OPT_VENDOR_CLASS: byte := 60
  const OPT_TFTP_SERVER_NAME: byte := 66
  const OPT_BOOTFILE_NAME: byte := 67
  const OPT_PAD: byte := 0
  const OPT_END: byte := 255

  const MSG_DISCOVER: byte := 1
  const MSG_OFFER: byte := 2
  const MSG_REQUEST: byte := 3
  const MSG_ACK: byte := 5

  /** The text "PXEClient". */
  const PXE_VENDOR_CLASS: bytes := [80, 88, 69, 67, 108, 105, 101, 110, 116]
  const MAGIC_COOKIE: bytes := [99, 130, 83, 99]
  const HEADER_LEN := 236
  const OPTIONS_START := 240

  type ip4 = b: bytes | |b| == 4 witness [0, 0, 0, 0]
  const ZERO_IP: ip4 := [0, 0, 0, 0]

  type OptionMap = map<byte, bytes>

  // ---------- the option field ----------

  function Drop(b: bytes, n: nat): bytes { if n <= |b| then b[n..] else [] }

  /** The option field read from its first byte on. None stands for the IndexError of an option
      code in the very last place; a value cut short by the end of the packet is accepted. */
  function ReadOptions(field: bytes, options: OptionMap): Option<OptionMap>
    decreases |field|
  {
    if |field| == 0 || field[0] == OPT_END then Some(options)
    else if field[0] == OPT_PAD then ReadOptions(field[1..], options)
    else if |field| == 1 then None
    else ReadOptions(Drop(field, field[1] as int + 2), options[field[0] := Slice(field, 2, field[1] as int + 2)])
  }

  lemma SuffixSteps(packet: bytes, i: nat, n: nat)
    requires i < |packet|
    ensures packet[i..][0] == packet[i] && Drop(packet, i) == packet[i..]
    ensures Drop(packet[i..], n) == Drop(packet, i + n)
    ensures Slice(packet[i..], 2, n) == Slice(packet, i + 2, i + n)
  {
    assert n <= |packet[i..]| ==> packet[i..][n..] == packet[i + n..];
  }

  /** What the loop still has to read from index `i` on. */
  ghost function Rest(packet: bytes, i: nat, options: OptionMap): Option<OptionMap> {
    ReadOptions(Drop(packet, i), options)
  }

  lemma RestAtPad(packet: bytes, i: nat, options: OptionMap)
    requires i < |packet| && packet[i] == OPT_PAD
    ensures Rest(packet, i, options) == Rest(packet, i + 1, options)
  {
    SuffixSteps(packet, i, 1);
  }

  lemma RestAtOption(packet: bytes, i: nat, options: OptionMap, next: nat, after: OptionMap)
    requires i + 1 < |packet| && packet[i] != OPT_PAD && packet[i] != OPT_END
    requires next == i + 2 + packet[i + 1] as int && after == options[packet[i] := Slice(packet, i + 2, next)]
    ensures Rest(packet, i, options) == Rest(packet, next, after)
  {
    assert packet[i..][1] == packet[i + 1];
    SuffixSteps(packet, i, packet[i + 1] as int + 2);
  }

  method ParseRawOptions(packet: bytes) returns (r: Option<OptionMap>)
    ensures r == ReadOptions(Drop(packet, OPTIONS_START), map[])
  {
    var options: OptionMap := map[];
    var i := OPTIONS_START;
    ghost var goal := Rest(packet, i, options);
    while i < |packet| && packet[i] != OPT_END
      invariant i >= OPTIONS_START && Rest(packet, i, options) == goal
      decreases |packet| - i
    {
      if packet[i] == OPT_PAD {
        RestAtPad(packet, i, options);
        i := i + 1;
        continue;
      }
      if i + 1 >= |packet| {
        return None;
      }
      ghost var at, before := i, options;
      var opt := packet[i];
      var length: nat := packet[i + 1];
      options := options[opt := Slice(packet, i + 2, i + 2 + length)];
      i := i + 2 + length;
      RestAtOption(packet, at, before, i, options);
    }
    r := Some(options);
  }

  type optcode = b: byte | OPT_PAD < b < OPT_END witness 1
  type short = v: bytes | |v| <= 255 witness []

  /** One element of a well-formed option field (RFC 2132 section 2). */
  datatype Item = Pad | Opt(code: optcode, value: short)

  function EncodeItem(i: Item): bytes {
    match i
    case Pad => [OPT_PAD]
    case Opt(code, value) => [code, |value|] + value
  }

  function Encode(items: seq<Item>): bytes {
    if |items| == 0 then [] else EncodeItem(items[0]) + Encode(items[1..])
  }

  function Apply(i: Item, options: OptionMap): OptionMap {
    match i
    case Pad => options
    case Opt(code, value) => options[code := value]
  }

  /** Later options of the same code win. */
  function Meaning(items: seq<Item>, options: OptionMap): OptionMap {
    if |items| == 0 then options else Meaning(items[1..], Apply(items[0], options))
  }

  lemma ReadItem(i: Item, rest: bytes, options: OptionMap)
    ensures ReadOptions(EncodeItem(i) + rest, options) == ReadOptions(rest, Apply(i, options))
  {
    var field := EncodeItem(i) + rest;
    assert Drop(field, |EncodeItem(i)|) == rest;
    if i.Opt? {
      assert Slice(field, 2, |i.value| + 2) == i.value;
    }
  }

  lemma {:induction false} ReadThrough(items: seq<Item>, rest: bytes, options: OptionMap)
    ensures ReadOptions(Encode(items) + rest, options) == ReadOptions(rest, Meaning(items, options))
  {
    if |items| == 0 {
      assert Encode(items) + rest == rest;
    } else {
      assert Encode(items) + rest == EncodeItem(items[0]) + (Encode(items[1..]) + rest);
      ReadItem(items[0], Encode(items[1..]) + rest, options);
      ReadThrough(items[1..], rest, Apply(items[0], options));
    }
  }

  /** Reading inverts writing, with pads anywhere between options and anything at all after END;
      a missing END is tolerated. */
  lemma OptionsRoundTrip(items: seq<Item>, trailer: bytes)
    ensures ReadOptions(Encode(items) + ([OPT_END] + trailer), map[]) == Some(Meaning(items, map[]))
    ensures ReadOptions(Encode(items), map[]) == Some(Meaning(items, map[]))
  {
    ReadThrough(items, [OPT_END] + trailer, map[]);
    ReadThrough(items, [], map[]);
    assert Encode(items) + [] == Encode(items);
  }

  ghost predicate LoneCode(field: bytes, items: seq<Item>, code: optcode) {
    field == Encode(items) + [code]
  }

  /** The IndexError happens exactly when whole options are followed by one lone option code. */
  lemma IndexErrorIff(field: bytes)
    ensures ReadOptions(field, map[]).None? <==> exists items, code :: LoneCode(field, items, code)
  {
    if items: seq<Item>, code: optcode :| LoneCode(field, items, code) {
      ReadThrough(items, [code], map[]);
    }
    if ReadOptions(field, map[]).None? {
      var items, code := LoneCodeOf(field, map[]);
    }
  }

  /** A field with a whole first element, taken apart. */
  lemma FirstItem(field: bytes) returns (first: Item, rest: bytes)
    requires |field| > 0 && field[0] != OPT_END
    requires field[0] == OPT_PAD || (|field| > 1 && field[1] as int + 2 <= |field|)
    ensures field == EncodeItem(first) + rest
  {
    if field[0] == OPT_PAD {
      first, rest := Pad, field[1..];
    } else {
      var n := field[1] as int + 2;
      first, rest := Opt(field[0], field[2..n]), field[n..];
      assert field[..n] == [field[0], field[1]] + field[2..n];
    }
  }

  lemma LoneCodeCons(first: Item, items: seq<Item>, code: optcode, rest: bytes)
    requires LoneCode(rest, items, code)
    ensures LoneCode(EncodeItem(first) + rest, [first] + items, code)
  {
    assert ([first] + items)[1..] == items;
    assert EncodeItem(first) + (Encode(items) + [code]) == EncodeItem(first) + Encode(items) + [code];
  }

  lemma {:induction false} LoneCodeOf(field: bytes, options: OptionMap) returns (items: seq<Item>, code: optcode)
    requires ReadOptions(field, options).None?
    ensures LoneCode(field, items, code)
    decreases |field|
  {
    if |field| == 1 {
      items, code := [], field[0];
    } else {
      var first, rest := FirstItem(field);
      ReadItem(first, rest, options);
      items, code := LoneCodeOf(rest, Apply(first, options));
      LoneCodeCons(first, items, code, rest);
      items := [first] + items;
    }
  }

  // ---------- reading a request ----------

  datatype Request = Request(
    messageType: Option<byte>,
    xid: bytes,
    chaddr: bytes,
    clientMac: bytes,
    vendorClass: Option<bytes>,
    requestedIp: Option<bytes>,
    giaddr: bytes,
    broadcast: bool)

  /** `":".join(f"{b:02x}" for b in chaddr[:6])` */
  function RenderMac(hardware: bytes): bytes {
    if |hardware| == 0 then []
    else if |hardware| == 1 then Hex2(hardware[0])
    else Hex2(hardware[0]) + [COLON] + RenderMac(hardware[1..])
  }

  lemma {:induction false} RenderMacInjective(a: bytes, b: bytes)
    requires RenderMac(a) == RenderMac(b)
    ensures a == b
  {
    if |a| > 0 && |b| > 0 {
      assert RenderMac(a)[..2] == Hex2(a[0]) && RenderMac(b)[..2] == Hex2(b[0]);
      Hex2Injective(a[0], b[0]);
      if |a| > 1 && |b| > 1 {
        assert RenderMac(a)[3..] == RenderMac(a[1..]) && RenderMac(b)[3..] == RenderMac(b[1..]);
        RenderMacInjective(a[1..], b[1..]);
      }
    }
  }

  function Get(options: OptionMap, code: byte): Option<bytes> {
    if code in options then Some(options[code]) else None
  }

  /** None stands for an IndexError: a lone option code, or an empty message type option. */
  function ParseRequest(packet: bytes): Option<Request> {
    var options := ReadOptions(Drop(packet, OPTIONS_START), map[]);
    if options.None? || Get(options.value, OPT_MESSAGE_TYPE) == Some([]) then None
    else
      var messageType := Get(options.value, OPT_MESSAGE_TYPE);
      var chaddr := Slice(packet, 28, 44);
      Some(Request(
        if messageType.None? then None else Some(messageType.value[0]),
        Slice(packet, 4, 8),
        chaddr,
        RenderMac(Slice(chaddr, 0, 6)),
        Get(options.value, OPT_VENDOR_CLASS),
        Get(options.value, OPT_REQUESTED_IP),
        Slice(packet, 24, 28),
        FromBigEndian(Slice(packet, 10, 12)) >= 0x8000))
  }

  /** A request that names its message type is long enough for its fixed fields to be whole. */
  lemma TypedRequestsAreWhole(packet: bytes)
    requires ParseRequest(packet).Some? && ParseRequest(packet).value.messageType.Some?
    ensures var r := ParseRequest(packet).value; |r.xid| == 4 && |r.chaddr| == 16 && |r.giaddr| == 4
    ensures ParseRequest(packet).value.clientMac == RenderMac(packet[28..34])
  {
    var field := Drop(packet, OPTIONS_START);
    assert |field| > 0;
    assert Slice(Slice(packet, 28, 44), 0, 6) == packet[28..34];
  }

  /** The broadcast flag is the top bit of the flags field, and clear if the field is cut short. */
  lemma BroadcastIsTheTopBit(packet: bytes)
    requires ParseRequest(packet).Some?
    ensures ParseRequest(packet).value.broadcast <==> |packet| >= 12 && packet[10] >= 0x80
  {
    var flags := Slice(packet, 10, 12);
    if |packet| >= 12 {
      assert flags == [packet[10], packet[11]];
      BigEndian(packet[10], packet[11], 0, 0);
    } else if |packet| == 11 {
      assert flags == [packet[10]];
      BigEndian(packet[10], 0, 0, 0);
    }
  }

  predicate IsPxeClient(request: Request) { request.vendorClass == Some(PXE_VENDOR_CLASS) }

  // ---------- addresses as text ----------

  function Quads(b: bytes): seq<bytes> { if |b| == 0 then [] else [PrintNat(b[0])] + Quads(b[1..]) }

  /** `".".join(str(b) for b in addr)` */
  function BytesToIp(addr: bytes): bytes { Join(DOT, Quads(addr)) }

  function ParseQuads(parts: seq<bytes>): Option<bytes> {
    if |parts| == 0 then Some([])
    else
      var first, rest := ParseInt(parts[0]), ParseQuads(parts[1..]);
      if first.None? || rest.None? || !(0 <= first.value < 256) then None else Some([first.value] + rest.value)
  }

  /** `bytes(int(part) for part in ip.split("."))`; None stands for ValueError. */
  function IpToBytes(ip: bytes): Option<bytes> { ParseQuads(Split(DOT, ip)) }

  lemma {:induction false} QuadsRoundTrip(b: bytes)
    ensures ParseQuads(Quads(b)) == Some(b)
    ensures forall q :: q in Quads(b) ==> DOT !in q
    ensures |Quads(b)| == |b|
  {
    if |b| > 0 {
      QuadsRoundTrip(b[1..]);
      ParseIntInvertsPrint(b[0]);
      assert forall d :: d in PrintNat(b[0]) ==> IsDigit(d) && d != DOT;
      assert Quads(b)[1..] == Quads(b[1..]);
      assert b == [b[0]] + b[1..];
    }
  }

  lemma IpRoundTrip(addr: bytes)
    requires |addr| > 0
    ensures IpToBytes(BytesToIp(addr)) == Some(addr)
  {
    QuadsRoundTrip(addr);
    SplitInvertsJoin(DOT, Quads(addr));
  }

  lemma AddressesSpelledOut()
    ensures PXE_VENDOR_CLASS == Text("PXEClient")
    ensures RenderMac([0, 10, 159, 255]) == Text("00:0a:9f:ff")
    ensures BytesToIp([10, 0, 2, 1]) == Text("10.0.2.1")
  {
    MacSpelledOut();
    QuadsSpelledOut();
    var quads := Quads([10, 0, 2, 1]);
    assert Join(DOT, quads[3..]) == Text("1");
    assert Join(DOT, quads[2..]) == Text("2.1") by { assert quads[2..][1..] == quads[3..]; }
    assert Join(DOT, quads[1..]) == Text("0.2.1") by { assert quads[1..][1..] == quads[2..]; }
    assert Join(DOT, quads) == Text("10.0.2.1");
  }

  lemma MacSpelledOut()
    ensures RenderMac([0, 10, 159, 255]) == Text("00:0a:9f:ff")
  {
    assert RenderMac([255]) == Text("ff");
    assert [159, 255][1..] == [255] && RenderMac([159, 255]) == Hex2(159) + [COLON] + RenderMac([255]);
    assert RenderMac([159, 255]) == Text("9f:ff");
    assert [10, 159, 255][1..] == [159, 255] && RenderMac([10, 159, 255]) == Hex2(10) + [COLON] + RenderMac([159, 255]);
    assert RenderMac([10, 159, 255]) == Text("0a:9f:ff");
    assert [0, 10, 159, 255][1..] == [10, 159, 255];
    assert RenderMac([0, 10, 159, 255]) == Hex2(0) + [COLON] + RenderMac([10, 159, 255]);
  }

  lemma QuadsSpelledOut()
    ensures Quads([10, 0, 2, 1]) == [Text("10"), Text("0"), Text("2"), Text("1")]
  {
    assert PrintNat(10) == PrintNat(1) + [48] == Text("10");
    assert PrintNat(0) == Text("0") && PrintNat(2) == Text("2") && PrintNat(1) == Text("1");
    assert [10, 0, 2, 1][1..] == [0, 2, 1] && [0, 2, 1][1..] == [2, 1] && [2, 1][1..] == [1];
    assert Quads([1]) == [PrintNat(1)] + Quads([]);
    assert Quads([2, 1]) == [PrintNat(2)] + Quads([1]);
    assert Quads([0, 2, 1]) == [PrintNat(0)] + Quads([2, 1]);
    assert Quads([10, 0, 2, 1]) == [PrintNat(10)] + Quads([0, 2, 1]);
  }

  const DHCP_SERVER_PORT := 67
  const DHCP_CLIENT_PORT := 68
  const LIMITED_BROADCAST: ip4 := [255, 255, 255, 255]

  /** Where a reply goes (RFC 2131 section 4.1): the relay, everyone, or back where it came from. */
  function ReplyDestination(request: Request, receivedFrom: (bytes, nat)): (bytes, nat) {
    if request.giaddr != ZERO_IP then (BytesToIp(request.giaddr), DHCP_SERVER_PORT)
    else if request.broadcast then (BytesToIp(LIMITED_BROADCAST), DHCP_CLIENT_PORT)
    else receivedFrom
  }

  /** The address of the relay, the limited broadcast address, or the sender, each with its port. */
  lemma DestinationIs(request: Request, receivedFrom: (bytes, nat))
    requires |request.giaddr| == 4
    ensures var (host, port) := ReplyDestination(request, receivedFrom);
      if request.giaddr != [0, 0, 0, 0] then IpToBytes(host) == Some(request.giaddr) && port == 67
      else if request.broadcast then IpToBytes(host) == Some([255, 255, 255, 255]) && port == 68
      else (host, port) == receivedFrom
  {
    IpRoundTrip(request.giaddr);
    IpRoundTrip(LIMITED_BROADCAST);
  }

  // ---------- writing a reply ----------

  datatype Reply = Reply(
    messageType: byte, xid: ip4, chaddr: bytes, yiaddr: ip4, siaddr: ip4, serverId: ip4, bootFilename: bytes,
    leaseSeconds: Option<nat>, subnetMask: Option<ip4>, router: Option<ip4>, pxe: bool, giaddr: ip4)

  function Header(r: Reply): (h: bytes)
    ensures |h| == HEADER_LEN
  {
    [2, 1, 6, 0] + r.xid + Zeros(2) + Zeros(2) + Zeros(4) + r.yiaddr + r.siaddr + r.giaddr
    + Fit(r.chaddr, 16) + Zeros(64) + Fit(r.bootFilename, 128)
  }

  /** The reply can be put into bytes: lengths fit one byte and the lease fits four. */
  predicate Encodable(r: Reply) {
    && (r.leaseSeconds.Some? ==> r.leaseSeconds.value < 0x1_0000_0000)
    && (r.pxe ==> |r.bootFilename| <= 254)
  }

  lemma {:induction false} JoinLength(fields: seq<bytes>)
    requires forall f :: f in fields ==> |f| <= 3
    ensures |Join(DOT, fields)| <= 4 * |fields|
  {
    if |fields| > 1 { JoinLength(fields[1..]); }
  }

  lemma ShortDecimal(b: byte)
    ensures |PrintNat(b)| <= 3
  {
    assert |PrintNat(b / 10)| <= 2 by {
      assert |PrintNat(b / 10 / 10)| == 1;
    }
  }

  lemma {:induction false} QuadsAreShort(b: bytes)
    ensures forall q :: q in Quads(b) ==> |q| <= 3
  {
    if |b| > 0 {
      QuadsAreShort(b[1..]);
      ShortDecimal(b[0]);
    }
  }

  lemma DottedLength(addr: ip4)
    ensures |BytesToIp(addr)| <= 16
  {
    QuadsRoundTrip(addr);
    QuadsAreShort(addr);
    JoinLength(Quads(addr));
  }

  function LeaseItems(r: Reply): seq<Item>
    requires r.leaseSeconds.Some? ==> r.leaseSeconds.value < 0x1_0000_0000
  {
    if r.leaseSeconds.Some? then [Opt(OPT_LEASE_TIME, U32(r.leaseSeconds.value))] else []
  }

  function AddressItems(code: optcode, address: Option<ip4>): seq<Item>
  {
    if address.Some? then [Opt(code, address.value)] else []
  }

  function PxeItems(r: Reply): seq<Item>
    requires Encodable(r)
  {
    DottedLength(r.siaddr);
    if r.pxe then
      [Opt(OPT_VENDOR_CLASS, PXE_VENDOR_CLASS), Opt(OPT_TFTP_SERVER_NAME, BytesToIp(r.siaddr)),
       Opt(OPT_BOOTFILE_NAME, r.bootFilename + [0])]
    else []
  }

  /** The options of a reply, as the list of items they encode. */
  function ReplyItems(r: Reply): seq<Item>
    requires Encodable(r)
  {
    [Opt(OPT_MESSAGE_TYPE, [r.messageType]), Opt(OPT_SERVER_ID, r.serverId)]
    + LeaseItems(r) + AddressItems(OPT_SUBNET_MASK, r.subnetMask) + AddressItems(OPT_ROUTER, r.router) + PxeItems(r)
  }

  lemma Associate(a: bytes, b: bytes, c: bytes)
    ensures a + (b + c) == a + b + c
  {
  }

  lemma EncodeHead(a: seq<Item>, b: seq<Item>)
    requires |a| > 0
    ensures Encode(a + b) == EncodeItem(a[0]) + Encode(a[1..] + b)
  {
    assert (a + b)[0] == a[0] && (a + b)[1..] == a[1..] + b;
  }

  lemma {:induction false} EncodeAppend(a: seq<Item>, b: seq<Item>)
    ensures Encode(a + b) == Encode(a) + Encode(b)
  {
    if |a| == 0 {
      assert a + b == b;
    } else {
      EncodeAppend(a[1..], b);
      EncodeHead(a, b);
      Associate(EncodeItem(a[0]), Encode(a[1..]), Encode(b));
    }
  }

  lemma EncodeSingle(i: Item)
    ensures Encode([i]) == EncodeItem(i)
  {
    assert Encode([i]) == EncodeItem(i) + Encode([]);
  }

  method BuildPxeOptions(server: bytes, bootFilename: bytes) returns (r: Option<bytes>)
    ensures r.Some? <==> |server| <= 255 && |bootFilename| <= 254
    ensures r.Some? ==> r.value == Encode([Opt(OPT_TFTP_SERVER_NAME, server), Opt(OPT_BOOTFILE_NAME, bootFilename + [0])])
  {
    var filename := bootFilename + [0];
    if |server| > 255 || |filename| > 255 {
      return None;
    }
    var first, second := Opt(OPT_TFTP_SERVER_NAME, server), Opt(OPT_BOOTFILE_NAME, filename);
    EncodeSingle(first);
    EncodeSingle(second);
    EncodeAppend([first], [second]);
    assert [first] + [second] == [first, second];
    r := Some([OPT_TFTP_SERVER_NAME, |server|] + server + ([OPT_BOOTFILE_NAME, |filename|] + filename));
  }

  ghost function AddressOptions(r: Reply): bytes
    requires r.leaseSeconds.Some? ==> r.leaseSeconds.value < 0x1_0000_0000
  {
    Encode([Opt(OPT_MESSAGE_TYPE, [r.messageType])]) + Encode([Opt(OPT_SERVER_ID, r.serverId)]) + Encode(LeaseItems(r))
    + Encode(AddressItems(OPT_SUBNET_MASK, r.subnetMask)) + Encode(AddressItems(OPT_ROUTER, r.router))
  }

  method AddAddress(options: bytes, code: optcode, address: Option<ip4>) returns (r: bytes)
    ensures r == options + Encode(AddressItems(code, address))
  {
    r := options;
    if address.Some? {
      EncodeSingle(Opt(code, address.value));
      r := r + ([code, 4] + address.value);
    } else {
      assert options + [] == options;
    }
  }

  method AddLease(options: bytes, r: Reply) returns (added: Option<bytes>)
    ensures added.Some? <==> (r.leaseSeconds.Some? ==> r.leaseSeconds.value < 0x1_0000_0000)
    ensures added.Some? ==> added.value == options + Encode(LeaseItems(r))
  {
    if r.leaseSeconds.None? {
      assert options + [] == options;
      return Some(options);
    }
    if r.leaseSeconds.value >= 0x1_0000_0000 {
      return None;
    }
    EncodeSingle(Opt(OPT_LEASE_TIME, U32(r.leaseSeconds.value)));
    added := Some(options + ([OPT_LEASE_TIME, 4] + U32(r.leaseSeconds.value)));
  }

  /** The lines of `build_reply` that add options before the PXE ones. */
  method BuildAddressOptions(r: Reply) returns (options: Option<bytes>)
    ensures options.Some? <==> (r.leaseSeconds.Some? ==> r.leaseSeconds.value < 0x1_0000_0000)
    ensures options.Some? ==> options.value == AddressOptions(r)
  {
    var built: bytes := [OPT_MESSAGE_TYPE, 1, r.messageType];
    EncodeSingle(Opt(OPT_MESSAGE_TYPE, [r.messageType]));
    EncodeSingle(Opt(OPT_SERVER_ID, r.serverId));
    built := built + ([OPT_SERVER_ID, 4] + r.serverId);
    options := AddLease(built, r);
    if options.None? {
      return;
    }
    built := AddAddress(options.value, OPT_SUBNET_MASK, r.subnetMask);
    built := AddAddress(built, OPT_ROUTER, r.router);
    options := Some(built);
  }

  lemma EncodeReplyItems(r: Reply)
    requires Encodable(r)
    ensures Encode(ReplyItems(r)) == AddressOptions(r) + Encode(PxeItems(r))
  {
    var a: seq<Item>, b: seq<Item> := [Opt(OPT_MESSAGE_TYPE, [r.messageType])], [Opt(OPT_SERVER_ID, r.serverId)];
    var c, d, e := LeaseItems(r), AddressItems(OPT_SUBNET_MASK, r.subnetMask), AddressItems(OPT_ROUTER, r.router);
    assert ReplyItems(r) == a + b + c + d + e + PxeItems(r);
    EncodeAppend(a, b);
    EncodeAppend(a + b, c);
    EncodeAppend(a + b + c, d);
    EncodeAppend(a + b + c + d, e);
    EncodeAppend(a + b + c + d + e, PxeItems(r));
  }

  /** The PXE lines of `build_reply`, after which nothing but END is added. */
  method AddPxe(options: bytes, r: Reply) returns (added: Option<bytes>)
    requires r.leaseSeconds.Some? ==> r.leaseSeconds.value < 0x1_0000_0000
    ensures added.Some? <==> Encodable(r)
    ensures added.Some? ==> added.value == options + Encode(PxeItems(r))
  {
    if !r.pxe {
      assert options + [] == options;
      return Some(options);
    }
    DottedLength(r.siaddr);
    var pxeOptions := BuildPxeOptions(BytesToIp(r.siaddr), r.bootFilename);
    if pxeOptions.None? {
      return None;
    }
    var vendor: bytes := [OPT_VENDOR_CLASS, 9] + PXE_VENDOR_CLASS;
    EncodePxe(r);
    Associate(options, vendor, pxeOptions.value);
    added := Some(options + vendor + pxeOptions.value);
  }

  lemma EncodePxe(r: Reply)
    requires Encodable(r) && r.pxe
    ensures |BytesToIp(r.siaddr)| <= 255
    ensures Encode(PxeItems(r)) == ([OPT_VENDOR_CLASS, 9] + PXE_VENDOR_CLASS)
      + Encode([Opt(OPT_TFTP_SERVER_NAME, BytesToIp(r.siaddr)), Opt(OPT_BOOTFILE_NAME, r.bootFilename + [0])])
  {
    DottedLength(r.siaddr);
    assert PxeItems(r)[1..] == [Opt(OPT_TFTP_SERVER_NAME, BytesToIp(r.siaddr)), Opt(OPT_BOOTFILE_NAME, r.bootFilename + [0])];
  }

  /** The packet on the wire; None stands for the ValueError or OverflowError of a field that does
      not fit its length byte or its width. */
  method BuildReply(r: Reply) returns (packet: Option<bytes>)
    ensures packet.Some? <==> Encodable(r)
    ensures packet.Some? ==> packet.value == ReplyPacket(r)
  {
    var options := BuildAddressOptions(r);
    if options.None? {
      return None;
    }
    options := AddPxe(options.value, r);
    if options.None? {
      return None;
    }
    EncodeReplyItems(r);
    packet := Some(Header(r) + MAGIC_COOKIE + (options.value + [OPT_END]));
  }

  /** What a reply is on the wire: header, cookie, the encoded items, END. */
  function ReplyPacket(r: Reply): bytes
    requires Encodable(r)
  {
    Header(r) + MAGIC_COOKIE + (Encode(ReplyItems(r)) + [OPT_END])
  }

  // ---------- the reply read back ----------

  /** The fixed part byte by byte (RFC 2131 section 2): a BOOTREPLY over Ethernet, no flags, the server
      name empty, the file name filled up with zeros or cut. */
  lemma HeaderBytes(r: Reply)
    ensures var h := Header(r);
      && h[..4] == [2, 1, 6, 0] && (forall i :: 8 <= i < 16 ==> h[i] == 0)
      && (forall i :: 0 <= i < 16 ==> h[28 + i] == if i < |r.chaddr| then r.chaddr[i] else 0)
      && (forall i :: 44 <= i < 108 ==> h[i] == 0)
      && (forall i :: 0 <= i < 128 ==> h[108 + i] == if i < |r.bootFilename| then r.bootFilename[i] else 0)
  {
    var h := Header(r);
    assert h[28..44] == Fit(r.chaddr, 16);
    assert h[108..236] == Fit(r.bootFilename, 128);
    assert h[8..16] == Zeros(2) + Zeros(2) + Zeros(4);
    assert h[44..108] == Zeros(64);
    forall i | 8 <= i < 16 ensures h[i] == 0 { assert h[i] == h[8..16][i - 8]; }
    forall i | 44 <= i < 108 ensures h[i] == 0 { assert h[i] == h[44..108][i - 44]; }
    forall i | 0 <= i < 16 ensures h[28 + i] == if i < |r.chaddr| then r.chaddr[i] else 0 { assert h[28 + i] == h[28..44][i]; }
    forall i | 0 <= i < 128 ensures h[108 + i] == if i < |r.bootFilename| then r.bootFilename[i] else 0 {
      assert h[108 + i] == h[108..236][i];
    }
  }

  lemma HeaderFields(r: Reply)
    ensures var h := Header(r);
      h[4..8] == r.xid && h[10..12] == [0, 0] && h[16..20] == r.yiaddr && h[20..24] == r.siaddr
      && h[24..28] == r.giaddr && h[28..44] == Fit(r.chaddr, 16)
  {
  }

  lemma {:induction false} MeaningAppend(a: seq<Item>, b: seq<Item>, options: OptionMap)
    ensures Meaning(a + b, options) == Meaning(b, Meaning(a, options))
  {
    if |a| == 0 {
      assert a + b == b;
    } else {
      assert (a + b)[1..] == a[1..] + b;
      MeaningAppend(a[1..], b, Apply(a[0], options));
    }
  }

  lemma MeaningOfTwo(a: Item, b: Item, options: OptionMap)
    ensures Meaning([a, b], options) == Apply(b, Apply(a, options))
  {
    assert [a, b][1..] == [b];
    assert Meaning([b], Apply(a, options)) == Meaning([], Apply(b, Apply(a, options)));
  }

  lemma MeaningOfOptional(items: seq<Item>, options: OptionMap)
    requires |items| <= 1
    ensures Meaning(items, options) == if |items| == 1 then Apply(items[0], options) else options
  {
    if |items| == 1 { assert Meaning(items[1..], Apply(items[0], options)) == Apply(items[0], options); }
  }

  lemma MeaningOfPxe(r: Reply, options: OptionMap)
    requires Encodable(r)
    ensures Meaning(PxeItems(r), options) ==
      (if r.pxe then options[OPT_VENDOR_CLASS := PXE_VENDOR_CLASS][OPT_TFTP_SERVER_NAME := BytesToIp(r.siaddr)]
                      [OPT_BOOTFILE_NAME := r.bootFilename + [0]]
       else options)
  {
    if r.pxe {
      var items := PxeItems(r);
      assert items[1..] == [items[1], items[2]];
      MeaningOfTwo(items[1], items[2], Apply(items[0], options));
    }
  }

  /** The option map of a reply before the PXE options. */
  function BaseOptions(r: Reply): OptionMap
    requires Encodable(r)
  {
    var m := map[OPT_MESSAGE_TYPE := [r.messageType], OPT_SERVER_ID := r.serverId];
    var m := if r.leaseSeconds.Some? then m[OPT_LEASE_TIME := U32(r.leaseSeconds.value)] else m;
    var m := if r.subnetMask.Some? then m[OPT_SUBNET_MASK := r.subnetMask.value] else m;
    if r.router.Some? then m[OPT_ROUTER := r.router.value] else m
  }

  lemma MeaningOfReply(r: Reply)
    requires Encodable(r)
    ensures Meaning(ReplyItems(r), map[]) == Meaning(PxeItems(r), BaseOptions(r))
  {
    var a: seq<Item> := [Opt(OPT_MESSAGE_TYPE, [r.messageType]), Opt(OPT_SERVER_ID, r.serverId)];
    var c, d, e := LeaseItems(r), AddressItems(OPT_SUBNET_MASK, r.subnetMask), AddressItems(OPT_ROUTER, r.router);
    MeaningAppend(a + c + d + e, PxeItems(r), map[]);
    MeaningAppend(a + c + d, e, map[]);
    MeaningAppend(a + c, d, map[]);
    MeaningAppend(a, c, map[]);
    MeaningOfTwo(a[0], a[1], map[]);
    var m1 := Meaning(a, map[]);
    MeaningOfOptional(c, m1);
    var m2 := Meaning(c, m1);
    MeaningOfOptional(d, m2);
    var m3 := Meaning(d, m2);
    MeaningOfOptional(e, m3);
    assert m1 == map[OPT_MESSAGE_TYPE := [r.messageType], OPT_SERVER_ID := r.serverId];
  }

  /** What a reader of the reply finds under each option code; a lease time as a number of seconds. */
  lemma OptionsOfReply(r: Reply)
    requires Encodable(r)
    ensures var m := Meaning(ReplyItems(r), map[]);
      && Get(m, OPT_MESSAGE_TYPE) == Some([r.messageType])
      && Get(m, OPT_SERVER_ID) == Some(r.serverId)
      && (Get(m, OPT_LEASE_TIME).Some? <==> r.leaseSeconds.Some?)
      && (r.leaseSeconds.Some? ==> |m[OPT_LEASE_TIME]| == 4 && FromBigEndian(m[OPT_LEASE_TIME]) == r.leaseSeconds.value)
      && Get(m, OPT_SUBNET_MASK) == r.subnetMask && Get(m, OPT_ROUTER) == r.router
      && Get(m, OPT_REQUESTED_IP) == None
      && Get(m, OPT_VENDOR_CLASS) == (if r.pxe then Some(PXE_VENDOR_CLASS) else None)
      && Get(m, OPT_TFTP_SERVER_NAME) == (if r.pxe then Some(BytesToIp(r.siaddr)) else None)
      && Get(m, OPT_BOOTFILE_NAME) == (if r.pxe then Some(r.bootFilename + [0]) else None)
  {
    MeaningOfReply(r);
    MeaningOfPxe(r, BaseOptions(r));
    if r.leaseSeconds.Some? { U32RoundTrip(r.leaseSeconds.value); }
  }

  lemma ReplySlices(r: Reply)
    requires Encodable(r)
    ensures var p := ReplyPacket(r);
      && p[..HEADER_LEN] == Header(r) && p[HEADER_LEN..OPTIONS_START] == [99, 130, 83, 99] && p[20..24] == r.siaddr
      && Drop(p, OPTIONS_START) == Encode(ReplyItems(r)) + [OPT_END]
      && Slice(p, 4, 8) == r.xid && Slice(p, 10, 12) == [0, 0] && p[16..20] == r.yiaddr
      && Slice(p, 24, 28) == r.giaddr && Slice(p, 28, 44) == Fit(r.chaddr, 16)
  {
    HeaderFields(r);
    var p := ReplyPacket(r);
    assert p[..HEADER_LEN] == Header(r);
    assert p[20..24] == Header(r)[20..24];
    assert p[4..8] == Header(r)[4..8] && p[10..12] == Header(r)[10..12] && p[16..20] == Header(r)[16..20];
    assert p[24..28] == Header(r)[24..28] && p[28..44] == Header(r)[28..44];
  }

  lemma FileField(r: Reply)
    requires Encodable(r)
    ensures forall i :: 0 <= i < 128 ==> ReplyPacket(r)[108 + i] == if i < |r.bootFilename| then r.bootFilename[i] else 0
  {
    HeaderBytes(r);
    ReplySlices(r);
    var p := ReplyPacket(r);
    forall j | 0 <= j < HEADER_LEN ensures p[j] == Header(r)[j] {
      assert p[j] == p[..HEADER_LEN][j];
    }
  }

  /** Where a request's fields are read from: message type in option 53, vendor class in 60, address in 50. */
  lemma ParsedFields(packet: bytes, options: OptionMap, messageType: byte)
    requires ReadOptions(Drop(packet, OPTIONS_START), map[]) == Some(options)
    requires Get(options, 53) == Some([messageType])
    ensures ParseRequest(packet) == Some(Request(
              Some(messageType), Slice(packet, 4, 8), Slice(packet, 28, 44), RenderMac(Slice(Slice(packet, 28, 44), 0, 6)),
              Get(options, 60), Get(options, 50), Slice(packet, 24, 28),
              FromBigEndian(Slice(packet, 10, 12)) >= 0x8000))
  {
  }

  /** `parse_request` reads back what `build_reply` wrote, field by field, for every encodable reply. */
  lemma ReplyRoundTrip(r: Reply)
    requires Encodable(r) && |r.chaddr| == 16
    ensures ParseRequest(ReplyPacket(r)) == Some(Request(
              Some(r.messageType), r.xid, r.chaddr, RenderMac(r.chaddr[..6]),
              if r.pxe then Some(PXE_VENDOR_CLASS) else None, None, r.giaddr, false))
    ensures ReplyPacket(r)[16..20] == r.yiaddr
    ensures ReadOptions(Drop(ReplyPacket(r), OPTIONS_START), map[]) == Some(Meaning(ReplyItems(r), map[]))
  {
    OptionsRoundTrip(ReplyItems(r), []);
    assert [OPT_END] + [] == [OPT_END];
    OptionsOfReply(r);
    ReplySlices(r);
    ParsedFields(ReplyPacket(r), Meaning(ReplyItems(r), map[]), r.messageType);
    assert Fit(r.chaddr, 16) == r.chaddr;
    assert Slice(r.chaddr, 0, 6) == r.chaddr[..6];
    U16RoundTrip(0);
    assert U16(0) == [0, 0];
  }
}
