/** The names session.py derives from a client's MAC address or an admin session, and why no two
    sessions can share one. */
module SessionNames {
  import opened Bytes
  import opened DhcpPacket

  const UNDERSCORE: byte := 95
  const SLASH: byte := 47
  const DASH: byte := 45

  /** The texts ":client-", ":admin-ui-", "session-", "admin-", "-v" and ".cow". */
  const CLIENT_TAG: bytes := [58, 99, 108, 105, 101, 110, 116, 45]
  const ADMIN_UI_TAG: bytes := [58, 97, 100, 109, 105, 110, 45, 117, 105, 45]
  const SESSION_TAG: bytes := [115, 101, 115, 115, 105, 111, 110, 45]
  const ADMIN_TAG: bytes := [97, 100, 109, 105, 110, 45]
  const VERSION_TAG: bytes := [45, 118]
  const COW_SUFFIX: bytes := [46, 99, 111, 119]

  function SafeByte(b: byte): byte { if b == COLON || b == SLASH then UNDERSCORE else b }

  /** `_safe_id` */
  function SafeId(text: bytes): (safe: bytes)
    ensures |safe| == |text| && COLON !in safe && SLASH !in safe
  {
    seq(|text|, i requires 0 <= i < |text| => SafeByte(text[i]))
  }

  /** `client_mac.replace(":", "")` */
  function StripColons(mac: bytes): bytes {
    if |mac| == 0 then [] else (if mac[0] == COLON then [] else [mac[0]]) + StripColons(mac[1..])
  }

  function InitiatorIqn(prefix: bytes, mac: bytes): bytes { prefix + CLIENT_TAG + StripColons(mac) }

  function AdminIqn(prefix: bytes, username: bytes): bytes { prefix + ADMIN_UI_TAG + username }

  function SnapshotName(iqn: bytes): bytes { SESSION_TAG + SafeId(iqn) }

  function OverlayName(iqn: bytes): bytes { SafeId(iqn) + COW_SUFFIX }

  function AdminLunName(profile: nat, version: nat): bytes {
    ADMIN_TAG + PrintNat(profile) + VERSION_TAG + PrintNat(version)
  }

  // ---------- injectivity ----------

  lemma CancelPrefix(prefix: bytes, a: bytes, b: bytes)
    ensures prefix + a == prefix + b <==> a == b
  {
    assert (prefix + a)[|prefix|..] == a && (prefix + b)[|prefix|..] == b;
  }

  lemma CancelSuffix(a: bytes, b: bytes, suffix: bytes)
    ensures a + suffix == b + suffix <==> a == b
  {
    assert (a + suffix)[..|a|] == a && (b + suffix)[..|b|] == b;
  }

  /** Two MAC texts name the same initiator exactly when they differ in their colons only. */
  lemma SameIqnIff(prefix: bytes, m1: bytes, m2: bytes)
    ensures InitiatorIqn(prefix, m1) == InitiatorIqn(prefix, m2) <==> StripColons(m1) == StripColons(m2)
  {
    CancelPrefix(prefix + CLIENT_TAG, StripColons(m1), StripColons(m2));
  }

  function HexText(hardware: bytes): bytes {
    if |hardware| == 0 then [] else Hex2(hardware[0]) + HexText(hardware[1..])
  }

  lemma {:induction false} StripSkips(a: bytes, b: bytes)
    requires COLON !in a
    ensures StripColons(a + b) == a + StripColons(b)
  {
    if |a| == 0 {
      assert a + b == b;
    } else {
      assert (a + b)[1..] == a[1..] + b;
      StripSkips(a[1..], b);
      assert [a[0]] + (a[1..] + StripColons(b)) == a + StripColons(b);
    }
  }

  lemma {:induction false} StripRendered(hardware: bytes)
    ensures StripColons(RenderMac(hardware)) == HexText(hardware)
    ensures |HexText(hardware)| == 2 * |hardware|
    ensures forall b :: b in HexText(hardware) ==> b != COLON && b != SLASH
  {
    if |hardware| > 0 {
      var first, rest := Hex2(hardware[0]), hardware[1..];
      StripRendered(rest);
      if |hardware| == 1 {
        assert first + [] == first && StripColons([]) == [];
        StripSkips(first, []);
      } else {
        StripSkips(first, [COLON] + RenderMac(rest));
        assert first + [COLON] + RenderMac(rest) == first + ([COLON] + RenderMac(rest));
        assert ([COLON] + RenderMac(rest))[1..] == RenderMac(rest);
        assert [] + StripColons(RenderMac(rest)) == StripColons(RenderMac(rest));
      }
    }
  }

  lemma {:induction false} HexTextInjective(a: bytes, b: bytes)
    requires HexText(a) == HexText(b)
    ensures a == b
  {
    StripRendered(a);
    StripRendered(b);
    if |a| > 0 {
      assert HexText(a)[..2] == Hex2(a[0]) && HexText(b)[..2] == Hex2(b[0]);
      Hex2Injective(a[0], b[0]);
      assert HexText(a)[2..] == HexText(a[1..]) && HexText(b)[2..] == HexText(b[1..]);
      HexTextInjective(a[1..], b[1..]);
    }
  }

  lemma SafeSuffix(text: bytes, suffix: bytes)
    requires forall b :: b in suffix ==> b != COLON && b != SLASH
    ensures SafeId(text + suffix) == SafeId(text) + suffix
  {
    forall i | 0 <= i < |text| + |suffix| ensures SafeId(text + suffix)[i] == (SafeId(text) + suffix)[i] {
      if i >= |text| { assert suffix[i - |text|] in suffix; }
    }
  }

  /** From hardware address to IQN, snapshot and LUN name, and overlay file: each map is injective on
      canonical MAC texts, whatever the prefix. */
  lemma ClientNamesAreInjective(prefix: bytes, h1: bytes, h2: bytes)
    requires h1 != h2
    ensures var q1, q2 := InitiatorIqn(prefix, RenderMac(h1)), InitiatorIqn(prefix, RenderMac(h2));
      q1 != q2 && SnapshotName(q1) != SnapshotName(q2) && OverlayName(q1) != OverlayName(q2)
  {
    StripRendered(h1);
    StripRendered(h2);
    if HexText(h1) == HexText(h2) { HexTextInjective(h1, h2); }
    var head := prefix + CLIENT_TAG;
    SameIqnIff(prefix, RenderMac(h1), RenderMac(h2));
    SafeSuffix(head, HexText(h1));
    SafeSuffix(head, HexText(h2));
    var s1, s2 := SafeId(head) + HexText(h1), SafeId(head) + HexText(h2);
    CancelPrefix(SafeId(head), HexText(h1), HexText(h2));
    CancelPrefix(SESSION_TAG, s1, s2);
    CancelSuffix(s1, s2, COW_SUFFIX);
  }

  /** No client LUN name is an admin LUN name, and no client IQN an admin IQN. */
  lemma ClientAndAdminNamesDiffer(prefix: bytes, mac: bytes, iqn: bytes, username: bytes, profile: nat, version: nat)
    ensures SnapshotName(iqn) != AdminLunName(profile, version)
    ensures InitiatorIqn(prefix, mac) != AdminIqn(prefix, username)
  {
    assert SnapshotName(iqn)[0] == SESSION_TAG[0] && AdminLunName(profile, version)[0] == ADMIN_TAG[0];
    assert InitiatorIqn(prefix, mac)[|prefix| + 1] == CLIENT_TAG[1];
    assert AdminIqn(prefix, username)[|prefix| + 1] == ADMIN_UI_TAG[1];
  }

  lemma PrintInjective(a: nat, b: nat)
    requires PrintNat(a) == PrintNat(b)
    ensures a == b
  {
    ParseDigitsInvertsPrint(a);
    ParseDigitsInvertsPrint(b);
  }

  /** Different profiles or different versions have different admin LUN names. */
  lemma AdminNamesAreInjective(p1: nat, v1: nat, p2: nat, v2: nat)
    requires AdminLunName(p1, v1) == AdminLunName(p2, v2)
    ensures p1 == p2 && v1 == v2
  {
    var t1, t2 := PrintNat(p1) + VERSION_TAG + PrintNat(v1), PrintNat(p2) + VERSION_TAG + PrintNat(v2);
    assert AdminLunName(p1, v1) == ADMIN_TAG + t1 && AdminLunName(p2, v2) == ADMIN_TAG + t2;
    CancelPrefix(ADMIN_TAG, t1, t2);
    assert t1 == PrintNat(p1) + [DASH] + ([118] + PrintNat(v1)) && t2 == PrintNat(p2) + [DASH] + ([118] + PrintNat(v2));
    assert forall d :: d in PrintNat(p1) || d in PrintNat(p2) ==> IsDigit(d) && d != DASH;
    SplitFirst(DASH, PrintNat(p1), [118] + PrintNat(v1));
    SplitFirst(DASH, PrintNat(p2), [118] + PrintNat(v2));
    assert Split(DASH, t1)[0] == PrintNat(p1) && Split(DASH, t2)[0] == PrintNat(p2);
    PrintInjective(p1, p2);
    CancelPrefix(PrintNat(p1) + VERSION_TAG, PrintNat(v1), PrintNat(v2));
    PrintInjective(v1, v2);
  }

  // ---------- the names spelled out ----------

  lemma TagsSpelledOut()
    ensures CLIENT_TAG == Text(":client-") && ADMIN_UI_TAG == Text(":admin-ui-") && SESSION_TAG == Text("session-")
    ensures ADMIN_TAG == Text("admin-") && VERSION_TAG == Text("-v") && COW_SUFFIX == Text(".cow")
  {
  }

  /** Names letter by letter: the initiators of a client and of an administrator, */
  lemma IqnsSpelledOut()
    ensures InitiatorIqn(Text("x"), Text("0a:b1")) == Text("x:client-0ab1")
    ensures AdminIqn(Text("x"), Text("ann")) == Text("x:admin-ui-ann")
  {
    ClientIqnSpelledOut();
    TagsSpelledOut();
    assert Text("x") + Text(":admin-ui-") + Text("ann") == Text("x:admin-ui-ann");
  }

  lemma ClientIqnSpelledOut()
    ensures InitiatorIqn(Text("x"), Text("0a:b1")) == Text("x:client-0ab1")
  {
    TagsSpelledOut();
    StripSpelledOut();
    assert Text("x") + Text(":client-") + Text("0ab1") == Text("x:client-0ab1");
  }

  /** a client's snapshot and overlay, */
  lemma ClientNamesSpelledOut()
    ensures SnapshotName(Text("x:c-0a/")) == Text("session-x_c-0a_")
    ensures OverlayName(Text("x:c-0a/")) == Text("x_c-0a_.cow")
  {
    TagsSpelledOut();
    SafeSpelledOut();
    assert Text("session-") + Text("x_c-0a_") == Text("session-x_c-0a_");
    assert Text("x_c-0a_") + Text(".cow") == Text("x_c-0a_.cow");
  }

  /** and the LUN of an admin session. */
  lemma AdminLunSpelledOut()
    ensures AdminLunName(3, 12) == Text("admin-3-v12")
  {
    TagsSpelledOut();
    assert PrintNat(3) == Text("3");
    assert PrintNat(12) == PrintNat(1) + [50] == Text("12");
    assert Text("admin-") + Text("3") + Text("-v") + Text("12") == Text("admin-3-v12");
  }

  lemma StripOne(first: byte, rest: bytes)
    ensures StripColons([first] + rest) == (if first == COLON then [] else [first]) + StripColons(rest)
  {
    assert ([first] + rest)[1..] == rest;
  }

  lemma StripSpelledOut()
    ensures StripColons(Text("0a:b1")) == Text("0ab1")
  {
    StripOne(49, []);
    StripOne(98, [49]);
    StripOne(COLON, [98, 49]);
    StripOne(97, [COLON, 98, 49]);
    StripOne(48, [97, COLON, 98, 49]);
    assert Text("0a:b1") == [48] + [97, COLON, 98, 49] && Text("0ab1") == [48] + ([97] + ([] + ([98] + ([49] + []))));
    assert [97, COLON, 98, 49] == [97] + [COLON, 98, 49] && [COLON, 98, 49] == [COLON] + [98, 49] && [98, 49] == [98] + [49];
    assert [49] == [49] + [];
  }

  lemma SafeSpelledOut()
    ensures SafeId(Text("x:c-0a/")) == Text("x_c-0a_")
  {
  }
}
