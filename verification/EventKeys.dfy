/** The event keys of the points ledger: what is stored in the unique
    event_key column, and why no two different events share a key. */
module EventKeys {
  import opened Base

  datatype EventKey =
    | OrderPay(order: Id)
    | OrderRefund(order: Id)
    | Signup(user: Id)
    | AdminAdjust(admin: Id, key: string)

  /** VARCHAR(96), the width of points_ledger.event_key. */
  const EVENT_KEY_WIDTH := 96

  function HexDigit(d: nat): char
    requires d < 16
  {
    "0123456789abcdef"[d]
  }

  /** The low `width` hexadecimal digits of n, most significant first. */
  function Hex(n: nat, width: nat): (s: string)
    ensures |s| == width
  {
    if width == 0 then "" else Hex(n / 16, width - 1) + [HexDigit(n % 16)]
  }

  function Pow16(w: nat): (p: nat)
    ensures p > 0
  {
    if w == 0 then 1 else 16 * Pow16(w - 1)
  }

  /** The canonical text form of a UUID: 8-4-4-4-12 lower-case hex digits. */
  function UuidText(id: Id): (s: string)
    ensures |s| == 36
  {
    var h := Hex(id as int, 32);
    h[..8] + "-" + h[8..12] + "-" + h[12..16] + "-" + h[16..20] + "-" + h[20..]
  }

  function KeyText(k: EventKey): string {
    match k
    case OrderPay(order) => "order_pay:" + UuidText(order)
    case OrderRefund(order) => "order_refund:" + UuidText(order)
    case Signup(user) => "signup:" + UuidText(user)
    case AdminAdjust(admin, key) => "admin_adjust:" + UuidText(admin) + ":" + key
  }

  predicate KeyFits(k: EventKey) {
    |KeyText(k)| <= EVENT_KEY_WIDTH
  }

  lemma {:induction false} HexInjective(a: nat, b: nat, width: nat)
    requires a < Pow16(width) && b < Pow16(width)
    requires Hex(a, width) == Hex(b, width)
    ensures a == b
  {
    if width > 0 {
      var s, t := Hex(a, width), Hex(b, width);
      assert s[width - 1] == HexDigit(a % 16) && t[width - 1] == HexDigit(b % 16);
      assert a % 16 == b % 16;
      assert s[..width - 1] == Hex(a / 16, width - 1);
      assert t[..width - 1] == Hex(b / 16, width - 1);
      HexInjective(a / 16, b / 16, width - 1);
    }
  }

  lemma UuidTextInjective(a: Id, b: Id)
    requires UuidText(a) == UuidText(b)
    ensures a == b
  {
    var s, t := Hex(a as int, 32), Hex(b as int, 32);
    var u, v := UuidText(a), UuidText(b);
    assert u[..8] == s[..8] && v[..8] == t[..8];
    assert u[9..13] == s[8..12] && v[9..13] == t[8..12];
    assert u[14..18] == s[12..16] && v[14..18] == t[12..16];
    assert u[19..23] == s[16..20] && v[19..23] == t[16..20];
    assert u[24..] == s[20..] && v[24..] == t[20..];
    assert s == s[..8] + s[8..12] + s[12..16] + s[16..20] + s[20..];
    assert t == t[..8] + t[8..12] + t[12..16] + t[16..20] + t[20..];
    assert s == t;
    Pow16Of32();
    HexInjective(a as int, b as int, 32);
  }

  /** The four families never collide, and within a family the key names the
      event: one unique column is enough for every exactly-once rule. */
  lemma KeyTextInjective(j: EventKey, k: EventKey)
    requires KeyText(j) == KeyText(k)
    ensures j == k
  {
    var s, t := KeyText(j), KeyText(k);
    assert s[0] == t[0] && s[6] == t[6];
    match j {
      case OrderPay(a) =>
        assert s[10..] == UuidText(a) && t[10..] == UuidText(k.order);
        UuidTextInjective(a, k.order);
      case OrderRefund(a) =>
        assert s[13..] == UuidText(a) && t[13..] == UuidText(k.order);
        UuidTextInjective(a, k.order);
      case Signup(a) =>
        assert s[7..] == UuidText(a) && t[7..] == UuidText(k.user);
        UuidTextInjective(a, k.user);
      case AdminAdjust(a, key) =>
        assert s[13..49] == UuidText(a) && t[13..49] == UuidText(k.admin);
        assert s[50..] == key && t[50..] == k.key;
        UuidTextInjective(a, k.admin);
    }
  }

  /** The stored text of each family. */
  lemma KeyTextExactly(id: Id, key: string)
    ensures KeyText(OrderPay(id)) == "order_pay:" + UuidText(id)
    ensures KeyText(OrderRefund(id)) == "order_refund:" + UuidText(id)
    ensures KeyText(Signup(id)) == "signup:" + UuidText(id)
    ensures KeyText(AdminAdjust(id, key)) == "admin_adjust:" + UuidText(id) + ":" + key
  {
  }

  predicate LowerHex(c: char) {
    '0' <= c <= '9' || 'a' <= c <= 'f'
  }

  function HexValue(c: char): nat
    requires LowerHex(c)
  {
    if c <= '9' then c as int - '0' as int else c as int - 'a' as int + 10
  }

  /** The number that hexadecimal digits spell. */
  function Spelled(s: string): nat
    requires forall i :: 0 <= i < |s| ==> LowerHex(s[i])
  {
    if s == "" then 0 else 16 * Spelled(s[..|s| - 1]) + HexValue(s[|s| - 1])
  }

  lemma {:induction false} HexExactly(n: nat, width: nat)
    requires n < Pow16(width)
    ensures forall i :: 0 <= i < width ==> LowerHex(Hex(n, width)[i])
    ensures Spelled(Hex(n, width)) == n
  {
    if width > 0 {
      HexExactly(n / 16, width - 1);
      var s := Hex(n, width);
      assert s[..width - 1] == Hex(n / 16, width - 1);
      assert LowerHex(HexDigit(n % 16)) && HexValue(HexDigit(n % 16)) == n % 16;
    }
  }

  lemma Pow16Of32()
    ensures Pow16(32) == UUID_SPACE
  {
    assert Pow16(8) == 0x1_0000_0000;
    assert Pow16(16) == 0x1_0000_0000 * Pow16(8);
    assert Pow16(24) == 0x1_0000_0000 * Pow16(16);
    assert Pow16(32) == 0x1_0000_0000 * Pow16(24);
  }

  /** A UUID's text: hyphens after 8, 12, 16 and 20 of its 32 lower-case digits, which
      spell the id. */
  lemma UuidTextExactly(id: Id)
    ensures var u := UuidText(id);
            var digits := u[..8] + u[9..13] + u[14..18] + u[19..23] + u[24..];
            && |u| == 36 && u[8] == u[13] == u[18] == u[23] == '-'
            && (forall i :: 0 <= i < |digits| ==> LowerHex(digits[i]))
            && Spelled(digits) == id as int
  {
    var h, u := Hex(id as int, 32), UuidText(id);
    assert u[..8] == h[..8] && u[9..13] == h[8..12] && u[14..18] == h[12..16];
    assert u[19..23] == h[16..20] && u[24..] == h[20..];
    assert h == h[..8] + h[8..12] + h[12..16] + h[16..20] + h[20..];
    Pow16Of32();
    HexExactly(id as int, 32);
  }

  /** Three families always fit the column. An adjustment key fits exactly when
      the Idempotency-Key has at most 46 characters, although the validator
      accepts up to 64. */
  lemma KeyFitsExactly(k: EventKey)
    ensures KeyFits(k) <==> (k.AdminAdjust? ==> |k.key| <= 46)
  {
  }

  /** A key the validator accepts and the column cannot hold. */
  lemma AcceptedKeyMayNotFit(admin: Id)
    ensures var key := seq(64, _ => 'k');
            ValidIdempotencyKey(key) && !KeyFits(AdminAdjust(admin, key))
  {
    var key := seq(64, _ => 'k');
    AsciiByteLen(key);
    assert !IsSpace(key[0]);
    assert TrimLeft(key) == key;
    assert TrimRight(key) == key;
  }

  lemma {:induction false} AsciiByteLen(s: string)
    requires forall i :: 0 <= i < |s| ==> s[i] < '\U{80}'
    ensures ByteLen(s) == |s|
  {
    if s != [] {
      AsciiByteLen(s[1..]);
    }
  }
}
