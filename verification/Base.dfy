/** Vocabulary shared by every module: options, results, machine integers,
    identifiers and the errors the backend reports. */
module Base {

  datatype Option<+T> = None | Some(value: T)

  /** A Go `(value, error)` pair; `:-` returns early on the error. */
  datatype Result<+T, +E> = Ok(value: T) | Err(error: E) {
    predicate IsFailure() {
      Err?
    }

    function PropagateFailure<U>(): Result<U, E>
      requires Err?
    {
      Err(error)
    }

    /** The value, unless this is an error. */
    function Then<U>(value: U): Result<U, E> {
      if Ok? then Ok(value) else Err(error)
    }

    function Extract(): T
      requires Ok?
    {
      value
    }
  }

  datatype Error =
    | InvalidIdempotencyKey
    | InvalidOrderRequest
    | InvalidRefundReason
    | InvalidAdjustment
    | InvalidAddress
    | InvalidCartItem
    | InvalidProduct
    | InvalidLogin
    | EmptyUpdate
    | UserNotFound
    | AddressNotFound
    | CartItemNotFound
    | CartProductNotFound
    | ProductNotFound
    | OrderNotFound
    | ProductOffSale
    | InsufficientStock
    | InsufficientPoints
    | QuantityOverflow
    | IdempotencyConflict
    | OrderStateConflict
    | DefaultAddressConflict
    // What the database itself answers.
    | UniqueViolation
    | CheckViolation
    | ForeignKeyViolation
    | ValueTooLong
    | NumericOutOfRange
    | RowNotFound
    // The caller's connection or context went away.
    | Aborted

  const MIN64 := -0x8000_0000_0000_0000
  const MAX64 := 0x7fff_ffff_ffff_ffff
  const MIN32 := -0x8000_0000
  const MAX32 := 0x7fff_ffff
  const TWO64 := 0x1_0000_0000_0000_0000

  type Int64 = x: int | MIN64 <= x <= MAX64
  type Int32 = x: int | MIN32 <= x <= MAX32

  /** Go's int64 arithmetic keeps the low 64 bits of the exact result. */
  function Wrap64(x: int): (r: Int64)
    ensures MIN64 <= x <= MAX64 ==> r == x
    ensures exists k :: r == x - k * TWO64
  {
    var r := (x - MIN64) % TWO64 + MIN64;
    assert r == x - ((x - MIN64) / TWO64) * TWO64;
    r
  }

  const UUID_SPACE := 0x1_0000_0000_0000_0000_0000_0000_0000_0000

  /** A UUID, ordered as its sixteen bytes are. Zero is the unset id. */
  newtype Id = n: int | 0 <= n < UUID_SPACE

  const ZERO_ID: Id := 0

  /** The code points Go's unicode.IsSpace accepts. */
  predicate IsSpace(c: char) {
    || '\t' <= c <= '\r'
    || c == ' '
    || c == '\U{85}'
    || c == '\U{A0}'
    || c == '\U{1680}'
    || '\U{2000}' <= c <= '\U{200A}'
    || c in {'\U{2028}', '\U{2029}', '\U{202F}', '\U{205F}', '\U{3000}'}
  }

  function TrimLeft(s: string): string {
    if |s| > 0 && IsSpace(s[0]) then TrimLeft(s[1..]) else s
  }

  function TrimRight(s: string): string {
    if |s| > 0 && IsSpace(s[|s| - 1]) then TrimRight(s[..|s| - 1]) else s
  }

  /** strings.TrimSpace. */
  function Trim(s: string): string {
    TrimRight(TrimLeft(s))
  }

  lemma {:induction false} TrimLeftHead(s: string)
    ensures TrimLeft(s) == [] || !IsSpace(TrimLeft(s)[0])
  {
    if |s| > 0 && IsSpace(s[0]) {
      TrimLeftHead(s[1..]);
    }
  }

  lemma {:induction false} TrimRightPrefix(s: string)
    ensures TrimRight(s) <= s
    ensures TrimRight(TrimRight(s)) == TrimRight(s)
  {
    if |s| > 0 && IsSpace(s[|s| - 1]) {
      TrimRightPrefix(s[..|s| - 1]);
    }
  }

  /** Trimming again changes nothing: a stored value is its own trimmed form. */
  lemma TrimIdempotent(s: string)
    ensures Trim(Trim(s)) == Trim(s)
  {
    var l := TrimLeft(s);
    TrimLeftHead(s);
    TrimRightPrefix(l);
    assert TrimLeft(TrimRight(l)) == TrimRight(l);
  }

  /** The twenty-five code points that are trimmed. */
  lemma IsSpaceExactly(c: char)
    ensures IsSpace(c) <==>
            c in {'\U{9}', '\U{A}', '\U{B}', '\U{C}', '\U{D}', '\U{20}', '\U{85}', '\U{A0}', '\U{1680}',
                  '\U{2000}', '\U{2001}', '\U{2002}', '\U{2003}', '\U{2004}', '\U{2005}', '\U{2006}', '\U{2007}',
                  '\U{2008}', '\U{2009}', '\U{200A}', '\U{2028}', '\U{2029}', '\U{202F}', '\U{205F}', '\U{3000}'}
  {
  }

  lemma {:induction false} TrimLeftExactly(s: string) returns (l: nat)
    ensures l <= |s| && TrimLeft(s) == s[l..]
    ensures forall i :: 0 <= i < l ==> IsSpace(s[i])
    ensures l < |s| ==> !IsSpace(s[l])
  {
    l := 0;
    if |s| > 0 && IsSpace(s[0]) {
      var rest := TrimLeftExactly(s[1..]);
      l := rest + 1;
      assert forall i :: 0 < i < l ==> s[i] == s[1..][i - 1];
    }
  }

  lemma {:induction false} TrimRightExactly(s: string) returns (r: nat)
    ensures r <= |s| && TrimRight(s) == s[..r]
    ensures forall i :: r <= i < |s| ==> IsSpace(s[i])
    ensures r > 0 ==> !IsSpace(s[r - 1])
  {
    r := |s|;
    if |s| > 0 && IsSpace(s[|s| - 1]) {
      r := TrimRightExactly(s[..|s| - 1]);
      assert forall i :: r <= i < |s| - 1 ==> s[i] == s[..|s| - 1][i];
    }
  }

  /** What is trimmed is exactly the spaces at both ends. */
  lemma TrimExactly(s: string) returns (l: nat, r: nat)
    ensures l <= r <= |s| && Trim(s) == s[l..r]
    ensures forall i :: 0 <= i < l || r <= i < |s| ==> IsSpace(s[i])
    ensures l < r ==> !IsSpace(s[l]) && !IsSpace(s[r - 1])
  {
    l := TrimLeftExactly(s);
    var n := TrimRightExactly(s[l..]);
    r := l + n;
    assert forall i :: r <= i < |s| ==> s[i] == s[l..][i - l];
  }

  /** Bytes of one code point in UTF-8. */
  function ByteWidth(c: char): nat {
    var n := c as int;
    if n < 0x80 then 1 else if n < 0x800 then 2 else if n < 0x1_0000 then 3 else 4
  }

  /** Go's `len` of a string: UTF-8 bytes. */
  function ByteLen(s: string): (n: nat)
    ensures |s| <= n
  {
    if s == [] then 0 else ByteWidth(s[0]) + ByteLen(s[1..])
  }

  /** Byte by byte, as UTF-8 encodes each code point. */
  lemma {:induction false} ByteLenExactly(s: string, c: char)
    ensures ByteLen("") == 0
    ensures ByteLen(s + [c]) == ByteLen(s)
            + (if c <= '\U{7F}' then 1 else if c <= '\U{7FF}' then 2 else if c <= '\U{FFFF}' then 3 else 4)
  {
    if s == [] {
      assert s + [c] == [c] && [c][1..] == [];
    } else {
      assert (s + [c])[1..] == s[1..] + [c];
      ByteLenExactly(s[1..], c);
    }
  }

  /** The Idempotency-Key header contract: 1-64 bytes and not blank. */
  predicate ValidIdempotencyKey(key: string) {
    1 <= ByteLen(key) <= 64 && Trim(key) != ""
  }

  lemma OneCharacter(s: string)
    requires |s| == 1 && 'a' <= s[0] <= 'z'
    ensures Trim(s) == s && ValidIdempotencyKey(s)
  {
    assert TrimLeft(s) == s && TrimRight(s) == s;
    assert s[1..] == "";
    assert ByteLen(s) == ByteWidth(s[0]) + ByteLen("");
  }
}
