/** Exact decimal-string arithmetic (miniapp/src/lib/points.ts): the loops over
    digits, against the natural numbers the strings denote. */
module DecimalStrings {

  /** '0' is code point 48. */
  predicate IsDigit(c: char) {
    48 <= c as int <= 57
  }

  predicate IsNumber(s: string) {
    forall i :: 0 <= i < |s| ==> IsDigit(s[i])
  }

  function DigitOf(c: char): (d: nat)
    requires IsDigit(c)
    ensures d <= 9
  {
    c as int - 48
  }

  function CharOf(d: nat): (c: char)
    requires d <= 9
    ensures IsDigit(c) && DigitOf(c) == d
  {
    (48 + d) as char
  }

  /** The natural number a digit string denotes; the empty string denotes zero. */
  function Value(s: string): nat
    requires IsNumber(s)
  {
    if s == "" then 0 else 10 * Value(s[..|s| - 1]) + DigitOf(s[|s| - 1])
  }

  /** A string denotes its digits in base ten. */
  lemma ValueExactly(s: string, c: char)
    requires IsNumber(s) && '0' <= c <= '9'
    ensures Value("") == 0 && IsNumber(s + [c]) && Value(s + [c]) == 10 * Value(s) + (c as int - '0' as int)
  {
    assert (s + [c])[..|s|] == s;
  }

  /** The form the helpers answer in: no leading zero, and "0" for zero. */
  predicate Canonical(s: string) {
    IsNumber(s) && s != "" && (s[0] == '0' ==> s == "0")
  }

  /** The canonical string of a number. */
  function Decimal(n: nat): (s: string)
    ensures IsNumber(s) && s != ""
  {
    if n < 10 then [CharOf(n)] else Decimal(n / 10) + [CharOf(n % 10)]
  }

  lemma {:induction false} DecimalValue(n: nat)
    ensures Value(Decimal(n)) == n && Canonical(Decimal(n))
    ensures n > 0 ==> Decimal(n)[0] != '0'
  {
    var s := Decimal(n);
    if n < 10 {
      assert s[..0] == "";
    } else {
      DecimalValue(n / 10);
      assert s[..|s| - 1] == Decimal(n / 10);
    }
  }

  lemma {:induction false} PositiveValue(s: string)
    requires IsNumber(s) && s != "" && s[0] != '0'
    ensures Value(s) > 0
  {
    if |s| > 1 {
      PositiveValue(s[..|s| - 1]);
    }
  }

  /** Canonical strings and numbers correspond one to one. */
  lemma {:induction false} CanonicalIsDecimal(s: string)
    requires Canonical(s)
    ensures s == Decimal(Value(s))
  {
    if |s| == 1 {
      assert s[..0] == "";
    } else {
      var front := s[..|s| - 1];
      PositiveValue(front);
      CanonicalIsDecimal(front);
      assert s == front + [s[|s| - 1]];
    }
  }

  // ---------- digits, least significant first ----------

  predicate Digits(ds: seq<nat>) {
    forall i :: 0 <= i < |ds| ==> ds[i] <= 9
  }

  function Pow10(n: nat): (p: nat)
    ensures p > 0
  {
    if n == 0 then 1 else 10 * Pow10(n - 1)
  }

  /** The number a reversed digit list denotes. */
  function LeValue(ds: seq<nat>): nat {
    if ds == [] then 0 else LeValue(ds[..|ds| - 1]) + ds[|ds| - 1] * Pow10(|ds| - 1)
  }

  lemma LeAppend(ds: seq<nat>, d: nat)
    ensures LeValue(ds + [d]) == LeValue(ds) + d * Pow10(|ds|)
  {
    assert (ds + [d])[..|ds|] == ds;
  }

  function Pad(ds: seq<nat>, i: nat): nat {
    if i < |ds| then ds[i] else 0
  }

  /** The number of the first n places, missing places being zero. */
  function Prefix(ds: seq<nat>, n: nat): nat {
    if n == 0 then 0 else Prefix(ds, n - 1) + Pad(ds, n - 1) * Pow10(n - 1)
  }

  lemma {:induction false} PrefixIsValue(ds: seq<nat>, n: nat)
    requires n >= |ds|
    ensures Prefix(ds, n) == LeValue(ds)
    decreases n
  {
    if n > |ds| {
      PrefixIsValue(ds, n - 1);
    } else if n > 0 {
      PrefixLocal(ds, n - 1);
      PrefixIsValue(ds[..n - 1], n - 1);
    }
  }

  lemma {:induction false} PrefixLocal(ds: seq<nat>, n: nat)
    requires n <= |ds|
    ensures Prefix(ds, n) == Prefix(ds[..n], n)
  {
    PrefixAgree(ds, ds[..n], n);
  }

  lemma {:induction false} PrefixAgree(a: seq<nat>, b: seq<nat>, n: nat)
    requires forall i :: 0 <= i < n ==> Pad(a, i) == Pad(b, i)
    ensures Prefix(a, n) == Prefix(b, n)
  {
    if n > 0 {
      PrefixAgree(a, b, n - 1);
    }
  }

  /** value.split("").reverse() as numbers. */
  function ReversedDigits(s: string): (ds: seq<nat>)
    requires IsNumber(s)
    ensures |ds| == |s| && Digits(ds)
    ensures forall i :: 0 <= i < |s| ==> ds[i] == DigitOf(s[|s| - 1 - i])
  {
    seq(|s|, i requires 0 <= i < |s| => DigitOf(s[|s| - 1 - i]))
  }

  /** result.reverse().join(""). */
  function Joined(ds: seq<nat>): (s: string)
    requires Digits(ds)
    ensures |s| == |ds| && IsNumber(s)
    ensures forall i :: 0 <= i < |s| ==> s[i] == CharOf(ds[|ds| - 1 - i])
  {
    seq(|ds|, i requires 0 <= i < |ds| => CharOf(ds[|ds| - 1 - i]))
  }

  lemma {:induction false} JoinedValue(ds: seq<nat>)
    requires Digits(ds)
    ensures Value(Joined(ds)) == LeValue(ds)
  {
    JoinedReversed(Joined(ds));
    assert ReversedDigits(Joined(ds)) == ds;
  }

  lemma {:induction false} JoinedReversed(s: string)
    requires IsNumber(s)
    ensures Value(s) == LeValue(ReversedDigits(s))
  {
    if s != "" {
      HeadValue(s);
      JoinedReversed(s[1..]);
      assert ReversedDigits(s)[..|s| - 1] == ReversedDigits(s[1..]);
    }
  }

  lemma ShiftedSum(head: nat, p: nat, tail: nat, d: nat)
    ensures 10 * (head * p + tail) + d == head * (10 * p) + (10 * tail + d)
  {
    assert 10 * (head * p) == head * (10 * p);
  }

  /** The most significant digit's share of the value. */
  lemma {:induction false} HeadValue(s: string)
    requires IsNumber(s) && s != ""
    ensures Value(s) == DigitOf(s[0]) * Pow10(|s| - 1) + Value(s[1..])
  {
    if |s| == 1 {
      assert s[1..] == "" && s[..0] == "";
    } else {
      var front, d := s[..|s| - 1], DigitOf(s[|s| - 1]);
      HeadValue(front);
      assert s[1..][..|s| - 2] == front[1..];
      assert Value(s[1..]) == 10 * Value(front[1..]) + d;
      ShiftedSum(DigitOf(s[0]), Pow10(|s| - 2), Value(front[1..]), d);
    }
  }

  // ---------- leading zeros ----------

  /** s.replace(/^0+/, ""). */
  function StripZeros(s: string): string {
    if s != "" && s[0] == '0' then StripZeros(s[1..]) else s
  }

  lemma {:induction false} StripKeepsValue(s: string)
    requires IsNumber(s)
    ensures var t := StripZeros(s);
            IsNumber(t) && Value(t) == Value(s) && |t| <= |s| && (t == "" || t[0] != '0')
  {
    if s != "" && s[0] == '0' {
      HeadValue(s);
      StripKeepsValue(s[1..]);
    }
  }

  function Normal(s: string): string {
    if StripZeros(s) == "" then "0" else StripZeros(s)
  }

  lemma NormalIsCanonical(s: string)
    requires IsNumber(s)
    ensures Canonical(Normal(s)) && Value(Normal(s)) == Value(s)
  {
    StripKeepsValue(s);
  }

  // ---------- addition ----------

  function Max(a: nat, b: nat): nat {
    if a < b then b else a
  }

  /** After i places: what is pushed and the carry account for the prefixes. */
  ghost predicate AddedSoFar(left: seq<nat>, right: seq<nat>, i: nat, result: seq<nat>, carry: nat) {
    && |result| == i && Digits(result) && carry <= 1
    && Account(result, carry) == Prefix(left, i) + Prefix(right, i)
    && (i > 0 ==> 10 * carry + result[i - 1] >= Pad(left, i - 1) + Pad(right, i - 1))
  }

  /** The value of the pushed digits with a pending carry above them. */
  function Account(result: seq<nat>, carry: nat): nat {
    LeValue(result) + carry * Pow10(|result|)
  }

  lemma AccountNoCarry(result: seq<nat>)
    ensures Account(result, 0) == LeValue(result)
  {
  }

  lemma MulDistributes(a: nat, b: nat, p: nat)
    ensures (a + b) * p == a * p + b * p
  {
  }

  lemma SplitPlace(n: nat, p: nat)
    ensures (n % 10) * p + (n / 10) * (10 * p) == n * p
  {
    var q, m := n / 10, n % 10;
    assert n == 10 * q + m;
    MulDistributes(10 * q, m, p);
    assert (10 * q) * p == q * (10 * p);
  }

  /** Pushing the low digit and carrying the rest leaves the account as it was. */
  lemma {:induction false} PushDigit(result: seq<nat>, n: nat)
    ensures Account(result + [n % 10], n / 10) == LeValue(result) + n * Pow10(|result|)
  {
    LeAppend(result, n % 10);
    SplitPlace(n, Pow10(|result|));
    assert Pow10(|result| + 1) == 10 * Pow10(|result|);
  }

  lemma {:induction false} PlaceAdded(left: seq<nat>, right: seq<nat>, i: nat, result: seq<nat>, carry: nat)
    requires AddedSoFar(left, right, i, result, carry) && Digits(left) && Digits(right)
    ensures var sum := Pad(left, i) + Pad(right, i) + carry;
            AddedSoFar(left, right, i + 1, result + [sum % 10], sum / 10)
  {
    var a, b, p := Pad(left, i), Pad(right, i), Pow10(i);
    PushDigit(result, a + b + carry);
    MulDistributes(a + b, carry, p);
    MulDistributes(a, b, p);
    assert Prefix(left, i + 1) == Prefix(left, i) + a * p;
    assert Prefix(right, i + 1) == Prefix(right, i) + b * p;
  }

  lemma TopDigit(s: string)
    requires Canonical(s)
    ensures s == "0" || Pad(ReversedDigits(s), |s| - 1) > 0
  {
  }

  /** The digits to print: the pushed ones and the carry, if there is one. */
  function WithCarry(result: seq<nat>, carry: nat): seq<nat> {
    if carry > 0 then result + [carry] else result
  }

  lemma WithCarryValue(result: seq<nat>, carry: nat)
    ensures LeValue(WithCarry(result, carry)) == Account(result, carry)
  {
    if carry > 0 {
      LeAppend(result, carry);
    } else {
      AccountNoCarry(result);
    }
  }

  lemma {:induction false} SumValue(x: string, y: string, result: seq<nat>, carry: nat)
    requires IsNumber(x) && IsNumber(y)
    requires AddedSoFar(ReversedDigits(x), ReversedDigits(y), Max(|x|, |y|), result, carry)
    ensures LeValue(WithCarry(result, carry)) == Value(x) + Value(y)
  {
    var n := Max(|x|, |y|);
    PrefixIsValue(ReversedDigits(x), n);
    PrefixIsValue(ReversedDigits(y), n);
    JoinedReversed(x);
    JoinedReversed(y);
    WithCarryValue(result, carry);
  }

  lemma SumCanonical(x: string, y: string, result: seq<nat>, carry: nat)
    requires Canonical(x) && Canonical(y) && !(x == "0" && y == "0")
    requires AddedSoFar(ReversedDigits(x), ReversedDigits(y), Max(|x|, |y|), result, carry)
    ensures Digits(WithCarry(result, carry)) && Canonical(Joined(WithCarry(result, carry)))
  {
    var left, right, n := ReversedDigits(x), ReversedDigits(y), Max(|x|, |y|);
    TopDigit(x);
    TopDigit(y);
    assert Pad(left, n - 1) + Pad(right, n - 1) > 0;
    var all := WithCarry(result, carry);
    assert all[|all| - 1] > 0;
    assert Joined(all)[0] == CharOf(all[|all| - 1]);
  }

  lemma ZeroSum(result: seq<nat>, carry: nat)
    requires AddedSoFar(ReversedDigits("0"), ReversedDigits("0"), 1, result, carry)
    ensures result == [0] && carry == 0
  {
    var zero := ReversedDigits("0");
    assert Prefix(zero, 1) == Prefix(zero, 0) + Pad(zero, 0) * Pow10(0);
    assert Account(result, carry) == 0;
    assert result == [] + [result[0]];
    LeAppend([], result[0]);
  }

  lemma {:induction false} SumPrints(x: string, y: string, result: seq<nat>, carry: nat)
    requires Canonical(x) && Canonical(y)
    requires AddedSoFar(ReversedDigits(x), ReversedDigits(y), Max(|x|, |y|), result, carry)
    ensures Digits(WithCarry(result, carry))
    ensures Joined(WithCarry(result, carry)) == Decimal(Value(x) + Value(y))
  {
    var all := WithCarry(result, carry);
    SumValue(x, y, result, carry);
    if x == "0" && y == "0" {
      ZeroSum(result, carry);
    } else {
      SumCanonical(x, y, result, carry);
    }
    JoinedValue(all);
    CanonicalIsDecimal(Joined(all));
  }

  /** The loop over the places of two reversed digit lists. */
  method AddDigits(left: seq<nat>, right: seq<nat>) returns (result: seq<nat>, carry: nat)
    requires Digits(left) && Digits(right)
    ensures AddedSoFar(left, right, Max(|left|, |right|), result, carry)
  {
    var length := Max(|left|, |right|);
    result, carry := [], 0;
    var i := 0;
    while i < length
      invariant 0 <= i <= length
      invariant AddedSoFar(left, right, i, result, carry)
    {
      var sum := Pad(left, i) + Pad(right, i) + carry;
      PlaceAdded(left, right, i, result, carry);
      result := result + [sum % 10];
      carry := sum / 10;
      i := i + 1;
    }
  }

  method AddIntString(a: string, b: string) returns (r: string)
    requires IsNumber(a) && IsNumber(b)
    ensures r == Decimal(Value(a) + Value(b))
  {
    NormalIsCanonical(a);
    NormalIsCanonical(b);
    var result, carry := AddDigits(ReversedDigits(Normal(a)), ReversedDigits(Normal(b)));
    SumPrints(Normal(a), Normal(b), result, carry);
    if carry > 0 {
      result := result + [carry];
    }
    r := Joined(result);
  }

  // ---------- multiplication ----------

  /** After i digits, with the carry below the factor. */
  ghost predicate MultipliedSoFar(digits: seq<nat>, factor: nat, i: nat, result: seq<nat>, carry: nat) {
    && i <= |digits| && |result| == i && Digits(result) && carry < factor
    && Account(result, carry) == LeValue(digits[..i]) * factor
    && (i > 0 && digits[i - 1] > 0 ==> 10 * carry + result[i - 1] > 0)
  }

  lemma DigitProduct(digit: nat, factor: nat, carry: nat)
    requires digit <= 9 && carry < factor
    ensures digit * factor + carry < 10 * factor
    ensures digit > 0 ==> digit * factor + carry > 0
  {
    assert digit * factor <= 9 * factor;
    assert digit > 0 ==> digit * factor >= factor;
  }

  lemma ScaledPlace(v: nat, d: nat, p: nat, factor: nat)
    ensures (v + d * p) * factor == v * factor + (d * factor) * p
  {
    MulDistributes(v, d * p, factor);
    assert (d * p) * factor == (d * factor) * p;
  }

  lemma {:induction false} PlaceAccount(digits: seq<nat>, factor: nat, i: nat, result: seq<nat>, carry: nat)
    requires |result| == i < |digits| && Account(result, carry) == LeValue(digits[..i]) * factor
    ensures var product := digits[i] * factor + carry;
            Account(result + [product % 10], product / 10) == LeValue(digits[..i + 1]) * factor
  {
    var d, p := digits[i], Pow10(i);
    PushDigit(result, d * factor + carry);
    MulDistributes(d * factor, carry, p);
    assert digits[..i + 1] == digits[..i] + [d];
    LeAppend(digits[..i], d);
    ScaledPlace(LeValue(digits[..i]), d, p, factor);
  }

  lemma {:induction false} PlaceMultiplied(digits: seq<nat>, factor: nat, i: nat, result: seq<nat>, carry: nat)
    requires MultipliedSoFar(digits, factor, i, result, carry) && i < |digits| && Digits(digits)
    ensures var product := digits[i] * factor + carry;
            product < 10 * factor && MultipliedSoFar(digits, factor, i + 1, result + [product % 10], product / 10)
  {
    DigitProduct(digits[i], factor, carry);
    PlaceAccount(digits, factor, i, result, carry);
  }

  /** While the carry is spelled out, the account stays what it was. */
  ghost predicate CarryingOut(total: nat, factor: nat, result: seq<nat>, carry: nat) {
    && Digits(result) && carry < factor && Account(result, carry) == total
    && (if total == 0 then result == [] && carry == 0
        else result != [] && 10 * carry + result[|result| - 1] > 0)
  }

  lemma CarryDigit(total: nat, factor: nat, result: seq<nat>, carry: nat)
    requires CarryingOut(total, factor, result, carry) && carry > 0
    ensures CarryingOut(total, factor, result + [carry % 10], carry / 10)
  {
    PushDigit(result, carry);
  }

  lemma {:induction false} ProductAccount(s: string, factor: nat, result: seq<nat>, carry: nat)
    requires IsNumber(s) && MultipliedSoFar(ReversedDigits(s), factor, |s|, result, carry)
    ensures Account(result, carry) == Value(s) * factor
  {
    var digits := ReversedDigits(s);
    assert digits[..|s|] == digits;
    JoinedReversed(s);
  }

  lemma EmptyProduct(factor: nat, result: seq<nat>, carry: nat)
    requires MultipliedSoFar([], factor, 0, result, carry)
    ensures result == [] && carry == 0
  {
    assert LeValue([]) == 0;
    assert Account([], carry) == carry * Pow10(0) == carry;
  }

  lemma ProductIsZero(s: string, factor: nat)
    requires IsNumber(s) && (s == "" || s[0] != '0') && factor > 0
    ensures Value(s) * factor == 0 <==> s == ""
  {
    if s != "" {
      PositiveValue(s);
      assert Value(s) * factor >= factor;
    }
  }

  lemma {:induction false} ProductStarts(s: string, factor: nat, result: seq<nat>, carry: nat)
    requires IsNumber(s) && (s == "" || s[0] != '0') && factor > 0
    requires MultipliedSoFar(ReversedDigits(s), factor, |s|, result, carry)
    ensures CarryingOut(Value(s) * factor, factor, result, carry)
  {
    ProductAccount(s, factor, result, carry);
    ProductIsZero(s, factor);
    if s == "" {
      assert ReversedDigits(s) == [];
      EmptyProduct(factor, result, carry);
    } else {
      assert ReversedDigits(s)[|s| - 1] == DigitOf(s[0]) > 0;
    }
  }

  lemma ProductPrints(total: nat, factor: nat, result: seq<nat>)
    requires CarryingOut(total, factor, result, 0)
    ensures (if Joined(result) == "" then "0" else Joined(result)) == Decimal(total)
  {
    AccountNoCarry(result);
    if total > 0 {
      JoinedValue(result);
      CanonicalIsDecimal(Joined(result));
    }
  }

  /** The multiplication loop; `peak` is the largest number it computes. */
  method MulDigits(digits: seq<nat>, factor: nat) returns (result: seq<nat>, carry: nat, ghost peak: nat)
    requires Digits(digits) && factor > 0
    ensures MultipliedSoFar(digits, factor, |digits|, result, carry) && peak < 10 * factor
  {
    result, carry, peak := [], 0, 0;
    var i := 0;
    while i < |digits|
      invariant MultipliedSoFar(digits, factor, i, result, carry) && peak < 10 * factor
    {
      PlaceMultiplied(digits, factor, i, result, carry);
      var product := digits[i] * factor + carry;
      peak := Max(peak, product);
      result := result + [product % 10];
      carry := product / 10;
      i := i + 1;
    }
  }

  /** `peak` is the largest intermediate number the loops compute. */
  method MulIntString(value: string, factor: int) returns (r: string, ghost peak: nat)
    requires IsNumber(value)
    ensures r == Decimal(if factor <= 0 then 0 else Value(value) * factor)
    ensures factor > 0 ==> peak < 10 * factor
  {
    peak := 0;
    if factor <= 0 {
      r := "0";
      return;
    }
    StripKeepsValue(value);
    var stripped := StripZeros(value);
    var result, carry;
    result, carry, peak := MulDigits(ReversedDigits(stripped), factor);
    ghost var total := Value(stripped) * factor;
    ProductStarts(stripped, factor, result, carry);
    while carry > 0
      invariant CarryingOut(total, factor, result, carry) && peak < 10 * factor
    {
      CarryDigit(total, factor, result, carry);
      peak := Max(peak, carry);
      result := result + [carry % 10];
      carry := carry / 10;
    }
    ProductPrints(total, factor, result);
    r := Joined(result);
    if r == "" {
      r := "0";
    }
  }

  // ---------- the numbers are JavaScript doubles ----------

  const MAX_SAFE := 0x20_0000_0000_0000

  /** What correct rounding promises: relative error at most 2^-53, and integers
      up to 2^53 are exact. */
  predicate RoundsTo(exact: real, double: real) {
    && -exact / (MAX_SAFE as real) <= double - exact <= exact / (MAX_SAFE as real)
    && (exact.Floor as real == exact && exact <= MAX_SAFE as real ==> double == exact)
  }

  lemma ErrorBelowTenth(exact: real, double: real)
    requires 0.0 <= exact < (MAX_SAFE as real) / 10.0 && RoundsTo(exact, double)
    ensures -0.1 < double - exact < 0.1
  {
    assert exact / (MAX_SAFE as real) < 0.1;
  }

  lemma FloorBetween(q: int, x: real)
    requires q as real <= x < q as real + 1.0
    ensures x.Floor == q
  {
  }

  lemma TenthOf(product: int, q: int, m: int)
    requires product == 10 * q + m
    ensures product as real / 10.0 == q as real + m as real / 10.0
  {
    assert product as real == 10.0 * q as real + m as real;
  }

  lemma WholeTenth(product: nat, double: real)
    requires product % 10 == 0 && product < MAX_SAFE && RoundsTo(product as real / 10.0, double)
    ensures double.Floor == product / 10
  {
    TenthOf(product, product / 10, 0);
    FloorBetween(product / 10, product as real / 10.0);
  }

  lemma BrokenTenth(q: int, m: int, exact: real, double: real)
    requires 1 <= m <= 9 && exact == q as real + m as real / 10.0 && -0.1 < double - exact < 0.1
    ensures double.Floor == q
  {
    FloorBetween(q, double);
  }

  /** Math.floor(product / 10) is the exact quotient although the division rounds. */
  lemma {:induction false} FloorDivisionExact(product: nat, double: real)
    requires product < MAX_SAFE && RoundsTo(product as real / 10.0, double)
    ensures double.Floor == product / 10
  {
    var q, m := product / 10, product % 10;
    if m == 0 {
      WholeTenth(product, double);
    } else {
      TenthOf(product, q, m);
      ErrorBelowTenth(product as real / 10.0, double);
      BrokenTenth(q, m, product as real / 10.0, double);
    }
  }

  lemma SumExact(scaled: nat, carry: nat, rounded: real, sum: real)
    requires scaled + carry <= MAX_SAFE
    requires RoundsTo(scaled as real, rounded) && RoundsTo(rounded + carry as real, sum)
    ensures sum == (scaled + carry) as real
  {
    assert (scaled as real).Floor == scaled;
    assert rounded + carry as real == (scaled + carry) as real;
    assert ((scaled + carry) as real).Floor == scaled + carry;
  }

  /** Digit times factor plus carry is exact in doubles, step by step, whenever
      ten times the factor is. */
  lemma ProductExact(digit: nat, factor: nat, carry: nat, scaled: real, product: real)
    requires digit <= 9 && carry < factor && 10 * factor <= MAX_SAFE
    requires RoundsTo((digit * factor) as real, scaled) && RoundsTo(scaled + carry as real, product)
    ensures product == (digit * factor + carry) as real
  {
    DigitProduct(digit, factor, carry);
    SumExact(digit * factor, carry, scaled, product);
  }

  // ---------- totals ----------

  datatype PricedLine = PricedLine(price: string, quantity: int)

  function LinesTotal(lines: seq<PricedLine>): nat
    requires forall i :: 0 <= i < |lines| ==> IsNumber(lines[i].price)
  {
    if lines == [] then 0
    else
      var last := lines[|lines| - 1];
      LinesTotal(lines[..|lines| - 1]) + if last.quantity <= 0 then 0 else Value(last.price) * last.quantity
  }

  /** Price times quantity, summed; a quantity below one counts for nothing. */
  lemma LinesTotalExactly(lines: seq<PricedLine>, line: PricedLine)
    requires IsNumber(line.price) && forall i :: 0 <= i < |lines| ==> IsNumber(lines[i].price)
    ensures LinesTotal([]) == 0
    ensures forall i :: 0 <= i < |lines + [line]| ==> IsNumber((lines + [line])[i].price)
    ensures LinesTotal(lines + [line])
            == LinesTotal(lines) + if line.quantity < 1 then 0 else Value(line.price) * line.quantity
  {
    assert (lines + [line])[..|lines|] == lines;
  }

  /** The reduce over the lines. */
  method SumLineTotal(lines: seq<PricedLine>) returns (total: string)
    requires forall i :: 0 <= i < |lines| ==> IsNumber(lines[i].price)
    ensures total == Decimal(LinesTotal(lines))
  {
    total := "0";
    DecimalValue(0);
    var i := 0;
    while i < |lines|
      invariant 0 <= i <= |lines|
      invariant total == Decimal(LinesTotal(lines[..i]))
    {
      assert lines[..i + 1][..i] == lines[..i];
      DecimalValue(LinesTotal(lines[..i]));
      var line, _ := MulIntString(lines[i].price, lines[i].quantity);
      DecimalValue(if lines[i].quantity <= 0 then 0 else Value(lines[i].price) * lines[i].quantity);
      total := AddIntString(total, line);
      i := i + 1;
    }
    assert lines[..i] == lines;
  }

  // ---------- comparison ----------

  /** JavaScript's `<` on strings of equal length. */
  predicate LexLess(x: string, y: string)
    requires |x| == |y|
  {
    x != "" && (x[0] < y[0] || (x[0] == y[0] && LexLess(x[1..], y[1..])))
  }

  function CompareIntString(a: string, b: string): int {
    var x, y := Normal(a), Normal(b);
    if |x| != |y| then if |x| < |y| then -1 else 1
    else if x == y then 0
    else if LexLess(x, y) then -1 else 1
  }

  lemma {:induction false} ValueBound(s: string)
    requires IsNumber(s)
    ensures Value(s) < Pow10(|s|)
  {
    if s != "" {
      ValueBound(s[..|s| - 1]);
    }
  }

  lemma {:induction false} HeadDecides(d: nat, e: nat, p: nat, low: nat, other: nat)
    requires d < e && low < p
    ensures d * p + low < e * p + other
  {
    assert (d + 1) * p <= e * p;
    MulDistributes(d, 1, p);
  }

  lemma {:induction false} LexIsOrder(x: string, y: string)
    requires IsNumber(x) && IsNumber(y) && |x| == |y|
    ensures LexLess(x, y) <==> Value(x) < Value(y)
  {
    if x != "" {
      HeadValue(x);
      HeadValue(y);
      ValueBound(x[1..]);
      ValueBound(y[1..]);
      LexIsOrder(x[1..], y[1..]);
      var p := Pow10(|x| - 1);
      if DigitOf(x[0]) < DigitOf(y[0]) {
        HeadDecides(DigitOf(x[0]), DigitOf(y[0]), p, Value(x[1..]), Value(y[1..]));
      } else if DigitOf(y[0]) < DigitOf(x[0]) {
        HeadDecides(DigitOf(y[0]), DigitOf(x[0]), p, Value(y[1..]), Value(x[1..]));
      }
    }
  }

  lemma LongerIsLarger(x: string, y: string)
    requires Canonical(x) && Canonical(y) && |x| < |y|
    ensures Value(x) < Value(y)
  {
    ValueBound(x);
    HeadValue(y);
    PowGrows(|x|, |y| - 1);
    HeadDecides(0, DigitOf(y[0]), Pow10(|y| - 1), Value(x), Value(y[1..]));
  }

  lemma {:induction false} PowGrows(m: nat, n: nat)
    requires m <= n
    ensures Pow10(m) <= Pow10(n)
  {
    if m < n {
      PowGrows(m, n - 1);
    }
  }

  /** The comparison of the strings is the comparison of the numbers. */
  lemma CompareIsOrder(a: string, b: string)
    requires IsNumber(a) && IsNumber(b)
    ensures CompareIntString(a, b) == if Value(a) < Value(b) then -1 else if Value(a) == Value(b) then 0 else 1
  {
    var x, y := Normal(a), Normal(b);
    NormalIsCanonical(a);
    NormalIsCanonical(b);
    if |x| < |y| {
      LongerIsLarger(x, y);
    } else if |y| < |x| {
      LongerIsLarger(y, x);
    } else {
      LexIsOrder(x, y);
      CanonicalIsDecimal(x);
      CanonicalIsDecimal(y);
    }
  }
}
