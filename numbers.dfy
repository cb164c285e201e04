/**
 * `Number(s)` on a string (the StringToNumber operation of section 7.1.4.1.1
 * of ECMA-262), and the two places the tracker uses it: the block-3 delay the
 * user types at the nap-end prompt (`promptBlock3Delay`, app.js:855-863) and
 * the day seed of the wake message (app.js:181-182).
 *
 * Finite results are kept as exact rationals; the rounding to a binary64
 * double is written out only where the tracker compares with a literal.
 */
module Numbers {
  import opened Wrappers
  import opened Strings

  /** What `Number(s)` yields, before rounding finite values to a double. */
  datatype NumberValue = NaN | Finite(value: real) | PosInfinity | NegInfinity

  /** The first position of `c` in `s`. */
  function IndexOf(s: string, c: char): (r: Option<nat>)
    ensures r.Some? ==> r.value < |s| && s[r.value] == c && c !in s[..r.value]
    ensures r.None? ==> c !in s
  {
    if s == [] then None
    else if s[0] == c then Some(0)
    else match IndexOf(s[1..], c)
      case None => None
      case Some(i) => assert s[..i + 1] == [s[0]] + s[1..][..i]; Some(i + 1)
  }

  /** The first position of an exponent marker `e` or `E`. */
  function ExponentMark(s: string): (r: Option<nat>)
    ensures r.Some? ==> r.value < |s| && (s[r.value] == 'e' || s[r.value] == 'E')
    ensures r.None? ==> 'e' !in s && 'E' !in s
  {
    if s == [] then None
    else if s[0] == 'e' || s[0] == 'E' then Some(0)
    else match ExponentMark(s[1..])
      case None => None
      case Some(i) => Some(i + 1)
  }

  /** `m * 10^e` for any integer `e`. */
  function Scale(m: real, e: int): real {
    if e >= 0 then m * Pow10(e) as real else m / Pow10(-e) as real
  }

  /** SignedInteger: an optional sign and at least one decimal digit. */
  function SignedInteger(s: string): Option<int> {
    if |s| > 1 && (s[0] == '+' || s[0] == '-') && AllDigits(s[1..]) then
      Some(if s[0] == '-' then -(DigitsValue(s[1..]) as int) else DigitsValue(s[1..]))
    else if |s| > 0 && AllDigits(s) then Some(DigitsValue(s))
    else None
  }

  /**
   * StrUnsignedDecimalLiteral without `Infinity`: digits with an optional
   * fraction (`1.`, `.5`, `1.5`) and an optional exponent.
   */
  function UnsignedDecimal(s: string): Option<real> {
    var mark := ExponentMark(s);
    var mantissa := if mark.Some? then s[..mark.value] else s;
    var exponent := if mark.Some? then SignedInteger(s[mark.value + 1..]) else Some(0);
    var dot := IndexOf(mantissa, '.');
    var whole := if dot.Some? then mantissa[..dot.value] else mantissa;
    var fraction := if dot.Some? then mantissa[dot.value + 1..] else "";
    if exponent.None? || !AllDigits(whole) || !AllDigits(fraction) || |whole| + |fraction| == 0 then None
    else Some(Scale(DigitsValue(whole + fraction) as real, exponent.value - |fraction|))
  }

  /** The value of a digit character in bases up to 16, or 16 when it is none. */
  function HexDigit(c: char): (d: nat)
    ensures d <= 16
  {
    if '0' <= c <= '9' then c as nat - '0' as nat
    else if 'a' <= c <= 'f' then c as nat - 'a' as nat + 10
    else if 'A' <= c <= 'F' then c as nat - 'A' as nat + 10
    else 16
  }

  predicate AllRadixDigits(s: string, base: nat) {
    forall i :: 0 <= i < |s| ==> HexDigit(s[i]) < base
  }

  /** The value of a string of base-`base` digits, read most significant digit first. */
  function RadixValue(s: string, base: nat): nat
    requires AllRadixDigits(s, base)
  {
    if s == [] then 0 else RadixValue(s[..|s| - 1], base) * base + HexDigit(s[|s| - 1])
  }

  /** NonDecimalIntegerLiteral after its `0x`, `0o` or `0b` prefix. */
  function NonDecimal(digits: string, base: nat): NumberValue {
    if |digits| > 0 && AllRadixDigits(digits, base) then Finite(RadixValue(digits, base) as real)
    else NaN
  }

  /** `Number(s)` for a string `s`: white space around the literal is ignored. */
  function StringToNumber(s: string): NumberValue {
    TrimmedToNumber(Trim(s))
  }

  /** StringNumericLiteral once the surrounding white space is gone. */
  function TrimmedToNumber(t: string): NumberValue {
    if t == "" then Finite(0.0)
    else if RadixPrefix(t) != 0 then NonDecimal(t[2..], RadixPrefix(t))
    else SignedDecimal(t)
  }

  /** The base a `0x`, `0o` or `0b` prefix (either case) announces, or 0 when there is none. */
  function RadixPrefix(t: string): nat {
    if |t| > 2 && t[0] == '0' then
      if t[1] == 'x' || t[1] == 'X' then 16
      else if t[1] == 'o' || t[1] == 'O' then 8
      else if t[1] == 'b' || t[1] == 'B' then 2
      else 0
    else 0
  }

  /** StrDecimalLiteral: an optional sign, then `Infinity` or an unsigned decimal. */
  function SignedDecimal(t: string): NumberValue
    requires t != ""
  {
    var negative := t[0] == '-';
    var body := if t[0] == '-' || t[0] == '+' then t[1..] else t;
    if body == "Infinity" then (if negative then NegInfinity else PosInfinity)
    else match UnsignedDecimal(body)
      case None => NaN
      case Some(v) => Finite(if negative then -v else v)
  }

  /** A string of digits (no sign, no point) is read as the integer it spells. */
  lemma DigitStringNumber(s: string)
    requires |s| > 0 && AllDigits(s)
    ensures StringToNumber(s) == Finite(DigitsValue(s) as real)
  {
    TrimOfDigits(s);
    NoRadixPrefix(s);
    SignedDigits(s);
  }

  lemma NoRadixPrefix(s: string)
    requires |s| > 0 && AllDigits(s)
    ensures RadixPrefix(s) == 0
  {
    if |s| > 2 {
      assert IsDigit(s[1]);
    }
  }

  lemma SignedDigits(s: string)
    requires |s| > 0 && AllDigits(s)
    ensures SignedDecimal(s) == Finite(DigitsValue(s) as real)
  {
    UnsignedDigits(s);
    assert IsDigit(s[0]);
    assert s != "Infinity" by { assert s[0] != 'I'; }
  }

  lemma UnsignedDigits(s: string)
    requires AllDigits(s) && |s| > 0
    ensures UnsignedDecimal(s) == Some(DigitsValue(s) as real)
  {
    NoExponentInDigits(s);
    assert '.' !in s;
    assert s + "" == s;
  }

  lemma NoExponentInDigits(s: string)
    requires AllDigits(s)
    ensures 'e' !in s && 'E' !in s
  {
  }

  /** Digits hold no white space, so `trim` leaves them alone. */
  lemma TrimOfDigits(s: string)
    requires AllDigits(s)
    ensures StringToNumber(s) == TrimmedToNumber(s)
  {
    var t := TrimStart(s);
    if s != [] {
      assert !IsJsSpace(s[0]);
      assert t == s;
      assert !IsJsSpace(s[|s| - 1]);
    }
  }

  // ----- The block-3 delay prompt -----

  /** Half a unit in the last place of a double in [16, 32) and in [32, 64). */
  const HalfUlp30: real := 1.0 / 562949953421312.0
  const HalfUlp40: real := 1.0 / 281474976710656.0

  /**
   * Whether a value rounds to the double `n`, for `n` among 30, 40 and 45. Each
   * has an even last significand bit, so a tie rounds to it; half a unit in
   * the last place is 2^-49 for 30 and 2^-48 for 40 and 45.
   */
  predicate RoundsTo(v: real, n: int)
    requires n == 30 || n == 40 || n == 45
  {
    var half := if n == 30 then HalfUlp30 else HalfUlp40;
    n as real - half <= v <= n as real + half
  }

  /** `[30, 40, 45].includes(Number(choice))`, as the value it matched. */
  function TypedDelay(choice: string): (r: Option<int>)
    ensures r.Some? ==> r.value == 30 || r.value == 40 || r.value == 45
  {
    match StringToNumber(choice)
    case Finite(v) => OfferedDelay(v)
    case _ => None
  }

  /** The offered delay a finite value rounds to, if any. */
  function OfferedDelay(v: real): (r: Option<int>)
    ensures r.Some? ==> (r.value == 30 || r.value == 40 || r.value == 45) && RoundsTo(v, r.value)
    ensures r.None? ==> !RoundsTo(v, 30) && !RoundsTo(v, 40) && !RoundsTo(v, 45)
  {
    if RoundsTo(v, 30) then Some(30)
    else if RoundsTo(v, 40) then Some(40)
    else if RoundsTo(v, 45) then Some(45)
    else None
  }

  /**
   * `promptBlock3Delay()`: `None` stands for `null` (the prompt was
   * cancelled); a typed 30, 40 or 45 is kept and anything else becomes 40.
   */
  function PromptDelay(choice: Option<string>): (r: Option<int>)
    ensures r.None? <==> choice.None?
    ensures r.Some? ==> r.value == 30 || r.value == 40 || r.value == 45
    ensures choice.Some? && TypedDelay(choice.value).None? ==> r == Some(40)
  {
    match choice
    case None => None
    case Some(s) => match TypedDelay(s) { case Some(n) => Some(n) case None => Some(40) }
  }

  /** Typing one of the offered delays in digits selects exactly that delay. */
  lemma PromptDelayOfDigits(n: nat)
    requires n == 30 || n == 40 || n == 45
    ensures PromptDelay(Some(Decimal(n))) == Some(n)
  {
    var c := Decimal(n);
    assert StringToNumber(c) == Finite(n as real) by {
      DecimalValue(n);
      DigitStringNumber(c);
    }
    RoundsToUnique(n as real, n);
  }

  /** A value that rounds to one offered delay rounds to no other. */
  lemma RoundsToUnique(v: real, n: int)
    requires n == 30 || n == 40 || n == 45
    requires RoundsTo(v, n)
    ensures OfferedDelay(v) == Some(n)
  {
  }

  /** `Number` reads a blank answer as 0, which is not offered, so it becomes 40. */
  lemma BlankPromptIsDefault(s: string)
    requires AllSpace(s)
    ensures PromptDelay(Some(s)) == Some(40)
  {
    assert StringToNumber(s) == Finite(0.0) by {
      TrimEmptyIffAllSpace(s);
    }
    assert OfferedDelay(0.0) == None;
  }

  // ----- The wake-message seed -----

  /**
   * `pool[Number(seed) % pool.length]` as an index: a whole number is reduced
   * with JavaScript's `%`, which keeps the dividend's sign, so a negative
   * remainder (and every non-integer, NaN or infinite seed) indexes nothing.
   */
  function SeedIndex(seed: NumberValue, len: nat): (r: Option<nat>)
    requires len > 0
    ensures r.Some? ==> r.value < len
  {
    match seed
    case Finite(v) =>
      if v != v.Floor as real then None
      else if v >= 0.0 then Some(v.Floor % len)
      else if v.Floor % len == 0 then Some(0)
      else None
    case _ => None
  }

  /** A seed that spells a whole number picks that number modulo the pool size. */
  lemma DigitSeedIndex(s: string, len: nat)
    requires len > 0 && |s| > 0 && AllDigits(s)
    ensures SeedIndex(StringToNumber(s), len) == Some(DigitsValue(s) % len)
  {
    DigitStringNumber(s);
    var n := DigitsValue(s);
    assert (n as real).Floor == n;
  }
}
