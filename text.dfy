/** String helpers with JavaScript semantics: `trim`, the decimal text of an integer and
    `parseInt` without a radix argument. */
module Text {
  import opened Common

  /** The code points ECMAScript classes as WhiteSpace or LineTerminator: what
      `String.prototype.trim` strips and what `parseInt` skips before the number. */
  predicate IsWhite(c: char) {
    var n := c as int;
    n == 0x09 || n == 0x0A || n == 0x0B || n == 0x0C || n == 0x0D || n == 0x20 || n == 0xA0
    || n == 0x1680 || (0x2000 <= n <= 0x200A) || n == 0x2028 || n == 0x2029 || n == 0x202F
    || n == 0x205F || n == 0x3000 || n == 0xFEFF
  }

  /** The line terminators, which `.` in a regular expression does not match. */
  predicate IsLineTerminator(c: char) {
    var n := c as int;
    n == 0x0A || n == 0x0D || n == 0x2028 || n == 0x2029
  }

  /** `s` without its leading white space. */
  function TrimStart(s: string): (r: string)
    ensures |r| <= |s| && r == s[|s| - |r|..]
    ensures forall i :: 0 <= i < |s| - |r| ==> IsWhite(s[i])
    ensures r != [] ==> !IsWhite(r[0])
    decreases |s|
  {
    if s != [] && IsWhite(s[0]) then TrimStart(s[1..]) else s
  }

  /** `s` without its trailing white space. */
  function TrimEnd(s: string): (r: string)
    ensures |r| <= |s| && r == s[..|r|]
    ensures forall i :: |r| <= i < |s| ==> IsWhite(s[i])
    ensures r != [] ==> !IsWhite(r[|r| - 1])
    decreases |s|
  {
    if s != [] && IsWhite(s[|s| - 1]) then TrimEnd(s[..|s| - 1]) else s
  }

  /** `s.trim()`. */
  function Trim(s: string): string {
    TrimEnd(TrimStart(s))
  }

  /** `s.trim() === ""`, the test the forms use to reject an empty text field. */
  predicate IsBlank(s: string) {
    Trim(s) == ""
  }

  /** A field is blank exactly when every character of it is white space; in particular the
      empty string is blank and any text with one visible character is not. */
  lemma BlankIffAllWhite(s: string)
    ensures IsBlank(s) <==> forall i :: 0 <= i < |s| ==> IsWhite(s[i])
  {
    var t := TrimStart(s);
    if t != [] {
      assert !IsWhite(t[0]);
      assert !IsWhite(s[|s| - |t|]);
    }
  }

  function DigitChar(d: nat): (c: char)
    requires d < 10
    ensures '0' <= c <= '9'
  {
    (('0' as int) + d) as char
  }

  /** The decimal digits of `n` without leading zeros ("0" for zero): `n.toString()` for a
      non-negative integer below 10^21. */
  function Decimal(n: nat): (r: string)
    ensures r != [] && forall i :: 0 <= i < |r| ==> '0' <= r[i] <= '9'
    ensures |r| > 1 ==> r[0] != '0'
    decreases n
  {
    if n < 10 then [DigitChar(n)] else Decimal(n / 10) + [DigitChar(n % 10)]
  }

  /** `n.toString()` for an integer `n` with `|n| < 10^21` (with `-` in front of a negative
      one); from 10^21 on JavaScript writes the exponent form instead, which is not modelled. */
  function IntToString(n: int): string {
    if n < 0 then "-" + Decimal(-n) else Decimal(n)
  }

  /** The value of `c` as a digit in base `radix` (10 or 16), if it is one. */
  function DigitValue(c: char, radix: nat): Option<nat> {
    if '0' <= c <= '9' then Some(c as int - '0' as int)
    else if radix == 16 && 'a' <= c <= 'f' then Some(c as int - 'a' as int + 10)
    else if radix == 16 && 'A' <= c <= 'F' then Some(c as int - 'A' as int + 10)
    else None
  }

  /** The longest prefix of `s` made of digits in base `radix`. */
  function DigitPrefix(s: string, radix: nat): (r: string)
    ensures |r| <= |s| && r == s[..|r|]
    ensures forall i :: 0 <= i < |r| ==> DigitValue(r[i], radix).Some?
    ensures |r| < |s| ==> DigitValue(s[|r|], radix).None?
    decreases |s|
  {
    if s != [] && DigitValue(s[0], radix).Some? then [s[0]] + DigitPrefix(s[1..], radix) else []
  }

  /** The number the digits `ds` denote in base `radix`. */
  function ValueOf(ds: string, radix: nat): int
    requires radix == 10 || radix == 16
    requires forall i :: 0 <= i < |ds| ==> DigitValue(ds[i], radix).Some?
    decreases |ds|
  {
    if ds == [] then 0
    else
      var v := ValueOf(ds[..|ds| - 1], radix);
      (if radix == 16 then 16 * v else 10 * v) + DigitValue(ds[|ds| - 1], radix).value
  }

  /** The number the digits at the start of `u` denote: in base 16 after a `0x` or `0X`
      prefix, in base 10 otherwise. `None` when no digit follows. */
  function Magnitude(u: string): Option<int> {
    var hex := |u| >= 2 && u[0] == '0' && (u[1] == 'x' || u[1] == 'X');
    var radix := if hex then 16 else 10;
    var digits := DigitPrefix(if hex then u[2..] else u, radix);
    if digits == [] then None else Some(ValueOf(digits, radix))
  }

  /** `parseInt(s)` without a radix argument (section 19.2.5 of ECMAScript 2024): skip the
      leading white space, read an optional sign, switch to base 16 after a `0x` or `0X`
      prefix, then read the longest run of digits. `None` stands for NaN; a negative zero
      is read as 0, and no precision is lost on very large values. */
  function ParseInt(s: string): Option<int> {
    var t := TrimStart(s);
    if t != [] && t[0] == '-' then
      match Magnitude(t[1..])
      case None => None
      case Some(v) => Some(-v)
    else if t != [] && t[0] == '+' then Magnitude(t[1..])
    else Magnitude(t)
  }

  /** A run made only of digits is read whole. */
  lemma {:induction false} DigitPrefixAll(s: string, radix: nat)
    requires forall i :: 0 <= i < |s| ==> DigitValue(s[i], radix).Some?
    ensures DigitPrefix(s, radix) == s
    decreases |s|
  {
    if s != [] {
      DigitPrefixAll(s[1..], radix);
    }
  }

  lemma {:induction false} DecimalValue(n: nat)
    ensures ValueOf(Decimal(n), 10) == n
    decreases n
  {
    var r := Decimal(n);
    if n >= 10 {
      DecimalValue(n / 10);
      assert r[..|r| - 1] == Decimal(n / 10);
    }
  }

  /** The digits of `n` denote `n`. */
  lemma MagnitudeDecimal(n: nat)
    ensures Magnitude(Decimal(n)) == Some(n)
  {
    var d := Decimal(n);
    assert !(|d| >= 2 && d[0] == '0');
    DigitPrefixAll(d, 10);
    DecimalValue(n);
  }

  /** Text that starts with a digit is read without a sign. */
  lemma ParseIntUnsigned(s: string)
    requires s != [] && '0' <= s[0] <= '9'
    ensures ParseInt(s) == Magnitude(s)
  {
    assert TrimStart(s) == s;
  }

  /** Text that starts with `-` is read as the negated magnitude of the rest. */
  lemma ParseIntMinus(s: string)
    requires s != [] && s[0] == '-'
    ensures ParseInt(s) == match Magnitude(s[1..]) case None => None case Some(v) => Some(-v)
  {
    assert TrimStart(s) == s;
  }

  /** The digit string of a natural number reads back as that number. */
  lemma ParseIntDecimal(n: nat)
    ensures ParseInt(Decimal(n)) == Some(n)
  {
    ParseIntUnsigned(Decimal(n));
    MagnitudeDecimal(n);
  }

  /** The same with a minus sign in front. */
  lemma ParseIntNegDecimal(n: nat)
    ensures ParseInt("-" + Decimal(n)) == Some(-(n as int))
  {
    var s := "-" + Decimal(n);
    assert s[1..] == Decimal(n);
    ParseIntMinus(s);
    MagnitudeDecimal(n);
  }

  /** Reading back the decimal text of an integer gives the integer: `parseInt(n.toString()) === n`
      wherever `toString` writes decimal digits, which is for `|n| < 10^21`. */
  lemma ParseIntShow(n: int)
    ensures ParseInt(IntToString(n)) == Some(n)
  {
    var s := IntToString(n);
    if n < 0 {
      var m: nat := -n;
      assert s == "-" + Decimal(m);
      ParseIntNegDecimal(m);
      assert ParseInt(s) == Some(n);
    } else {
      assert s == Decimal(n);
      ParseIntDecimal(n);
      assert ParseInt(s) == Some(n);
    }
  }
}
