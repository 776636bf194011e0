/** Java numbers and their text forms as the ledger files use them: `int` with its
    wrap-around, `Integer.parseInt`, `String.valueOf(int)`, `%03d`, `%.2f`,
    `Double.parseDouble` on plain decimals, `%b` and `Boolean.parseBoolean`. */
module Numbers {
  import opened Wrappers
  import opened Text

  /** Java `int`. */
  newtype int32 = x: int | -0x8000_0000 <= x < 0x8000_0000

  /** Java's `x + 1` on an `int`: the largest value wraps to the smallest. */
  function Inc32(x: int32): int32 {
    if x == 0x7fff_ffff then -0x8000_0000 else x + 1
  }

  predicate IsDigit(c: char) {
    '0' <= c <= '9'
  }

  predicate AllDigits(s: string) {
    forall k :: 0 <= k < |s| ==> IsDigit(s[k])
  }

  function DigitChar(d: nat): (c: char)
    requires d < 10
    ensures IsDigit(c) && c as int - '0' as int == d
  {
    ('0' as int + d) as char
  }

  /** The value of a decimal digit string; leading zeros allowed. */
  function DigitsValue(s: string): nat
    requires AllDigits(s)
  {
    if s == [] then 0 else DigitsValue(s[..|s| - 1]) * 10 + (s[|s| - 1] as int - '0' as int)
  }

  function Pow10(n: nat): (r: nat)
    ensures r >= 1
  {
    if n == 0 then 1 else 10 * Pow10(n - 1)
  }

  /** The decimal text of a non-negative number, without leading zeros. */
  function NatToString(n: nat): string {
    if n < 10 then [DigitChar(n)] else NatToString(n / 10) + [DigitChar(n % 10)]
  }

  /** The text of `n` consists of one or more digits whose value is `n`. */
  lemma {:induction false} NatToStringValue(n: nat)
    ensures |NatToString(n)| >= 1 && AllDigits(NatToString(n))
    ensures DigitsValue(NatToString(n)) == n
  {
    if n >= 10 {
      NatToStringValue(n / 10);
      var s := NatToString(n);
      assert s[..|s| - 1] == NatToString(n / 10);
    }
  }

  /** `String.valueOf(int)` and `%d`: an optional minus sign and the digits. */
  function IntToString(n: int): string {
    if n < 0 then "-" + NatToString(-n) else NatToString(n)
  }

  /** `Integer.parseInt`: an optional '+' or '-', then one or more digits, and a value
      inside the `int` range; anything else throws (here: None). */
  function ParseInt(s: string): Option<int32> {
    var signed := |s| > 0 && (s[0] == '-' || s[0] == '+');
    var digits := if signed then s[1..] else s;
    if |digits| == 0 || !AllDigits(digits) then None
    else
      var v: int := if signed && s[0] == '-' then -(DigitsValue(digits) as int) else DigitsValue(digits);
      if -0x8000_0000 <= v < 0x8000_0000 then Some(v as int32) else None
  }

  /** `Integer.parseInt` reads back what `String.valueOf` writes, for every `int`. */
  lemma ParseIntOfIntToString(n: int32)
    ensures ParseInt(IntToString(n as int)) == Some(n)
  {
    if n < 0 {
      NatToStringValue(-(n as int));
      assert ("-" + NatToString(-(n as int)))[1..] == NatToString(-(n as int));
    } else {
      NatToStringValue(n as int);
    }
  }

  /** `String.format("%03d", n)` for a non-negative `n`: zero-padded to three digits. */
  function Pad3(n: nat): string {
    var s := NatToString(n);
    if |s| >= 3 then s else seq(3 - |s|, _ => '0') + s
  }

  lemma {:induction false} LeadingZeros(z: string, s: string)
    requires forall k :: 0 <= k < |z| ==> z[k] == '0'
    requires AllDigits(s)
    ensures AllDigits(z + s) && DigitsValue(z + s) == DigitsValue(s)
    decreases |z| + |s|
  {
    if s == [] {
      assert z + s == z;
      if z != [] {
        LeadingZeros(z[..|z| - 1], []);
        assert z[..|z| - 1] + [] == z[..|z| - 1];
      }
    } else {
      LeadingZeros(z, s[..|s| - 1]);
      assert (z + s)[..|z + s| - 1] == z + s[..|s| - 1];
    }
  }

  /** `%03d` writes at least three digits and keeps the value, so distinct counters
      give distinct identifiers. */
  lemma Pad3Value(n: nat)
    ensures |Pad3(n)| >= 3 && AllDigits(Pad3(n)) && DigitsValue(Pad3(n)) == n
  {
    NatToStringValue(n);
    var s := NatToString(n);
    if |s| < 3 {
      LeadingZeros(seq(3 - |s|, _ => '0'), s);
    }
  }

  lemma Pad3Injective(a: nat, b: nat)
    requires Pad3(a) == Pad3(b)
    ensures a == b
  {
    Pad3Value(a);
    Pad3Value(b);
  }

  /** The identifiers the services generate, `String.format("C%03d", n)` and the like: a
      letter followed by `n` zero-padded to three digits. */
  function SequenceId(prefix: char, n: nat): string {
    [prefix] + Pad3(n)
  }

  /** Different numbers give different identifiers. */
  lemma SequenceIdInjective(prefix: char, a: nat, b: nat)
    requires SequenceId(prefix, a) == SequenceId(prefix, b)
    ensures a == b
  {
    assert SequenceId(prefix, a)[1..] == Pad3(a);
    assert SequenceId(prefix, b)[1..] == Pad3(b);
    Pad3Injective(a, b);
  }

  /** With a letter as prefix, a generated identifier is a field: it survives the file
      unchanged. */
  lemma SequenceIdIsField(prefix: char, n: nat)
    requires !IsSpace(prefix) && prefix != ','
    ensures IsField(SequenceId(prefix, n))
  {
    var d := Pad3(n);
    Pad3Value(n);
    var r := SequenceId(prefix, n);
    assert forall k :: 0 <= k < |d| ==> IsDigit(d[k]);
    assert forall k :: 1 <= k < |r| ==> r[k] == d[k - 1];
  }

  /** Cents of |x| rounded half-up: the digits `%.2f` prints after the sign. */
  function Cents(x: real): nat {
    var a := if x < 0.0 then -x else x;
    (a * 100.0 + 0.5).Floor
  }

  /** `String.format("%.2f", x)` (HALF_UP rounding, '.' as decimal separator). */
  function FormatFixed2(x: real): string {
    Signed(x < 0.0, Fixed2Digits(Cents(x)))
  }

  /** A text with a leading '-' when `negative`. */
  function Signed(negative: bool, body: string): string {
    if negative then "-" + body else body
  }

  function SignedValue(negative: bool, v: real): real {
    if negative then -v else v
  }

  /** `c` hundredths written with two decimals: whole part, '.', and two digits. */
  function Fixed2Digits(c: nat): string {
    NatToString(c / 100) + "." + [DigitChar(c % 100 / 10), DigitChar(c % 10)]
  }

  /** The value `%.2f` shows for `x`. */
  function Round2(x: real): real {
    SignedValue(x < 0.0, Cents(x) as real / 100.0)
  }

  /** Digits, optionally with one '.', with at least one digit: its exact value. */
  function ParseUnsignedDecimal(s: string): Option<real> {
    if '.' !in s then
      if |s| > 0 && AllDigits(s) then Some(DigitsValue(s) as real) else None
    else
      var i := IndexOf(s, '.');
      var whole, frac := s[..i], s[i + 1..];
      if |whole| + |frac| > 0 && AllDigits(whole) && AllDigits(frac)
      then Some(DigitsValue(whole) as real + DigitsValue(frac) as real / Pow10(|frac|) as real)
      else None
  }

  /** `Double.parseDouble` on plain decimal text: an optional sign, then digits with at
      most one '.'. */
  function ParseDecimal(s: string): Option<real> {
    if |s| > 0 && (s[0] == '-' || s[0] == '+') then
      match ParseUnsignedDecimal(s[1..])
      case Some(v) => Some(if s[0] == '-' then -v else v)
      case None => None
    else ParseUnsignedDecimal(s)
  }

  lemma {:induction false} ParseUnsignedWithPoint(whole: string, frac: string, w: nat, f: nat, d: nat, v: real)
    requires |whole| > 0 && AllDigits(whole) && AllDigits(frac)
    requires DigitsValue(whole) == w && DigitsValue(frac) == f && Pow10(|frac|) == d
    requires w as real + f as real / d as real == v
    ensures ParseUnsignedDecimal(whole + "." + frac) == Some(v)
  {
    var s := whole + "." + frac;
    IndexOfAfterPrefix(whole, '.', frac);
    assert s == whole + ['.'] + frac;
    assert s[..|whole|] == whole && s[|whole| + 1..] == frac;
  }

  lemma TwoDigitsValue(t: nat, u: nat)
    requires t < 10 && u < 10
    ensures AllDigits([DigitChar(t), DigitChar(u)])
    ensures DigitsValue([DigitChar(t), DigitChar(u)]) == 10 * t + u
  {
    var frac := [DigitChar(t), DigitChar(u)];
    var first := [DigitChar(t)];
    assert frac[..1] == first && first[..0] == [];
    assert DigitsValue(first) == t;
    assert DigitsValue(frac) == DigitsValue(first) * 10 + u;
  }

  lemma LastTwoDigits(c: nat)
    ensures c % 100 / 10 < 10 && 10 * (c % 100 / 10) + c % 10 == c % 100
  {
    var r := c % 100;
    assert r == (r / 10) * 10 + r % 10;
    assert c == (c / 100) * 100 + r;
    assert c == ((c / 100) * 10 + r / 10) * 10 + r % 10;
  }

  lemma CentsSplit(c: nat)
    ensures (c / 100) as real + (c % 100) as real / 100.0 == c as real / 100.0
  {
    assert c == (c / 100) * 100 + c % 100;
  }

  lemma ParseUnsignedFixed2(c: nat)
    ensures |Fixed2Digits(c)| > 0 && IsDigit(Fixed2Digits(c)[0])
    ensures ParseUnsignedDecimal(Fixed2Digits(c)) == Some(c as real / 100.0)
  {
    var whole, frac := NatToString(c / 100), [DigitChar(c % 100 / 10), DigitChar(c % 10)];
    assert Fixed2Digits(c) == whole + "." + frac;
    NatToStringValue(c / 100);
    LastTwoDigits(c);
    TwoDigitsValue(c % 100 / 10, c % 10);
    Pow10Two();
    CentsSplit(c);
    ParseUnsignedWithPoint(whole, frac, c / 100, c % 100, 100, c as real / 100.0);
  }

  lemma Pow10Two()
    ensures Pow10(2) == 100
  {
    assert Pow10(1) == 10;
  }

  /** `Double.parseDouble` reads back the value `%.2f` shows. */
  lemma ParseDecimalOfFormatFixed2(x: real)
    ensures ParseDecimal(FormatFixed2(x)) == Some(Round2(x))
  {
    var c := Cents(x);
    ParseUnsignedFixed2(c);
    ParseSigned(x < 0.0, Fixed2Digits(c), c as real / 100.0);
  }

  /** An unsigned decimal text starting with a digit, with or without a leading '-'. */
  lemma ParseSigned(negative: bool, body: string, v: real)
    requires |body| > 0 && IsDigit(body[0]) && ParseUnsignedDecimal(body) == Some(v)
    ensures ParseDecimal(Signed(negative, body)) == Some(SignedValue(negative, v))
  {
    if negative {
      assert ("-" + body)[1..] == body;
    }
  }

  /** `String.format("%b", b)`. */
  function FormatBool(b: bool): string {
    if b then "true" else "false"
  }

  /** `Boolean.parseBoolean`: true exactly for "true" in any letter case. */
  predicate ParseBool(s: string) {
    EqualsIgnoreCase(s, "true")
  }

  lemma ParseBoolOfFormatBool(b: bool)
    ensures ParseBool(FormatBool(b)) == b
  {
  }

  /** A non-empty text with no comma and no space character anywhere: a field that
      survives splitting and trimming unchanged. */
  predicate IsToken(s: string) {
    |s| > 0 && forall k :: 0 <= k < |s| ==> s[k] != ',' && !IsSpace(s[k])
  }

  lemma TokenIsTrimmed(s: string)
    requires IsToken(s)
    ensures IsTrimmed(s) && ',' !in s && Trim(s) == s
  {
  }

  lemma {:induction false} IntToStringIsToken(n: int)
    ensures IsToken(IntToString(n))
  {
    var m := if n < 0 then -n else n;
    NatToStringValue(m);
    var d := NatToString(m);
    assert forall k :: 0 <= k < |d| ==> IsDigit(d[k]);
  }

  lemma {:induction false} FormatFixed2IsToken(x: real)
    ensures IsToken(FormatFixed2(x))
  {
    var c := Cents(x);
    NatToStringValue(c / 100);
    var d := NatToString(c / 100);
    assert forall k :: 0 <= k < |d| ==> IsDigit(d[k]);
  }

  lemma FormatBoolIsToken(b: bool)
    ensures IsToken(FormatBool(b))
  {
  }
}
