/** What print_number of rt-thread/src/kservice.c prints, and that it can be read back. */
module NumberText {

  /** The flag bits of a directive. `special` (0x) has no effect in this configuration. */
  datatype Flags = Flags(zeropad: bool, sign: bool, plus: bool, space: bool, left: bool,
                         special: bool, large: bool)

  type Word = w: nat | w < 0x1_0000_0000

  const SMALL_DIGITS := "0123456789abcdef"
  const LARGE_DIGITS := "0123456789ABCDEF"

  function Digit(d: nat, large: bool): char
    requires d < 16
  {
    if large then LARGE_DIGITS[d] else SMALL_DIGITS[d]
  }

  /** The base that divide really uses: 10, or 16 for every other base. */
  function DivideBase(base: nat): (r: nat)
    ensures r == 10 || r == 16
  {
    if base == 10 then 10 else 16
  }

  /** The digits of `u`, most significant first; zero has one digit. */
  function Digits(u: nat, base: nat, large: bool): string
    requires base == 10 || base == 16
    decreases u
  {
    if u < base then [Digit(u, large)] else Digits(u / base, base, large) + [Digit(u % base, large)]
  }

  /** A 32-bit word read as a signed number. */
  function Signed(w: Word): int {
    if w < 0x8000_0000 then w else w - 0x1_0000_0000
  }

  /** The number whose digits are printed. */
  function Magnitude(num: Word, flags: Flags): Word {
    if flags.sign && num >= 0x8000_0000 then 0x1_0000_0000 - num else num
  }

  function Sign(num: Word, flags: Flags): string {
    if !flags.sign then ""
    else if Signed(num) < 0 then "-"
    else if flags.plus then "+"
    else if flags.space then " "
    else ""
  }

  function Rep(c: char, n: int): (s: string)
    ensures |s| == (if n > 0 then n else 0) && forall i :: 0 <= i < |s| ==> s[i] == c
  {
    seq(if n > 0 then n else 0, _ => c)
  }

  function Max(a: int, b: int): int { if a < b then b else a }

  /** The digits filled up with zeros to the precision; precision 0 prints no digit at all. */
  function Body(digits: string, precision: int): string {
    Rep('0', precision - |digits|) + (if precision == 0 then "" else digits)
  }

  /** Sign, digits and padding in the order the flags ask for. */
  function Layout(sign: string, body: string, pad: int, flags: Flags): string {
    if flags.left then sign + body + Rep(' ', pad)
    else if flags.zeropad then sign + Rep('0', pad) + body
    else Rep(' ', pad) + sign + body
  }

  /** The text of a number in a field of `width` characters. */
  function Number(num: Word, base: nat, width: int, precision: int, flags: Flags): string {
    var digits := Digits(Magnitude(num, flags), DivideBase(base), flags.large);
    var sign := Sign(num, flags);
    Layout(sign, Body(digits, precision), width - Max(|digits|, precision) - |sign|, flags)
  }

  predicate IsSign(s: string) {
    s == "" || s == "-" || s == "+" || s == " "
  }

  /** The value of a digit character in either case, or 16 for any other character. */
  function DigitValue(c: char): (d: nat)
    ensures d <= 16
  {
    if '0' <= c <= '9' then (c as int) - ('0' as int)
    else if 'a' <= c <= 'f' then (c as int) - ('a' as int) + 10
    else if 'A' <= c <= 'F' then (c as int) - ('A' as int) + 10
    else 16
  }

  predicate AllDigits(s: string, base: nat) {
    forall i :: 0 <= i < |s| ==> DigitValue(s[i]) < base
  }

  /** The number a digit string stands for. */
  function Value(s: string, base: nat): nat {
    if s == [] then 0 else Value(s[..|s| - 1], base) * base + DigitValue(s[|s| - 1])
  }

  /** The text without the spaces at its start. */
  function SkipSpaces(s: string): string {
    if s != [] && s[0] == ' ' then SkipSpaces(s[1..]) else s
  }

  /** The longest start of the text that consists of digits. */
  function DigitPrefix(s: string, base: nat): string {
    if s != [] && DigitValue(s[0]) < base then [s[0]] + DigitPrefix(s[1..], base) else []
  }

  /** Reading a number as strtol does: spaces, a sign, and as many digits as follow. */
  function Read(s: string, base: nat): int {
    var t := SkipSpaces(s);
    if t != [] && t[0] == '-' then 0 - Value(DigitPrefix(t[1..], base), base)
    else if t != [] && t[0] == '+' then Value(DigitPrefix(t[1..], base), base)
    else Value(DigitPrefix(t, base), base)
  }

  lemma {:induction false} DigitsRead(u: nat, base: nat, large: bool)
    requires base == 10 || base == 16
    ensures var d := Digits(u, base, large); |d| > 0 && AllDigits(d, base) && Value(d, base) == u
    decreases u
  {
    var d := Digits(u, base, large);
    DigitValueOf(u % base, large);
    if u < base {
      DigitValueOf(u, large);
      assert d[..0] == [];
    } else {
      var q := Digits(u / base, base, large);
      DigitsRead(u / base, base, large);
      assert d[..|d| - 1] == q && d[|d| - 1] == Digit(u % base, large);
      forall i | 0 <= i < |d| ensures DigitValue(d[i]) < base {
        if i < |q| { assert d[i] == q[i]; }
      }
      if base == 10 { assert u / 10 * 10 + u % 10 == u; } else { assert u / 16 * 16 + u % 16 == u; }
    }
  }

  lemma DigitValueOf(d: nat, large: bool)
    requires d < 16
    ensures DigitValue(Digit(d, large)) == d
  {
  }

  /** A 32-bit number has at most ten digits, so the temporary buffer of sixteen is large enough. */
  lemma DigitsFit(u: Word, base: nat, large: bool)
    requires base == 10 || base == 16
    ensures |Digits(u, base, large)| <= 10
  {
    DigitsBound(u, base, large, 10);
  }

  lemma {:induction false} DigitsBound(u: nat, base: nat, large: bool, n: nat)
    requires base == 10 || base == 16
    requires n > 0 && u < Power(10, n)
    ensures |Digits(u, base, large)| <= n
    decreases n
  {
    if u >= base {
      assert u / base <= u / 10;
      DigitsBound(u / base, base, large, n - 1);
    }
  }

  function Power(b: nat, n: nat): nat { if n == 0 then 1 else b * Power(b, n - 1) }

  lemma {:induction false} LeadingZeros(n: nat, s: string, base: nat)
    requires base == 10 || base == 16
    ensures Value(Rep('0', n) + s, base) == Value(s, base)
    decreases n + |s|
  {
    var t := Rep('0', n) + s;
    if s != [] {
      assert t[..|t| - 1] == Rep('0', n) + s[..|s| - 1];
      LeadingZeros(n, s[..|s| - 1], base);
    } else if n > 0 {
      assert t[..|t| - 1] == Rep('0', n - 1) + [];
      LeadingZeros(n - 1, [], base);
    }
  }

  lemma {:induction false} SkipRep(n: int, s: string)
    ensures SkipSpaces(Rep(' ', n) + s) == SkipSpaces(s)
    decreases if n > 0 then n else 0
  {
    var t := Rep(' ', n) + s;
    if n > 0 {
      assert t[1..] == Rep(' ', n - 1) + s;
      SkipRep(n - 1, s);
    } else {
      assert t == s;
    }
  }

  lemma {:induction false} PrefixOfDigits(d: string, rest: string, base: nat)
    requires AllDigits(d, base) && (rest == [] || DigitValue(rest[0]) >= base)
    ensures DigitPrefix(d + rest, base) == d
  {
    var t := d + rest;
    if d == [] {
      assert t == rest;
    } else {
      assert t[1..] == d[1..] + rest;
      PrefixOfDigits(d[1..], rest, base);
    }
  }

  /** A sign, digits and trailing spaces are read as the signed value of the digits. */
  lemma ReadSigned(n: int, sign: string, d: string, pad: int, base: nat)
    requires base == 10 || base == 16
    requires IsSign(sign) && d != [] && AllDigits(d, base)
    ensures Read(Rep(' ', n) + (sign + (d + Rep(' ', pad))), base)
         == if sign == "-" then 0 - Value(d, base) else Value(d, base)
  {
    var tail := d + Rep(' ', pad);
    SkipRep(n, sign + tail);
    PrefixOfDigits(d, Rep(' ', pad), base);
    assert tail[0] == d[0] && SkipSpaces(tail) == tail;
    if sign == "" {
      assert sign + tail == tail;
    } else {
      assert (sign + tail)[0] == sign[0] && (sign + tail)[1..] == tail;
    }
  }

  lemma BodyRead(digits: string, precision: int, base: nat)
    requires base == 10 || base == 16
    requires digits != [] && AllDigits(digits, base) && precision != 0
    ensures var body := Body(digits, precision);
            body != [] && AllDigits(body, base) && Value(body, base) == Value(digits, base)
  {
    var zeros := if precision > |digits| then precision - |digits| else 0;
    var body := Body(digits, precision);
    assert body == Rep('0', zeros) + digits;
    LeadingZeros(zeros, digits, base);
  }

  /** The three layouts of sign, padding and body are read as the signed value of the body. */
  lemma LeftRead(sign: string, body: string, pad: int, base: nat)
    requires base == 10 || base == 16
    requires IsSign(sign) && body != [] && AllDigits(body, base)
    ensures Read(sign + body + Rep(' ', pad), base)
         == if sign == "-" then 0 - Value(body, base) else Value(body, base)
  {
    ReadSigned(0, sign, body, pad, base);
    assert sign + body + Rep(' ', pad) == Rep(' ', 0) + (sign + (body + Rep(' ', pad)));
  }

  lemma RightRead(sign: string, body: string, pad: int, base: nat)
    requires base == 10 || base == 16
    requires IsSign(sign) && body != [] && AllDigits(body, base)
    ensures Read(Rep(' ', pad) + sign + body, base)
         == if sign == "-" then 0 - Value(body, base) else Value(body, base)
  {
    ReadSigned(pad, sign, body, 0, base);
    assert Rep(' ', pad) + sign + body == Rep(' ', pad) + (sign + (body + Rep(' ', 0)));
  }

  lemma {:induction false} ZeroPadRead(sign: string, body: string, pad: int, base: nat)
    requires base == 10 || base == 16
    requires IsSign(sign) && body != [] && AllDigits(body, base)
    ensures Read(sign + Rep('0', pad) + body, base)
         == if sign == "-" then 0 - Value(body, base) else Value(body, base)
  {
    var more := if pad > 0 then pad else 0;
    LeadingZeros(more, body, base);
    var filled := Rep('0', more) + body;
    forall i | 0 <= i < |filled| ensures DigitValue(filled[i]) < base {
      if i >= more { assert filled[i] == body[i - more]; }
    }
    LeftRead(sign, filled, 0, base);
    Regroup(sign, Rep('0', pad), body);
    assert Rep('0', pad) == Rep('0', more);
  }

  lemma Regroup(a: string, b: string, c: string)
    ensures a + b + c == a + (b + c) + Rep(' ', 0)
  {
  }

  lemma LayoutRead(sign: string, body: string, pad: int, flags: Flags, base: nat)
    requires base == 10 || base == 16
    requires IsSign(sign) && body != [] && AllDigits(body, base)
    ensures Read(Layout(sign, body, pad, flags), base)
         == if sign == "-" then 0 - Value(body, base) else Value(body, base)
  {
    if flags.left {
      LeftRead(sign, body, pad, base);
    } else if flags.zeropad {
      ZeroPadRead(sign, body, pad, base);
    } else {
      RightRead(sign, body, pad, base);
    }
  }

  lemma SignedMagnitude(num: Word, flags: Flags)
    ensures IsSign(Sign(num, flags))
    ensures (if Sign(num, flags) == "-" then 0 - Magnitude(num, flags) else Magnitude(num, flags))
         == if flags.sign then Signed(num) else num
  {
  }

  /**
   * Reading back what was printed gives the number: the 32-bit value as signed for a signed
   * conversion and as unsigned otherwise, for every field width, every precision but 0 and every
   * mix of flags.
   */
  lemma PrintedNumberReadsBack(num: Word, base: nat, width: int, precision: int, flags: Flags)
    requires (base == 10 || base == 16) && precision != 0
    ensures Read(Number(num, base, width, precision, flags), base)
         == if flags.sign then Signed(num) else num
  {
    var digits := Digits(Magnitude(num, flags), base, flags.large);
    var sign, body := Sign(num, flags), Body(digits, precision);
    var pad := width - Max(|digits|, precision) - |sign|;
    assert Number(num, base, width, precision, flags) == Layout(sign, body, pad, flags);
    assert Value(body, base) == Magnitude(num, flags) && body != [] && AllDigits(body, base) by {
      DigitsRead(Magnitude(num, flags), base, flags.large);
      BodyRead(digits, precision, base);
    }
    SignedMagnitude(num, flags);
    LayoutRead(sign, body, pad, flags, base);
  }

  /**
   * The length is the larger of the field width and the sign with the larger of precision and
   * digit count, exactly when the precision is not 0: with precision 0 the room for the digits
   * is set aside but no digit is printed.
   */
  lemma PrintedLength(num: Word, base: nat, width: int, precision: int, flags: Flags)
    ensures var digits := Digits(Magnitude(num, flags), DivideBase(base), flags.large);
            |Number(num, base, width, precision, flags)|
              == Max(width, |Sign(num, flags)| + Max(precision, |digits|))
            <==> precision != 0
  {
    DigitsRead(Magnitude(num, flags), DivideBase(base), flags.large);
  }

  /** The octal digits of `u`. */
  function OctalDigits(u: nat): string {
    if u < 8 then [Digit(u, false)] else OctalDigits(u / 8) + [Digit(u % 8, false)]
  }

  lemma {:induction false} OctalRead(u: nat)
    ensures var d := OctalDigits(u); AllDigits(d, 8) && Value(d, 8) == u && (u < 8 <==> |d| == 1) && |d| > 0
  {
    var d := OctalDigits(u);
    assert DigitValue(Digit(u % 8, false)) == u % 8;
    if u >= 8 {
      OctalRead(u / 8);
      assert d[..|d| - 1] == OctalDigits(u / 8);
    } else {
      assert d[..0] == [];
    }
  }

  /** The same digits stand for more in a larger base, once there are two of them. */
  lemma {:induction false} LargerBase(d: string)
    requires d != [] && AllDigits(d, 8) && DigitValue(d[0]) > 0
    ensures 0 < Value(d, 8) <= Value(d, 16) && (|d| > 1 ==> Value(d, 8) < Value(d, 16))
  {
    if |d| > 1 {
      LargerBase(d[..|d| - 1]);
    } else {
      assert d[..0] == [];
    }
  }

  lemma {:induction false} LeadingOctal(u: nat)
    requires u > 0
    ensures OctalDigits(u) != [] && DigitValue(OctalDigits(u)[0]) > 0
  {
    if u >= 8 { LeadingOctal(u / 8); }
  }

  /** %o prints the octal digits exactly of the numbers below 8: divide works in base 16. */
  lemma OctalOnlyBelowEight(u: Word)
    ensures Digits(u, DivideBase(8), false) == OctalDigits(u) <==> u < 8
  {
    OctalRead(u);
    DigitsRead(u, 16, false);
    if u >= 8 {
      LeadingOctal(u);
      LargerBase(OctalDigits(u));
    }
  }
}
