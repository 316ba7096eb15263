/**
 * What a directive of rt_vsnprintf prints, told from its characters: flags, width, precision,
 * qualifier and conversion as they are written in the format.
 */
module DirectiveText {
  import opened NumberText
  import opened FormatText

  // ---- the field of a number ----

  /** Spaces, a sign, digits, spaces. */
  predicate Laid(t: string, before: nat, sign: string, digits: string, after: nat) {
    t == Rep(' ', before) + sign + digits + Rep(' ', after)
  }

  /** Letters among the digits are capital, or none is. */
  predicate InCase(digits: string, large: bool) {
    forall i :: 0 <= i < |digits| ==> if large then !('a' <= digits[i] <= 'f') else !('A' <= digits[i] <= 'F')
  }

  /** At least as many digits as the precision, with more zeros in front only to fill the field. */
  predicate Filled(t: string, digits: string, width: int, precision: int, zeros: bool) {
    && |digits| >= 1 && |digits| >= precision
    && (|digits| > 1 && |digits| > precision && digits[0] == '0' ==> zeros && |t| == width)
  }

  /**
   * `t` is the magnitude `u` in the given base behind the sign, in a field of the given width:
   * spaces behind it when left justified, zeros in front of the digits when asked for, and
   * spaces in front of the sign otherwise, none of them beyond the width.
   */
  ghost predicate NumberField(t: string, sign: string, u: nat, base: nat, large: bool,
                              width: int, precision: int, left: bool, zeropad: bool)
  {
    exists before: nat, digits: string, after: nat ::
      && Laid(t, before, sign, digits, after)
      && AllDigits(digits, base) && Value(digits, base) == u && InCase(digits, large)
      && Filled(t, digits, width, precision, zeropad && !left)
      && |t| >= width && (before + after > 0 ==> |t| == width)
      && (before > 0 ==> !left && !zeropad) && (after > 0 ==> left)
  }

  lemma {:induction false} DigitsInCase(u: nat, base: nat, large: bool)
    requires base == 10 || base == 16
    ensures InCase(Digits(u, base, large), large)
    ensures var d := Digits(u, base, large); |d| > 0 && (|d| > 1 ==> d[0] != '0')
    decreases u
  {
    var d := Digits(u, base, large);
    if u < base {
      DigitInCase(u, large);
      assert d == [Digit(u, large)];
    } else {
      var q := Digits(u / base, base, large);
      assert u / base > 0 by { if base == 10 { assert u / 10 > 0; } else { assert u / 16 > 0; } }
      DigitsInCase(u / base, base, large);
      DigitInCase(u % base, large);
      assert d == q + [Digit(u % base, large)];
      NotZero(u / base, base, large);
    }
  }

  /** Only zero has a single digit 0. */
  lemma {:induction false} NotZero(u: nat, base: nat, large: bool)
    requires (base == 10 || base == 16) && u > 0
    requires |Digits(u, base, large)| > 0 && (|Digits(u, base, large)| > 1 ==> Digits(u, base, large)[0] != '0')
    ensures Digits(u, base, large)[0] != '0'
  {
    if u < base { DigitInCase(u, large); } else { DigitsRead(u / base, base, large); }
  }

  lemma DigitInCase(n: nat, large: bool)
    requires n < 16
    ensures var c := Digit(n, large);
            (if large then !('a' <= c <= 'f') else !('A' <= c <= 'F')) && (c == '0' <==> n == 0)
  {
  }

  lemma {:induction false} NumberIsField(num: Word, base: nat, width: int, precision: int, f: Flags)
    requires (base == 10 || base == 16) && precision != 0
    ensures NumberField(Number(num, base, width, precision, f), Sign(num, f), Magnitude(num, f), base, f.large,
                        width, precision, f.left, f.zeropad)
  {
    var u, sign := Magnitude(num, f), Sign(num, f);
    var d := Digits(u, base, f.large);
    DigitsRead(u, base, f.large);
    DigitsInCase(u, base, f.large);
    DigitsAreField(d, sign, u, base, width, precision, f);
    NumberIsLayout(num, base, width, precision, f);
  }

  lemma {:induction false} NumberIsLayout(num: Word, base: nat, width: int, precision: int, f: Flags)
    requires base == 10 || base == 16
    ensures var d, sign := Digits(Magnitude(num, f), base, f.large), Sign(num, f);
            Number(num, base, width, precision, f)
              == Layout(sign, Body(d, precision), width - Max(|d|, precision) - |sign|, f)
  {
    assert DivideBase(base) == base;
  }

  /** Sign, digits and padding make a field. */
  lemma {:induction false} DigitsAreField(d: string, sign: string, u: nat, base: nat, width: int, precision: int,
                                          f: Flags)
    requires (base == 10 || base == 16) && precision != 0
    requires d != [] && AllDigits(d, base) && Value(d, base) == u && InCase(d, f.large) && (|d| > 1 ==> d[0] != '0')
    ensures var pad := width - Max(|d|, precision) - |sign|;
            NumberField(Layout(sign, Body(d, precision), pad, f), sign, u, base, f.large,
                        width, precision, f.left, f.zeropad)
  {
    var body := Body(d, precision);
    BodyRead(d, precision, base);
    BodyInCase(d, precision, f.large);
    LayoutIsField(sign, body, width - |body| - |sign|, u, base, width, precision, f);
  }

  /** The digits filled up to the precision. */
  lemma {:induction false} BodyInCase(d: string, precision: int, large: bool)
    requires precision != 0 && d != [] && (|d| > 1 ==> d[0] != '0') && InCase(d, large)
    ensures var body := Body(d, precision);
            && InCase(body, large) && |body| == Max(|d|, precision)
            && (|body| > 1 && |body| > precision ==> body[0] != '0')
  {
    var body := Body(d, precision);
    if precision <= |d| {
      assert body == d;
    } else {
      assert body == Rep('0', precision - |d|) + d;
    }
  }

  lemma {:induction false} LayoutIsField(sign: string, body: string, pad: int, u: nat, base: nat,
                                         width: int, precision: int, f: Flags)
    requires (base == 10 || base == 16) && pad == width - |body| - |sign|
    requires body != [] && AllDigits(body, base) && Value(body, base) == u && InCase(body, f.large)
    requires |body| >= precision && (|body| > 1 && |body| > precision ==> body[0] != '0')
    ensures NumberField(Layout(sign, body, pad, f), sign, u, base, f.large, width, precision, f.left, f.zeropad)
  {
    if f.left {
      LeftIsField(sign, body, pad, u, base, width, precision, f);
    } else if f.zeropad {
      ZerosAreField(sign, body, pad, u, base, width, precision, f);
    } else {
      RightIsField(sign, body, pad, u, base, width, precision, f);
    }
  }

  lemma {:induction false} LeftIsField(sign: string, body: string, pad: int, u: nat, base: nat,
                                       width: int, precision: int, f: Flags)
    requires f.left && pad == width - |body| - |sign|
    requires body != [] && AllDigits(body, base) && Value(body, base) == u && InCase(body, f.large)
    requires |body| >= precision && (|body| > 1 && |body| > precision ==> body[0] != '0')
    ensures NumberField(Layout(sign, body, pad, f), sign, u, base, f.large, width, precision, f.left, f.zeropad)
  {
    var more: nat := if pad > 0 then pad else 0;
    assert Layout(sign, body, pad, f) == Rep(' ', 0) + sign + body + Rep(' ', more);
    assert Laid(Layout(sign, body, pad, f), 0, sign, body, more);
  }

  lemma {:induction false} RightIsField(sign: string, body: string, pad: int, u: nat, base: nat,
                                        width: int, precision: int, f: Flags)
    requires !f.left && !f.zeropad && pad == width - |body| - |sign|
    requires body != [] && AllDigits(body, base) && Value(body, base) == u && InCase(body, f.large)
    requires |body| >= precision && (|body| > 1 && |body| > precision ==> body[0] != '0')
    ensures NumberField(Layout(sign, body, pad, f), sign, u, base, f.large, width, precision, f.left, f.zeropad)
  {
    var more: nat := if pad > 0 then pad else 0;
    assert Layout(sign, body, pad, f) == Rep(' ', more) + sign + body + Rep(' ', 0);
    assert Laid(Layout(sign, body, pad, f), more, sign, body, 0);
  }

  lemma {:induction false} ZerosAreField(sign: string, body: string, pad: int, u: nat, base: nat,
                                         width: int, precision: int, f: Flags)
    requires (base == 10 || base == 16) && !f.left && f.zeropad && pad == width - |body| - |sign|
    requires body != [] && AllDigits(body, base) && Value(body, base) == u && InCase(body, f.large)
    requires |body| >= precision && (|body| > 1 && |body| > precision ==> body[0] != '0')
    ensures NumberField(Layout(sign, body, pad, f), sign, u, base, f.large, width, precision, f.left, f.zeropad)
  {
    var more: nat := if pad > 0 then pad else 0;
    var digits := Rep('0', more) + body;
    LeadingZeros(more, body, base);
    ZerosInCase(more, body, base, f.large);
    assert Layout(sign, body, pad, f) == Rep(' ', 0) + sign + digits + Rep(' ', 0);
    if more == 0 { assert digits == body; }
    assert Laid(Layout(sign, body, pad, f), 0, sign, digits, 0);
  }

  lemma {:induction false} ZerosInCase(more: nat, body: string, base: nat, large: bool)
    requires (base == 10 || base == 16) && AllDigits(body, base) && InCase(body, large)
    ensures AllDigits(Rep('0', more) + body, base) && InCase(Rep('0', more) + body, large)
  {
    var digits := Rep('0', more) + body;
    forall i | 0 <= i < |digits| ensures DigitValue(digits[i]) < base
                                         && if large then !('a' <= digits[i] <= 'f') else !('A' <= digits[i] <= 'F') {
      if i >= more { assert digits[i] == body[i - more]; }
    }
  }

  /** With precision 0 no digit is printed: `t` is the sign and, when the field is wider, its padding. */
  ghost predicate BareField(t: string, sign: string, width: int, left: bool, zeropad: bool) {
    exists before: nat, zeros: nat, after: nat ::
      && Laid(t, before, sign, Rep('0', zeros), after)
      && (t == sign || |t| < width)
      && (before > 0 ==> !left && !zeropad) && (zeros > 0 ==> !left && zeropad) && (after > 0 ==> left)
  }

  lemma {:induction false} NumberIsBare(num: Word, base: nat, width: int, f: Flags)
    requires base == 10 || base == 16
    ensures BareField(Number(num, base, width, 0, f), Sign(num, f), width, f.left, f.zeropad)
  {
    var d, sign := Digits(Magnitude(num, f), base, f.large), Sign(num, f);
    DigitsRead(Magnitude(num, f), base, f.large);
    NumberIsLayout(num, base, width, 0, f);
    LayoutIsBare(sign, Body(d, 0), width - |d| - |sign|, width, f);
  }

  lemma {:induction false} LayoutIsBare(sign: string, body: string, pad: int, width: int, f: Flags)
    requires body == "" && pad + |sign| < width
    ensures BareField(Layout(sign, body, pad, f), sign, width, f.left, f.zeropad)
  {
    var t, more: nat := Layout(sign, body, pad, f), if pad > 0 then pad else 0;
    if f.left {
      assert t == Rep(' ', 0) + sign + Rep('0', 0) + Rep(' ', more);
      assert Laid(t, 0, sign, Rep('0', 0), more);
    } else if f.zeropad {
      assert t == Rep(' ', 0) + sign + Rep('0', more) + Rep(' ', 0);
      assert Laid(t, 0, sign, Rep('0', more), 0);
    } else {
      assert t == Rep(' ', more) + sign + Rep('0', 0) + Rep(' ', 0);
      assert Laid(t, more, sign, Rep('0', 0), 0);
    }
  }

  // ---- what a directive means, told from its characters ----

  /** A width or precision as it is written: not at all, in digits, or as a star. */
  datatype Amount = Absent | Written(digits: string) | Star

  datatype Spelling = Spelling(flags: string, width: Amount, precision: Amount, qualifier: string, conv: char)

  function SpellAmount(a: Amount): string {
    match a
    case Absent => ""
    case Written(digits) => digits
    case Star => "*"
  }

  function SpellPrecision(a: Amount): string {
    if a.Absent? then "" else "." + SpellAmount(a)
  }

  function Spell(x: Spelling): string {
    "%" + x.flags + SpellAmount(x.width) + SpellPrecision(x.precision) + x.qualifier + [x.conv]
  }

  predicate FlagChar(c: char) { c == '-' || c == '+' || c == ' ' || c == '#' || c == '0' }

  /** The character starts nothing that can stand in front of a precision. */
  predicate EndsWidth(c: char) { !FlagChar(c) && !('0' <= c <= '9') && c != '*' }

  predicate EndsPrecision(c: char) { EndsWidth(c) && c != '.' }

  /** Flags, width, precision and qualifier can be told apart, and the conversion is none of them. */
  predicate WellSpelled(x: Spelling) {
    && (forall i :: 0 <= i < |x.flags| ==> FlagChar(x.flags[i]))
    && (x.width.Written? ==> x.width.digits != "" && x.width.digits[0] != '0' && AllDigits(x.width.digits, 10))
    && (x.precision.Written? ==> AllDigits(x.precision.digits, 10))
    && (x.qualifier == "" || x.qualifier == "h" || x.qualifier == "l")
    && EndsPrecision(x.conv) && x.conv != 'h' && x.conv != 'l' && x.conv != NUL
  }

  /** The field width, in base 10, or the size of the argument; -1 for none. */
  function Width(x: Spelling, args: seq<Arg>, a: nat): int {
    match x.width
    case Absent => -1
    case Written(digits) => Value(digits, 10)
    case Star => var w := WordArg(args, a); if w < 0x8000_0000 then w else 0x1_0000_0000 - w
  }

  /** A negative argument for the width means left justified. */
  predicate LeftJustified(x: Spelling, args: seq<Arg>, a: nat) {
    '-' in x.flags || (x.width.Star? && WordArg(args, a) >= 0x8000_0000)
  }

  /** The precision, in base 10, or the argument, 0 for a negative one; -1 for none. */
  function Precision(x: Spelling, args: seq<Arg>, a: nat): int {
    match x.precision
    case Absent => -1
    case Written(digits) => Value(digits, 10)
    case Star =>
      var p := WordArg(args, if x.width.Star? then a + 1 else a);
      if p < 0x8000_0000 then p else 0
  }

  /** The argument that is converted comes behind those of the stars. */
  function ArgOf(x: Spelling, a: nat): nat {
    a + (if x.width.Star? then 1 else 0) + (if x.precision.Star? then 1 else 0)
  }

  /** The argument after those that the directive takes. */
  function ArgBehind(x: Spelling, a: nat): nat {
    ArgOf(x, a) +
    match x.conv
    case 'd' | 'i' | 'u' | 'x' | 'X' | 'o' | 'p' | 'c' | 's' => 1
    case _ => 0
  }

  /** The text `body` in a field: spaces behind it when left justified, in front of it otherwise. */
  predicate TextField(t: string, body: string, width: int, left: bool) {
    && |t| == (if width > |body| then width else |body|)
    && if left then t[..|body|] == body && forall i :: |body| <= i < |t| ==> t[i] == ' '
       else t[|t| - |body|..] == body && forall i :: 0 <= i < |t| - |body| ==> t[i] == ' '
  }

  /**
   * The number `v` in its field: unless the precision is 0 it reads back in the base, with
   * letters in the case asked for.
   */
  ghost predicate ShowsNumber(t: string, sign: string, v: int, base: nat, large: bool,
                              width: int, precision: int, left: bool, zeropad: bool)
  {
    if precision == 0 then BareField(t, sign, width, left, zeropad)
    else
      && Read(t, base) == v
      && NumberField(t, sign, if v < 0 then 0 - v else v, base, large, width, precision, left, zeropad)
  }

  /** The sign of a number as the flags ask for it. */
  function SignOf(x: Spelling, v: int): string {
    if v < 0 then "-" else if '+' in x.flags then "+" else if ' ' in x.flags then " " else ""
  }

  /**
   * The text that a directive prints, for every conversion character. `%o` prints in base 16, as
   * the code does.
   */
  ghost predicate Shows(x: Spelling, args: seq<Arg>, a: nat, t: string) {
    var w, width, precision := WordArg(args, ArgOf(x, a)), Width(x, args, a), Precision(x, args, a);
    var left, zeropad := LeftJustified(x, args, a), '0' in x.flags;
    var short, half := x.qualifier == "h", w % 0x1_0000;
    match x.conv
    case 'd' | 'i' =>
      var v := if short then (if half < 0x8000 then half else half - 0x1_0000)
               else if w < 0x8000_0000 then w else w - 0x1_0000_0000;
      ShowsNumber(t, SignOf(x, v), v, 10, false, width, precision, left, zeropad)
    case 'u' => ShowsNumber(t, "", if short then half else w, 10, false, width, precision, left, zeropad)
    case 'x' | 'o' => ShowsNumber(t, "", if short then half else w, 16, false, width, precision, left, zeropad)
    case 'X' => ShowsNumber(t, "", if short then half else w, 16, true, width, precision, left, zeropad)
    case 'p' =>
      if x.width.Absent? then ShowsNumber(t, "", w, 16, false, 8, precision, left, true)
      else ShowsNumber(t, "", w, 16, false, width, precision, left, zeropad)
    case 'c' => TextField(t, [(w % 256) as char], width, left)
    case 's' =>
      var text := TextArg(args, ArgOf(x, a));
      NUL !in text ==>
        var n := if 0 <= width < |text| then width else |text|;
        TextField(t, text[..if 0 < precision < n then precision else n], width, left)
    case '%' => t == "%"
    case c => t == ['%', c]
  }

  /** The directive that the format means. */
  function Meant(x: Spelling, args: seq<Arg>, a: nat, at: nat): Directive {
    var flags := Flags('0' in x.flags, false, '+' in x.flags, ' ' in x.flags, LeftJustified(x, args, a),
                       '#' in x.flags, false);
    Directive(flags, Width(x, args, a), Precision(x, args, a), if x.qualifier == "" then NUL else x.qualifier[0],
              at, ArgOf(x, a))
  }

  lemma {:induction false} NumberShows(num: Word, base: nat, width: int, precision: int, f: Flags)
    requires base == 10 || base == 16
    ensures ShowsNumber(Number(num, base, width, precision, f), Sign(num, f), if f.sign then Signed(num) else num,
                        base, f.large, width, precision, f.left, f.zeropad)
  {
    if precision == 0 {
      NumberIsBare(num, base, width, f);
    } else {
      PrintedNumberReadsBack(num, base, width, precision, f);
      NumberIsField(num, base, width, precision, f);
    }
  }

  lemma {:induction false} SignedShows(x: Spelling, args: seq<Arg>, a: nat, s: string, at: nat)
    requires WellSpelled(x) && at < |s| && s[at] == x.conv && (x.conv == 'd' || x.conv == 'i')
    ensures Shows(x, args, a, Convert(s, Meant(x, args, a, at), args).text)
  {
    var d := Meant(x, args, a, at);
    var num := Qualified(WordArg(args, d.arg), d.qualifier, true);
    NumberShows(num, 10, d.width, d.precision, d.flags.(sign := true));
  }

  lemma {:induction false} WordShows(x: Spelling, args: seq<Arg>, a: nat, s: string, at: nat)
    requires WellSpelled(x) && at < |s| && s[at] == x.conv
    requires x.conv == 'u' || x.conv == 'x' || x.conv == 'X' || x.conv == 'o'
    ensures Shows(x, args, a, Convert(s, Meant(x, args, a, at), args).text)
  {
    var d := Meant(x, args, a, at);
    var num := Qualified(WordArg(args, d.arg), d.qualifier, false);
    NumberShows(num, if x.conv == 'u' then 10 else 16, d.width, d.precision,
                if x.conv == 'X' then d.flags.(large := true) else d.flags);
  }

  lemma {:induction false} PointerShows(x: Spelling, args: seq<Arg>, a: nat, s: string, at: nat)
    requires WellSpelled(x) && at < |s| && s[at] == x.conv && x.conv == 'p'
    ensures Shows(x, args, a, Convert(s, Meant(x, args, a, at), args).text)
  {
    var d := Meant(x, args, a, at);
    NumberShows(WordArg(args, d.arg), 16, if d.width == -1 then 8 else d.width, d.precision,
                if d.width == -1 then d.flags.(zeropad := true) else d.flags);
  }

  lemma JustifiedIsField(body: string, width: int, left: bool)
    ensures TextField(Justified(body, width - |body|, left), body, width, left)
  {
  }

  lemma {:induction false} CutLengthIs(text: string, width: int, precision: int)
    requires NUL !in text
    ensures CutLength(text, width, precision) ==
              var n := if 0 <= width < |text| then width else |text|;
              if 0 < precision < n then precision else n
  {
    TextLengthIs(text, width, 0);
  }

  lemma {:induction false} TextShows(x: Spelling, args: seq<Arg>, a: nat, s: string, at: nat)
    requires WellSpelled(x) && at < |s| && s[at] == x.conv && x.conv == 's'
    ensures Shows(x, args, a, Convert(s, Meant(x, args, a, at), args).text)
  {
    var d := Meant(x, args, a, at);
    var text := TextArg(args, d.arg);
    var n := CutLength(text, d.width, d.precision);
    JustifiedIsField(text[..n], d.width, d.flags.left);
    if NUL !in text { CutLengthIs(text, d.width, d.precision); }
  }

  lemma {:induction false} OtherShows(x: Spelling, args: seq<Arg>, a: nat, s: string, at: nat)
    requires WellSpelled(x) && at < |s| && s[at] == x.conv
    requires x.conv != 'd' && x.conv != 'i' && x.conv != 'u' && x.conv != 'x' && x.conv != 'X'
    requires x.conv != 'o' && x.conv != 'p' && x.conv != 's'
    ensures Shows(x, args, a, Convert(s, Meant(x, args, a, at), args).text)
  {
    var d := Meant(x, args, a, at);
    JustifiedIsField([(WordArg(args, d.arg) % 256) as char], d.width, d.flags.left);
  }

  /** Converting prints what the characters of the directive say. */
  lemma {:induction false} ConvertShows(x: Spelling, args: seq<Arg>, a: nat, s: string, at: nat)
    requires WellSpelled(x) && at < |s| && s[at] == x.conv
    ensures Shows(x, args, a, Convert(s, Meant(x, args, a, at), args).text)
  {
    match x.conv
    case 'd' | 'i' => SignedShows(x, args, a, s, at);
    case 'u' | 'x' | 'X' | 'o' => WordShows(x, args, a, s, at);
    case 'p' => PointerShows(x, args, a, s, at);
    case 's' => TextShows(x, args, a, s, at);
    case _ => OtherShows(x, args, a, s, at);
  }

  lemma {:induction false} ConvertMoves(x: Spelling, args: seq<Arg>, a: nat, s: string, at: nat)
    requires WellSpelled(x) && at < |s| && s[at] == x.conv
    ensures Convert(s, Meant(x, args, a, at), args).next == at + 1
    ensures Convert(s, Meant(x, args, a, at), args).arg == ArgBehind(x, a)
  {
  }

  // ---- reading the directive ----

  /** The flags with those of a stretch of flag characters added. */
  function WithFlags(f: Flags, run: string): Flags {
    Flags(f.zeropad || '0' in run, f.sign, f.plus || '+' in run, f.space || ' ' in run, f.left || '-' in run,
          f.special || '#' in run, f.large)
  }

  lemma {:induction false} FlagsAre(s: string, i: nat, run: string, f: Flags)
    requires i + |run| <= |s| && s[i..i + |run|] == run && !IsFlag(CharAt(s, i + |run|))
    requires forall k :: 0 <= k < |run| ==> FlagChar(run[k])
    ensures ParseFlags(s, i, f) == Parsed(WithFlags(f, run), i + |run|)
    decreases |run|
  {
    if run != [] {
      var c := run[0];
      assert s[i] == s[i..i + |run|][0] && s[i + 1..i + |run|] == run[1..];
      assert FlagChar(c);
      FlagsAre(s, i + 1, run[1..], AddFlag(f, c));
      OneMoreFlag(f, c, run[1..]);
      assert run == [c] + run[1..];
    }
  }

  lemma {:induction false} OneMoreFlag(f: Flags, c: char, run: string)
    requires FlagChar(c)
    ensures WithFlags(AddFlag(f, c), run) == WithFlags(f, [c] + run)
  {
    InMore(c, run, '-');
    InMore(c, run, '+');
    InMore(c, run, ' ');
    InMore(c, run, '#');
    InMore(c, run, '0');
    assert [c] + run != run;
  }

  lemma InMore(c: char, run: string, e: char)
    ensures e in [c] + run <==> e == c || e in run
  {
  }

  lemma {:induction false} NumberIs(s: string, i: nat, j: nat, k: nat)
    requires i <= j <= k <= |s| && AllDigits(s[i..k], 10) && !IsDigit(CharAt(s, k))
    ensures ParseInt(s, j, Value(s[i..j], 10)) == Parsed(Value(s[i..k], 10), k)
    decreases k - j
  {
    if j < k {
      var t := s[i..j + 1];
      assert t[..|t| - 1] == s[i..j] && t[|t| - 1] == s[j] == s[i..k][j - i];
      NumberIs(s, i, j + 1, k);
    }
  }

  /** A stretch of digits is read in base 10. */
  lemma {:induction false} DigitsAre(s: string, i: nat, digits: string)
    requires i + |digits| <= |s| && s[i..i + |digits|] == digits && AllDigits(digits, 10)
    requires !IsDigit(CharAt(s, i + |digits|))
    ensures ParseInt(s, i, 0) == Parsed(Value(digits, 10), i + |digits|)
  {
    assert s[i..i] == [];
    NumberIs(s, i, i, i + |digits|);
  }

  /** The parts of a directive lie in the format one behind the other. */
  predicate LiesAt(s: string, i: nat, part: string) {
    i + |part| <= |s| && s[i..i + |part|] == part
  }

  lemma {:induction false} WidthIs(x: Spelling, args: seq<Arg>, a: nat, s: string, i: nat, f: Flags)
    requires WellSpelled(x) && LiesAt(s, i, SpellAmount(x.width))
    requires EndsWidth(CharAt(s, i + |SpellAmount(x.width)|))
    ensures var left := f.left || (x.width.Star? && WordArg(args, a) >= 0x8000_0000);
            ParseWidth(s, i, f, args, a)
              == Directive(f.(left := left), Width(x, args, a), -1, NUL, i + |SpellAmount(x.width)|,
                           if x.width.Star? then a + 1 else a)
  {
    match x.width
    case Absent =>
    case Written(digits) => WidthWritten(digits, args, a, s, i, f);
    case Star => WidthStar(args, a, s, i, f);
  }

  lemma {:induction false} WidthWritten(digits: string, args: seq<Arg>, a: nat, s: string, i: nat, f: Flags)
    requires digits != "" && AllDigits(digits, 10) && LiesAt(s, i, digits) && !IsDigit(CharAt(s, i + |digits|))
    ensures ParseWidth(s, i, f, args, a) == Directive(f, Value(digits, 10), -1, NUL, i + |digits|, a)
  {
    assert s[i] == s[i..i + |digits|][0] == digits[0] && DigitValue(digits[0]) < 10;
    DigitsAre(s, i, digits);
  }

  lemma {:induction false} WidthStar(args: seq<Arg>, a: nat, s: string, i: nat, f: Flags)
    requires LiesAt(s, i, "*")
    ensures var w := WordArg(args, a);
            ParseWidth(s, i, f, args, a)
              == if w < 0x8000_0000 then Directive(f, w, -1, NUL, i + 1, a + 1)
                 else Directive(f.(left := true), 0x1_0000_0000 - w, -1, NUL, i + 1, a + 1)
  {
    assert s[i] == s[i..i + 1][0] == "*"[0];
  }

  lemma {:induction false} PrecisionIs(x: Spelling, args: seq<Arg>, a: nat, s: string, d: Directive)
    requires WellSpelled(x) && LiesAt(s, d.at, SpellPrecision(x.precision))
    requires d.precision == -1 && d.arg == if x.width.Star? then a + 1 else a
    requires EndsPrecision(CharAt(s, d.at + |SpellPrecision(x.precision)|))
    ensures ParsePrecision(s, d, args)
         == d.(precision := Precision(x, args, a), at := d.at + |SpellPrecision(x.precision)|, arg := ArgOf(x, a))
  {
    match x.precision
    case Absent =>
    case Written(digits) => PrecisionWritten(digits, args, s, d);
    case Star => PrecisionStar(args, s, d);
  }

  lemma {:induction false} PrecisionWritten(digits: string, args: seq<Arg>, s: string, d: Directive)
    requires LiesAt(s, d.at, "." + digits) && AllDigits(digits, 10)
    requires EndsPrecision(CharAt(s, d.at + 1 + |digits|))
    ensures ParsePrecision(s, d, args) == d.(precision := Value(digits, 10), at := d.at + 1 + |digits|)
  {
    AfterPoint(s, d.at, digits);
    if digits != "" {
      assert DigitValue(digits[0]) < 10;
      DigitsAre(s, d.at + 1, digits);
    }
  }

  lemma {:induction false} PrecisionStar(args: seq<Arg>, s: string, d: Directive)
    requires LiesAt(s, d.at, ".*")
    ensures var p := WordArg(args, d.arg);
            ParsePrecision(s, d, args)
              == d.(precision := if p < 0x8000_0000 then p else 0, at := d.at + 2, arg := d.arg + 1)
  {
    assert ".*" == "." + "*";
    AfterPoint(s, d.at, "*");
  }

  /** The point and what is behind it. */
  lemma AfterPoint(s: string, i: nat, part: string)
    requires LiesAt(s, i, "." + part)
    ensures s[i] == '.' && LiesAt(s, i + 1, part) && (part != "" ==> s[i + 1] == part[0])
  {
    var all := "." + part;
    assert s[i..i + |all|] == all && all[0] == '.';
    assert s[i + 1..i + |all|] == all[1..] == part;
  }

  lemma Halves(s: string, i: nat, u: string, v: string)
    requires LiesAt(s, i, u + v)
    ensures LiesAt(s, i, u) && LiesAt(s, i + |u|, v)
  {
    var all := u + v;
    assert s[i..i + |u|] == all[..|u|] == u;
    assert s[i + |u|..i + |all|] == all[|u|..] == v;
  }

  lemma Inside(s: string, i: nat, u: string, part: string, v: string)
    requires LiesAt(s, i, u + part + v)
    ensures LiesAt(s, i + |u|, part)
  {
    assert u + part + v == u + (part + v);
    Halves(s, i, u, part + v);
    Halves(s, i + |u|, part, v);
  }

  lemma Regroupings(a: string, b: string, c: string, d: string, e: string, f: string)
    ensures var all := a + b + c + d + e + f;
            && all == a + b + (c + d + e + f) && all == (a + b) + c + (d + e + f)
            && all == (a + b + c) + d + (e + f) && all == (a + b + c + d) + e + f
  {
  }

  /** Where the parts of a directive lie. */
  lemma PartsLie(s: string, i: nat, x: Spelling) returns (w: nat, p: nat, q: nat, at: nat)
    requires LiesAt(s, i, Spell(x))
    ensures w == i + 1 + |x.flags| && p == w + |SpellAmount(x.width)|
    ensures q == p + |SpellPrecision(x.precision)| && at == q + |x.qualifier|
    ensures at + 1 == i + |Spell(x)| && at < |s| && s[i] == '%' && s[at] == x.conv
    ensures LiesAt(s, i + 1, x.flags) && LiesAt(s, w, SpellAmount(x.width))
    ensures LiesAt(s, p, SpellPrecision(x.precision)) && LiesAt(s, q, x.qualifier)
  {
    w := i + 1 + |x.flags|;
    p := w + |SpellAmount(x.width)|;
    q := p + |SpellPrecision(x.precision)|;
    at := q + |x.qualifier|;
    EndsLie(s, i, x);
    FlagsAndWidthLie(s, i, x);
    PrecisionAndQualifierLie(s, i, x);
  }

  lemma EndsLie(s: string, i: nat, x: Spelling)
    requires LiesAt(s, i, Spell(x))
    ensures s[i] == '%' && s[i + |Spell(x)| - 1] == x.conv
  {
    var all := Spell(x);
    assert s[i..i + |all|] == all && all[0] == '%' && all[|all| - 1] == x.conv;
  }

  lemma FlagsAndWidthLie(s: string, i: nat, x: Spelling)
    requires LiesAt(s, i, Spell(x))
    ensures LiesAt(s, i + 1, x.flags) && LiesAt(s, i + 1 + |x.flags|, SpellAmount(x.width))
  {
    var a, b := SpellAmount(x.width), SpellPrecision(x.precision);
    Regroupings("%", x.flags, a, b, x.qualifier, [x.conv]);
    Inside(s, i, "%", x.flags, a + b + x.qualifier + [x.conv]);
    Inside(s, i, "%" + x.flags, a, b + x.qualifier + [x.conv]);
  }

  lemma PrecisionAndQualifierLie(s: string, i: nat, x: Spelling)
    requires LiesAt(s, i, Spell(x))
    ensures var p := i + 1 + |x.flags| + |SpellAmount(x.width)|;
            var q := p + |SpellPrecision(x.precision)|;
            LiesAt(s, p, SpellPrecision(x.precision)) && LiesAt(s, q, x.qualifier)
  {
    var a, b := SpellAmount(x.width), SpellPrecision(x.precision);
    Regroupings("%", x.flags, a, b, x.qualifier, [x.conv]);
    Inside(s, i, "%" + x.flags + a, b, x.qualifier + [x.conv]);
    Inside(s, i, "%" + x.flags + a + b, x.qualifier, [x.conv]);
  }

  /** A directive is read as its characters say. */
  lemma {:induction false} DirectiveIs(s: string, i: nat, x: Spelling, args: seq<Arg>, a: nat) returns (at: nat)
    requires WellSpelled(x) && LiesAt(s, i, Spell(x))
    ensures at + 1 == i + |Spell(x)| && at < |s| && s[i] == '%' && s[at] == x.conv
    ensures ParseDirective(s, i + 1, args, a) == Meant(x, args, a, at)
  {
    var w, p, q, end := PartsLie(s, i, x);
    PartsRead(s, i + 1, w, p, q, end, x, args, a);
    at := end;
  }

  lemma {:induction false} PartsRead(s: string, i: nat, w: nat, p: nat, q: nat, at: nat, x: Spelling,
                                     args: seq<Arg>, a: nat)
    requires WellSpelled(x) && at < |s| && s[at] == x.conv
    requires w == i + |x.flags| && p == w + |SpellAmount(x.width)|
    requires q == p + |SpellPrecision(x.precision)| && at == q + |x.qualifier|
    requires LiesAt(s, i, x.flags) && LiesAt(s, w, SpellAmount(x.width))
    requires LiesAt(s, p, SpellPrecision(x.precision)) && LiesAt(s, q, x.qualifier)
    ensures ParseDirective(s, i, args, a) == Meant(x, args, a, at)
  {
    StartOfQualifier(x, s, q);
    StartOfPrecision(x, s, p);
    FlagsAndWidthRead(s, i, w, p, x, args, a);
    RestRead(s, p, q, x, args, a);
    ReadInTurn(s, i, args, a, WithFlags(NO_FLAGS, x.flags), w, UpToWidth(x, args, a, p), UpToPrecision(x, args, a, q));
    QualifierIs(x, s, UpToPrecision(x, args, a, q));
  }

  /** The directive when its flags and width have been read. */
  function UpToWidth(x: Spelling, args: seq<Arg>, a: nat, at: nat): Directive {
    Meant(x, args, a, at).(precision := -1, qualifier := NUL, arg := if x.width.Star? then a + 1 else a)
  }

  /** The directive when only its qualifier has not been read. */
  function UpToPrecision(x: Spelling, args: seq<Arg>, a: nat, at: nat): Directive {
    Meant(x, args, a, at).(qualifier := NUL)
  }

  lemma {:induction false} FlagsAndWidthRead(s: string, i: nat, w: nat, p: nat, x: Spelling, args: seq<Arg>, a: nat)
    requires WellSpelled(x) && w == i + |x.flags| && p == w + |SpellAmount(x.width)|
    requires LiesAt(s, i, x.flags) && LiesAt(s, w, SpellAmount(x.width)) && EndsWidth(CharAt(s, p))
    ensures ParseFlags(s, i, NO_FLAGS) == Parsed(WithFlags(NO_FLAGS, x.flags), w)
    ensures ParseWidth(s, w, WithFlags(NO_FLAGS, x.flags), args, a) == UpToWidth(x, args, a, p)
  {
    StartOfWidth(x, s, w);
    FlagsAre(s, i, x.flags, NO_FLAGS);
    WidthIs(x, args, a, s, w, WithFlags(NO_FLAGS, x.flags));
  }

  lemma {:induction false} RestRead(s: string, p: nat, q: nat, x: Spelling, args: seq<Arg>, a: nat)
    requires WellSpelled(x) && q == p + |SpellPrecision(x.precision)|
    requires LiesAt(s, p, SpellPrecision(x.precision)) && EndsPrecision(CharAt(s, q))
    ensures ParsePrecision(s, UpToWidth(x, args, a, p), args) == UpToPrecision(x, args, a, q)
  {
    PrecisionIs(x, args, a, s, UpToWidth(x, args, a, p));
  }

  /** Flags, width, precision and qualifier are read in turn. */
  lemma {:induction false} ReadInTurn(s: string, i: nat, args: seq<Arg>, a: nat, f: Flags, w: nat,
                                      dw: Directive, dp: Directive)
    requires i <= |s| && ParseFlags(s, i, NO_FLAGS) == Parsed(f, w) && ParseWidth(s, w, f, args, a) == dw
    requires ParsePrecision(s, dw, args) == dp
    ensures ParseDirective(s, i, args, a) == ParseQualifier(s, dp)
  {
  }

  lemma {:induction false} QualifierIs(x: Spelling, s: string, d: Directive)
    requires WellSpelled(x) && d.at + |x.qualifier| < |s| && LiesAt(s, d.at, x.qualifier)
    requires s[d.at + |x.qualifier|] == x.conv && d.qualifier == NUL
    ensures ParseQualifier(s, d)
         == d.(qualifier := if x.qualifier == "" then NUL else x.qualifier[0], at := d.at + |x.qualifier|)
  {
    if x.qualifier != "" { assert s[d.at] == x.qualifier[0]; }
  }

  lemma {:induction false} StartOfQualifier(x: Spelling, s: string, q: nat)
    requires WellSpelled(x) && LiesAt(s, q, x.qualifier) && CharAt(s, q + |x.qualifier|) == x.conv
    ensures CharAt(s, q) == if x.qualifier == "" then x.conv else x.qualifier[0]
    ensures EndsPrecision(CharAt(s, q))
  {
    if x.qualifier != "" { assert s[q] == x.qualifier[0]; }
  }

  lemma {:induction false} StartOfPrecision(x: Spelling, s: string, p: nat)
    requires WellSpelled(x) && LiesAt(s, p, SpellPrecision(x.precision))
    requires EndsPrecision(CharAt(s, p + |SpellPrecision(x.precision)|))
    ensures EndsWidth(CharAt(s, p))
  {
    if !x.precision.Absent? { assert s[p] == SpellPrecision(x.precision)[0] == '.'; }
  }

  lemma {:induction false} StartOfWidth(x: Spelling, s: string, w: nat)
    requires WellSpelled(x) && LiesAt(s, w, SpellAmount(x.width))
    requires EndsWidth(CharAt(s, w + |SpellAmount(x.width)|))
    ensures !FlagChar(CharAt(s, w))
  {
    match x.width
    case Absent =>
    case Written(digits) => assert s[w] == digits[0] && DigitValue(digits[0]) < 10;
    case Star => assert s[w] == "*"[0];
  }

  // ---- a whole format ----

  /** A format is plain text and directives, in any order. */
  datatype Part = Text(plain: string) | Directs(x: Spelling)

  function SpellPart(p: Part): string {
    match p
    case Text(plain) => plain
    case Directs(x) => Spell(x)
  }

  function Join(parts: seq<Part>): string {
    if parts == [] then "" else SpellPart(parts[0]) + Join(parts[1..])
  }

  predicate WellFormedPart(p: Part) {
    match p
    case Text(plain) => '%' !in plain && NUL !in plain
    case Directs(x) => WellSpelled(x)
  }

  predicate WellFormed(parts: seq<Part>) {
    forall i :: 0 <= i < |parts| ==> WellFormedPart(parts[i])
  }

  /** The argument with which the next part goes on. */
  function NextArg(p: Part, a: nat): nat {
    if p.Text? then a else ArgBehind(p.x, a)
  }

  /** The texts that a part may print: plain text as it is, a directive as its characters say. */
  ghost function Printable(p: Part, args: seq<Arg>, a: nat): iset<string> {
    match p
    case Text(plain) => iset{plain}
    case Directs(x) => iset t: string | Shows(x, args, a, t)
  }

  /** The argument with which part `k` starts. */
  function ArgAt(parts: seq<Part>, k: nat): nat
    requires k <= |parts|
  {
    if k == 0 then 0 else NextArg(parts[k - 1], ArgAt(parts, k - 1))
  }

  /** Each part prints a text that it may print, and the arguments are taken in turn. */
  ghost predicate Prints(parts: seq<Part>, args: seq<Arg>, texts: seq<string>) {
    && |texts| == |parts|
    && forall k :: 0 <= k < |parts| ==> texts[k] in Printable(parts[k], args, ArgAt(parts, k))
  }

  function Flat(texts: seq<string>): string {
    if texts == [] then "" else texts[0] + Flat(texts[1..])
  }

  lemma {:induction false} PlainIs(s: string, i: nat, plain: string, args: seq<Arg>, a: nat)
    requires LiesAt(s, i, plain) && '%' !in plain && NUL !in plain
    ensures Format(s, i, args, a) == plain + Format(s, i + |plain|, args, a)
    decreases |plain|
  {
    if plain == [] {
      NothingBefore(Format(s, i, args, a));
    } else {
      FirstOfPlain(s, i, plain);
      PlainIs(s, i + 1, plain[1..], args, a);
      Regrouped(plain[0], plain[1..], Format(s, i + |plain|, args, a));
      assert plain == [plain[0]] + plain[1..];
    }
  }

  lemma FirstOfPlain(s: string, i: nat, plain: string)
    requires LiesAt(s, i, plain) && '%' !in plain && NUL !in plain && plain != []
    ensures i < |s| && s[i] == plain[0] != '%' && s[i] != NUL
    ensures LiesAt(s, i + 1, plain[1..]) && '%' !in plain[1..] && NUL !in plain[1..]
  {
    assert plain == [plain[0]] + plain[1..] && plain[0] in plain;
    Halves(s, i, [plain[0]], plain[1..]);
    assert s[i] == s[i..i + 1][0];
  }

  lemma Regrouped(c: char, u: string, v: string)
    ensures [c] + (u + v) == [c] + u + v
  {
  }

  lemma NothingBefore(v: string)
    ensures [] + v == v
  {
  }

  lemma {:induction false} DirectivePrints(s: string, i: nat, x: Spelling, args: seq<Arg>, a: nat)
    returns (text: string)
    requires WellSpelled(x) && LiesAt(s, i, Spell(x))
    ensures Format(s, i, args, a) == text + Format(s, i + |Spell(x)|, args, ArgBehind(x, a))
    ensures Shows(x, args, a, text)
  {
    var at := DirectiveIs(s, i, x, args, a);
    text := Printed(s, x, args, a, at);
    FormatAt(s, i, args, a, Meant(x, args, a, at));
  }

  lemma {:induction false} Printed(s: string, x: Spelling, args: seq<Arg>, a: nat, at: nat) returns (text: string)
    requires WellSpelled(x) && at < |s| && s[at] == x.conv
    ensures Shows(x, args, a, text)
    ensures Convert(s, Meant(x, args, a, at), args) == Piece(text, at + 1, ArgBehind(x, a))
  {
    ConvertShows(x, args, a, s, at);
    ConvertMoves(x, args, a, s, at);
    text := Convert(s, Meant(x, args, a, at), args).text;
  }

  lemma {:induction false} FormatAt(s: string, i: nat, args: seq<Arg>, a: nat, d: Directive)
    requires i < |s| && s[i] == '%' && ParseDirective(s, i + 1, args, a) == d && d.at < |s|
    ensures var p := Convert(s, d, args); Format(s, i, args, a) == p.text + Format(s, p.next, args, p.arg)
  {
  }

  /** The place at which part `k` starts. */
  function Place(parts: seq<Part>, k: nat): nat
    requires k <= |parts|
  {
    if k == 0 then 0 else Place(parts, k - 1) + |SpellPart(parts[k - 1])|
  }

  /** The format falls into what is before part `k` and the rest. */
  lemma {:induction false} JoinAt(parts: seq<Part>, k: nat) returns (u: string)
    requires k <= |parts|
    ensures Join(parts) == u + Join(parts[k..]) && |u| == Place(parts, k)
  {
    if k == 0 {
      u := "";
      assert parts[0..] == parts && "" + Join(parts) == Join(parts);
    } else {
      var before := JoinAt(parts, k - 1);
      JoinFirst(parts, k - 1);
      u := before + SpellPart(parts[k - 1]);
      Shifted(Join(parts), before, Join(parts[k - 1..]), SpellPart(parts[k - 1]), Join(parts[k..]));
    }
  }

  lemma Shifted(all: string, u: string, tail: string, v: string, w: string)
    requires all == u + tail && tail == v + w
    ensures all == (u + v) + w
  {
  }

  /** Where part `k` lies, and that the next one starts behind it. */
  lemma {:induction false} PartLies(parts: seq<Part>, k: nat)
    requires k < |parts|
    ensures LiesAt(Join(parts), Place(parts, k), SpellPart(parts[k])) && Place(parts, k + 1) <= |Join(parts)|
  {
    var u := JoinAt(parts, k);
    JoinFirst(parts, k);
    Behind(u, SpellPart(parts[k]), Join(parts[k + 1..]));
  }

  lemma Behind(u: string, part: string, v: string)
    ensures LiesAt(u + (part + v), |u|, part)
  {
  }

  lemma {:induction false} LastPlace(parts: seq<Part>)
    ensures Place(parts, |parts|) == |Join(parts)|
  {
    var u := JoinAt(parts, |parts|);
    assert parts[|parts|..] == [];
  }

  lemma {:induction false} JoinFirst(parts: seq<Part>, k: nat)
    requires k < |parts|
    ensures Join(parts[k..]) == SpellPart(parts[k]) + Join(parts[k + 1..])
  {
    assert parts[k..][0] == parts[k] && parts[k..][1..] == parts[k + 1..];
  }

  /** A part and what it prints. */
  lemma {:induction false} PartPrints(s: string, i: nat, p: Part, args: seq<Arg>, a: nat) returns (t: string)
    requires WellFormedPart(p) && LiesAt(s, i, SpellPart(p))
    ensures Format(s, i, args, a) == t + Format(s, i + |SpellPart(p)|, args, NextArg(p, a))
    ensures t in Printable(p, args, a)
  {
    if p.Text? {
      PlainIs(s, i, p.plain, args, a);
      t := p.plain;
    } else {
      t := DirectivePrints(s, i, p.x, args, a);
    }
  }

  /** The text of the format from part `k` on. */
  function TextFrom(parts: seq<Part>, args: seq<Arg>, k: nat): string {
    if k <= |parts| && Place(parts, k) <= |Join(parts)| then Format(Join(parts), Place(parts, k), args, ArgAt(parts, k))
    else ""
  }

  /** A text `t` that is allowed at `k` comes first, and then the text from `k + 1` on. */
  ghost predicate Steps(from: nat -> string, may: nat -> iset<string>, k: nat) {
    exists t :: t in may(k) && from(k) == t + from(k + 1)
  }

  lemma {:induction false} TextSteps(parts: seq<Part>, args: seq<Arg>, k: nat, from: nat -> string,
                                     may: nat -> iset<string>)
    requires WellFormed(parts) && k < |parts|
    requires from(k) == TextFrom(parts, args, k) && from(k + 1) == TextFrom(parts, args, k + 1)
    requires may(k) == MayPrint(parts, args, k)
    ensures Steps(from, may, k)
  {
    PartLies(parts, k);
    var t := PartPrints(Join(parts), Place(parts, k), parts[k], args, ArgAt(parts, k));
    assert t in may(k) && from(k) == t + from(k + 1);
  }

  lemma {:induction false} TextEnds(parts: seq<Part>, args: seq<Arg>)
    ensures TextFrom(parts, args, |parts|) == ""
  {
    LastPlace(parts);
  }

  /** Step by step, the whole text is made of allowed texts. */
  lemma {:induction false} Assembled(n: nat, from: nat -> string, may: nat -> iset<string>, k: nat)
    returns (texts: seq<string>)
    requires k <= n && from(n) == "" && forall m :: k <= m < n ==> Steps(from, may, m)
    ensures from(k) == Flat(texts) && |texts| == n - k
    ensures forall m :: 0 <= m < |texts| ==> texts[m] in may(k + m)
    decreases n - k
  {
    if k == n {
      texts := [];
    } else {
      assert Steps(from, may, k);
      var t :| t in may(k) && from(k) == t + from(k + 1);
      var rest := Assembled(n, from, may, k + 1);
      texts := [t] + rest;
      assert texts[1..] == rest;
    }
  }

  lemma {:induction false} AllAssembled(n: nat, from: nat -> string, may: nat -> iset<string>)
    returns (texts: seq<string>)
    requires from(n) == "" && forall m :: 0 <= m < n ==> Steps(from, may, m)
    ensures from(0) == Flat(texts) && |texts| == n && forall m :: 0 <= m < n ==> texts[m] in may(m)
  {
    texts := Assembled(n, from, may, 0);
    forall m | 0 <= m < n ensures texts[m] in may(m) { assert texts[m] in may(0 + m); }
  }

  /** Which texts part `k` may print. */
  ghost function MayPrint(parts: seq<Part>, args: seq<Arg>, k: nat): iset<string> {
    if k < |parts| then Printable(parts[k], args, ArgAt(parts, k)) else iset{}
  }

  lemma {:induction false} AllSteps(parts: seq<Part>, args: seq<Arg>, from: nat -> string, may: nat -> iset<string>)
    requires WellFormed(parts)
    requires forall k :: from(k) == TextFrom(parts, args, k)
    requires forall k :: may(k) == MayPrint(parts, args, k)
    ensures from(|parts|) == "" && forall k :: 0 <= k < |parts| ==> Steps(from, may, k)
  {
    forall k | 0 <= k < |parts| ensures Steps(from, may, k) { TextSteps(parts, args, k, from, may); }
    TextEnds(parts, args);
  }

  lemma {:induction false} AllowedPrint(parts: seq<Part>, args: seq<Arg>, texts: seq<string>)
    requires |texts| == |parts| && forall k :: 0 <= k < |texts| ==> texts[k] in MayPrint(parts, args, k)
    ensures Prints(parts, args, texts)
  {
  }

  /** The parts print texts that they may print, one behind the other. */
  lemma {:induction false} PartsPrint(parts: seq<Part>, args: seq<Arg>) returns (texts: seq<string>)
    requires WellFormed(parts)
    ensures TextFrom(parts, args, 0) == Flat(texts)
    ensures |texts| == |parts| && forall k :: 0 <= k < |texts| ==> texts[k] in MayPrint(parts, args, k)
  {
    var from := (k: nat) => TextFrom(parts, args, k);
    var may := (k: nat) => MayPrint(parts, args, k);
    AllSteps(parts, args, from, may);
    texts := AllAssembled(|parts|, from, may);
  }

  /** What a format promises for its text, whatever plain text and directives it is made of. */
  ghost predicate Promised(fmt: string, args: seq<Arg>, t: string) {
    forall parts: seq<Part> {:trigger Join(parts)} ::
      fmt == Join(parts) && WellFormed(parts) ==>
        exists texts :: Prints(parts, args, texts) && t == Flat(texts)
  }

  lemma {:induction false} FormatKeepsPromise(fmt: string, args: seq<Arg>)
    ensures Promised(fmt, args, Format(fmt, 0, args, 0))
  {
    forall parts: seq<Part> | fmt == Join(parts) && WellFormed(parts)
      ensures exists texts :: Prints(parts, args, texts) && Format(fmt, 0, args, 0) == Flat(texts)
    {
      var texts := PartsPrint(parts, args);
      AllowedPrint(parts, args, texts);
      assert TextFrom(parts, args, 0) == Format(fmt, 0, args, 0);
    }
  }
}
