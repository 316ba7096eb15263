/** What rt_vsnprintf of rt-thread/src/kservice.c prints when there is room for all of it. */
module FormatText {
  import opened NumberText

  /** One variable argument: a 32-bit word, or a string (RT_NULL for the null pointer). */
  datatype Arg = Num(word: Word) | Str(text: string) | NullStr

  const NUL: char := '\0'

  /** A character of a C string; reading at the end gives the terminator. */
  function CharAt(s: string, i: nat): char {
    if i < |s| then s[i] else NUL
  }

  function WordArg(args: seq<Arg>, a: nat): Word {
    if a < |args| && args[a].Num? then args[a].word else 0
  }

  function TextArg(args: seq<Arg>, a: nat): string {
    if a < |args| && args[a].Str? then args[a].text else "(NULL)"
  }

  predicate IsDigit(c: char) { '0' <= c <= '9' }

  predicate IsFlag(c: char) { c == '-' || c == '+' || c == ' ' || c == '#' || c == '0' }

  const NO_FLAGS := Flags(false, false, false, false, false, false, false)

  function AddFlag(f: Flags, c: char): Flags {
    if c == '-' then f.(left := true)
    else if c == '+' then f.(plus := true)
    else if c == ' ' then f.(space := true)
    else if c == '#' then f.(special := true)
    else f.(zeropad := true)
  }

  datatype Parsed<T> = Parsed(value: T, next: nat)

  function ParseFlags(s: string, i: nat, f: Flags): (r: Parsed<Flags>)
    requires i <= |s|
    ensures i <= r.next <= |s| && !IsFlag(CharAt(s, r.next))
    decreases |s| - i
  {
    if i < |s| && IsFlag(s[i]) then ParseFlags(s, i + 1, AddFlag(f, s[i])) else Parsed(f, i)
  }

  /** skip_atoi, continuing from `acc`. */
  function ParseInt(s: string, i: nat, acc: nat): (r: Parsed<nat>)
    requires i <= |s|
    ensures i <= r.next <= |s| && !IsDigit(CharAt(s, r.next))
    decreases |s| - i
  {
    if i < |s| && IsDigit(s[i]) then ParseInt(s, i + 1, acc * 10 + (s[i] as int - '0' as int))
    else Parsed(acc, i)
  }

  /** A directive up to its conversion character at `at`; `arg` is the next argument. */
  datatype Directive = Directive(flags: Flags, width: int, precision: int, qualifier: char,
                                 at: nat, arg: nat)

  /** The field width: digits, or `*` for an argument whose sign means left justified. */
  function ParseWidth(s: string, i: nat, f: Flags, args: seq<Arg>, a: nat): (d: Directive)
    requires i <= |s|
    ensures i <= d.at <= |s|
  {
    if IsDigit(CharAt(s, i)) then
      var r := ParseInt(s, i, 0);
      Directive(f, r.value, -1, NUL, r.next, a)
    else if CharAt(s, i) == '*' then
      var w := Signed(WordArg(args, a));
      if w < 0 then Directive(f.(left := true), 0 - w, -1, NUL, i + 1, a + 1)
      else Directive(f, w, -1, NUL, i + 1, a + 1)
    else Directive(f, -1, -1, NUL, i, a)
  }

  /** The precision; a point without digits and a negative argument mean 0. */
  function ParsePrecision(s: string, d: Directive, args: seq<Arg>): (r: Directive)
    requires d.at <= |s|
    ensures d.at <= r.at <= |s|
  {
    if CharAt(s, d.at) != '.' then d
    else if IsDigit(CharAt(s, d.at + 1)) then
      var p := ParseInt(s, d.at + 1, 0);
      d.(precision := p.value, at := p.next)
    else if CharAt(s, d.at + 1) == '*' then
      var p := Signed(WordArg(args, d.arg));
      d.(precision := if p < 0 then 0 else p, at := d.at + 2, arg := d.arg + 1)
    else d.(precision := 0, at := d.at + 1)
  }

  function ParseQualifier(s: string, d: Directive): (r: Directive)
    requires d.at <= |s|
    ensures d.at <= r.at <= |s|
  {
    var c := CharAt(s, d.at);
    if c == 'h' || c == 'l' then d.(qualifier := c, at := d.at + 1) else d
  }

  /** The directive behind the `%` at position `i - 1`. */
  function ParseDirective(s: string, i: nat, args: seq<Arg>, a: nat): (d: Directive)
    requires i <= |s|
    ensures i <= d.at <= |s|
  {
    var f := ParseFlags(s, i, NO_FLAGS);
    ParseQualifier(s, ParsePrecision(s, ParseWidth(s, f.next, f.value, args, a), args))
  }

  /** How many characters of a string are printed: the field width also cuts it off. */
  function TextLength(s: string, width: int, len: nat): nat
    requires len <= |s|
    decreases |s| - len
  {
    if len == width || CharAt(s, len) == NUL then len else TextLength(s, width, len + 1)
  }

  function CutLength(s: string, width: int, precision: int): (n: nat)
    ensures n <= |s|
  {
    var len := TextLength(s, width, 0);
    TextLengthBound(s, width, 0);
    if precision > 0 && len > precision then precision else len
  }

  lemma {:induction false} TextLengthBound(s: string, width: int, len: nat)
    requires len <= |s|
    ensures len <= TextLength(s, width, len) <= |s|
    decreases |s| - len
  {
    if !(len == width || CharAt(s, len) == NUL) { TextLengthBound(s, width, len + 1); }
  }

  function Justified(body: string, pad: int, left: bool): string {
    if left then body + Rep(' ', pad) else Rep(' ', pad) + body
  }

  /** The word an integer conversion prints, after the length qualifier. */
  function Qualified(w: Word, qualifier: char, signed: bool): Word {
    if qualifier != 'h' then w
    else
      var half := w % 0x1_0000;
      if signed && half >= 0x8000 then half + 0xFFFF_0000 else half
  }

  datatype Piece = Piece(text: string, next: nat, arg: nat)

  /** What one directive prints, where the format goes on, and the next argument. */
  function Convert(s: string, d: Directive, args: seq<Arg>): (p: Piece)
    requires d.at <= |s|
    ensures d.at <= p.next <= |s| && (d.at < |s| ==> CharAt(s, d.at) == NUL || p.next == d.at + 1)
  {
    var c := CharAt(s, d.at);
    match c
    case 'c' =>
      var body := [((WordArg(args, d.arg) % 256) as char)];
      Piece(Justified(body, d.width - 1, d.flags.left), d.at + 1, d.arg + 1)
    case 's' =>
      var text := TextArg(args, d.arg);
      var len := CutLength(text, d.width, d.precision);
      Piece(Justified(text[..len], d.width - len, d.flags.left), d.at + 1, d.arg + 1)
    case 'p' =>
      var f := if d.width == -1 then d.flags.(zeropad := true) else d.flags;
      var width := if d.width == -1 then 8 else d.width;
      Piece(Number(WordArg(args, d.arg), 16, width, d.precision, f), d.at + 1, d.arg + 1)
    case '%' => Piece("%", d.at + 1, d.arg)
    case _ =>
      if c == 'o' || c == 'x' || c == 'X' || c == 'd' || c == 'i' || c == 'u' then
        Piece(Number(Qualified(WordArg(args, d.arg), d.qualifier, IntFlags(d.flags, c).sign),
                     IntBase(c), d.width, d.precision, IntFlags(d.flags, c)),
              d.at + 1, d.arg + 1)
      else if c != NUL then Piece(['%', c], d.at + 1, d.arg)
      else Piece("%", d.at, d.arg)
  }

  function IntFlags(f: Flags, c: char): Flags {
    if c == 'X' then f.(large := true) else if c == 'd' || c == 'i' then f.(sign := true) else f
  }

  function IntBase(c: char): nat {
    if c == 'o' then 8 else if c == 'x' || c == 'X' then 16 else 10
  }

  /** The whole text of a format from position `i` on. */
  function Format(s: string, i: nat, args: seq<Arg>, a: nat): string
    requires i <= |s|
    decreases |s| - i
  {
    var c := CharAt(s, i);
    if c == NUL then ""
    else if c != '%' then [c] + Format(s, i + 1, args, a)
    else
      var p := Convert(s, ParseDirective(s, i + 1, args, a), args);
      p.text + Format(s, p.next, args, p.arg)
  }

  /** How many characters of a string the standard prints: all, or as many as the precision says. */
  function StandardLength(s: string, precision: int): nat {
    if 0 <= precision < |s| then precision else |s|
  }

  /**
   * When a string is cut as section 7.19.6.1 of ISO/IEC 9899:1999 says. There a field width
   * never cuts and precision 0 prints nothing; here a field width cuts, and precision 0 means
   * no precision.
   */
  lemma StringCutIsStandard(s: string, width: int, precision: int)
    requires NUL !in s
    ensures CutLength(s, width, precision) == StandardLength(s, precision) <==>
              if precision == 0 then s == "" || width == 0
              else width < 0 || StandardLength(s, precision) <= width
  {
    TextLengthIs(s, width, 0);
  }

  lemma {:induction false} TextLengthIs(s: string, width: int, len: nat)
    requires NUL !in s && len <= |s|
    ensures TextLength(s, width, len) == if len <= width < |s| then width else |s|
    decreases |s| - len
  {
    if len < |s| && len != width { TextLengthIs(s, width, len + 1); }
  }
}

/** rt_vsnprintf and print_number writing into memory. */
module Formatter {
  import DirectiveText
  import opened FormatText
  import opened NumberText

  /** The memory from the start of the buffer on, the writing position and the end of the buffer. */
  class Output {
    const mem: array<char>
    const end: nat
    var pos: nat
    ghost const before: seq<char>
    ghost var text: string

    /** Everything printed so far is in memory as far as it fits, and nothing else was written. */
    ghost predicate Valid()
      reads this, mem
    {
      && end <= mem.Length == |before| && pos == |text|
      && forall i :: 0 <= i < mem.Length ==> mem[i] == if i < pos && i < end then text[i] else before[i]
    }

    constructor (mem: array<char>, end: nat)
      requires end <= mem.Length
      ensures Valid() && this.mem == mem && this.end == end && before == mem[..] && text == ""
    {
      this.mem, this.end, pos := mem, end, 0;
      before, text := mem[..], "";
    }

    /** Printing one character: it is stored while there is room and counted in any case. */
    method Put(c: char)
      requires Valid()
      modifies this`pos, this`text, mem
      ensures Valid() && text == old(text) + [c]
    {
      if pos < end { mem[pos] := c; }
      pos := pos + 1;
      text := text + [c];
    }

    /** Printing a character `n` times, and what the counter of the loop is afterwards. */
    method PutWhile(c: char, n: int) returns (n': int)
      requires Valid()
      modifies this`pos, this`text, mem
      ensures Valid() && text == old(text) + Rep(c, n)
      ensures n' == if n > 0 then -1 else n - 1
    {
      n' := n;
      while n' > 0
        invariant Valid() && (if n > 0 then 0 <= n' <= n else n' == n)
        invariant text == old(text) + Rep(c, n - n')
      {
        Put(c);
        n' := n' - 1;
        assert Rep(c, n - n') == Rep(c, n - n' - 1) + [c];
      }
      n' := n' - 1;
    }
  }

  /** divide: the digit, and what is left of the number. */
  method Divide(n: Word, base: nat) returns (digit: nat, rest: Word)
    ensures digit == n % DivideBase(base) && rest == n / DivideBase(base)
  {
    if base == 10 {
      digit, rest := n % 10, n / 10;
    } else {
      digit, rest := n % 16, n / 16;
    }
  }

  /** The text of the digits stored least significant first. */
  function Reversed(t: seq<char>): (r: string)
    ensures |r| == |t|
  {
    if t == [] then "" else Reversed(t[1..]) + [t[0]]
  }

  lemma {:induction false} ReversedAppend(t: seq<char>, u: seq<char>)
    ensures Reversed(t + u) == Reversed(u) + Reversed(t)
  {
    if t == [] {
      assert t + u == u;
    } else {
      assert (t + u)[1..] == t[1..] + u;
      ReversedAppend(t[1..], u);
    }
  }

  /** The digits of what is left, nothing when nothing is left. */
  function Rest(n: Word, b: nat, large: bool): string
    requires b == 10 || b == 16
  {
    if n == 0 then "" else Digits(n, b, large)
  }

  lemma {:induction false} RestStep(n: Word, b: nat, large: bool)
    requires (b == 10 || b == 16) && n != 0
    ensures Rest(n, b, large) == Rest(n / b, b, large) + [Digit(n % b, large)]
  {
    if n < b {
      assert n / b == 0 && n % b == n;
    } else {
      assert n / b > 0 by { if b == 10 { assert n / 10 > 0; } else { assert n / 16 > 0; } }
    }
  }

  /** Moving the last character `c` of what is left behind the characters stored before. */
  lemma {:induction false} DigitStored(left: string, c: char, was: seq<char>, goal: string)
    requires left + [c] + Reversed(was) == goal
    ensures left + Reversed(was + [c]) == goal && |was| < |goal|
  {
    ReversedAppend(was, [c]);
    assert [c][1..] == [] && Reversed([c]) == [c];
    assert left + ([c] + Reversed(was)) == left + [c] + Reversed(was);
  }

  /** The digit loop of print_number, into the temporary buffer of sixteen characters. */
  method StoreDigits(num: Word, base: nat, large: bool, tmp: array<char>) returns (i: nat)
    requires tmp.Length == 16
    modifies tmp
    ensures i <= 16 && Reversed(tmp[..i]) == Digits(num, DivideBase(base), large)
  {
    ghost var b, goal := DivideBase(base), Digits(num, DivideBase(base), large);
    DigitsFit(num, b, large);
    i := 0;
    if num == 0 {
      tmp[0] := '0';
      i := 1;
      assert tmp[..1] == ['0'];
      return;
    }
    var n := num;
    while n != 0
      invariant i <= 10 && Rest(n, b, large) + Reversed(tmp[..i]) == goal
      decreases n
    {
      ghost var was := tmp[..i];
      var digit, rest := Divide(n, base);
      RestStep(n, b, large);
      DigitStored(Rest(rest, b, large), Digit(digit, large), was, goal);
      tmp[i] := if large then LARGE_DIGITS[digit] else SMALL_DIGITS[digit];
      i := i + 1;
      assert tmp[..i] == was + [Digit(digit, large)];
      n := rest;
    }
  }

  /** What print_number has printed before the digits. */
  function Head(sign: string, pad: int, flags: Flags): string {
    if flags.left then sign
    else if flags.zeropad then sign + Rep('0', pad)
    else Rep(' ', pad) + sign
  }

  lemma LayoutJoins(start: string, sign: string, body: string, pad: int, size: int, flags: Flags,
                    head: string, text: string)
    requires head == start + Head(sign, pad, flags)
    requires if flags.left then size == pad else size <= 0
    requires text == head + body + Rep(' ', size)
    ensures text == start + Layout(sign, body, pad, flags)
  {
  }

  /** The sign character of print_number, NUL for none, and the number without it. */
  method SplitSign(num: Word, flags: Flags) returns (sign: char, n: Word)
    ensures n == Magnitude(num, flags)
    ensures Sign(num, flags) == if sign == NUL then "" else [sign]
  {
    sign, n := '\0', num;
    if flags.sign {
      if n >= 0x8000_0000 {
        sign := '-';
        n := 0x1_0000_0000 - n;
      } else if flags.plus {
        sign := '+';
      } else if flags.space {
        sign := ' ';
      }
    }
  }

  /** The part of print_number in front of the digits; the result is the room left behind them. */
  method PrintHead(out: Output, sign: char, room: int, flags: Flags) returns (size: int)
    requires out.Valid()
    modifies out`pos, out`text, out.mem
    ensures out.Valid()
    ensures var signText := if sign == NUL then "" else [sign];
            var pad := room - |signText|;
            && out.text == old(out.text) + Head(signText, pad, flags)
            && (if flags.left then size == pad else size <= 0)
  {
    size := room;
    var zeropad := flags.zeropad && !flags.left;
    var c := if zeropad then '0' else ' ';
    if !zeropad && !flags.left {
      if sign != '\0' && size > 0 { size := size - 1; }
      size := out.PutWhile(' ', size);
    }
    if sign != '\0' {
      out.Put(sign);
      size := size - 1;
    }
    if !flags.left {
      size := out.PutWhile(c, size);
    }
  }

  /** print_number. */
  method PrintNumber(out: Output, num: Word, base: nat, s: int, precision: int, flags: Flags)
    requires out.Valid()
    modifies out`pos, out`text, out.mem
    ensures out.Valid() && out.text == old(out.text) + Number(num, base, s, precision, flags)
  {
    var sign, n := SplitSign(num, flags);
    var tmp := new char[16](_ => '0');
    var i := StoreDigits(n, base, flags.large, tmp);
    PrintLayout(out, sign, tmp, i, s, precision, flags, Sign(num, flags), Reversed(tmp[..i]));
  }

  /** The loops of print_number once sign and digits are known. */
  method PrintLayout(out: Output, sign: char, tmp: array<char>, i: nat, s: int, precision: int, flags: Flags,
                     ghost signText: string, ghost digits: string)
    requires out.Valid() && tmp != out.mem && i <= tmp.Length
    requires signText == (if sign == NUL then "" else [sign]) && digits == Reversed(tmp[..i])
    modifies out`pos, out`text, out.mem
    ensures out.Valid()
    ensures out.text == old(out.text)
      + Layout(signText, Body(digits, precision), s - Max(|digits|, precision) - |signText|, flags)
  {
    ghost var start := out.text;
    var prec := if i > precision then i else precision;
    var size := PrintHead(out, sign, s - prec, flags);
    ghost var head := out.text;
    PrintBody(out, tmp, i, prec, precision, size);
    LayoutJoins(start, signText, Body(digits, precision), s - prec - |signText|, size, flags, head, out.text);
  }

  /** The part of print_number from the zeros of the precision on. */
  method PrintBody(out: Output, tmp: array<char>, i: nat, prec: int, precision: int, size: int)
    requires out.Valid() && tmp != out.mem && i <= tmp.Length && prec == Max(i, precision)
    modifies out`pos, out`text, out.mem
    ensures out.Valid()
    ensures out.text == old(out.text) + Body(Reversed(tmp[..i]), precision) + Rep(' ', size)
  {
    var _ := out.PutWhile('0', prec - i);
    PrintDigits(out, tmp, i, precision);
    var _ := out.PutWhile(' ', size);
  }

  /** Printing the stored digits from the last to the first, unless the precision was 0. */
  method PrintDigits(out: Output, tmp: array<char>, n: nat, precision: int)
    requires out.Valid() && tmp != out.mem && n <= tmp.Length
    modifies out`pos, out`text, out.mem
    ensures out.Valid()
    ensures out.text == old(out.text) + if precision == 0 then "" else Reversed(tmp[..n])
  {
    ghost var digits := tmp[..n];
    var i := n;
    while i > 0 && precision != 0
      invariant 0 <= i <= n && out.Valid() && tmp[..n] == digits
      invariant precision == 0 ==> i == n
      invariant out.text == old(out.text) + Reversed(digits[i..])
      decreases i
    {
      i := i - 1;
      assert tmp[i] == digits[i] && digits[i..][1..] == digits[i + 1..];
      out.Put(tmp[i]);
    }
    assert digits[n..] == [] && digits[0..] == digits;
  }

  /** The flag loop of rt_vsnprintf. */
  method SkipFlags(fmt: string, start: nat) returns (flags: Flags, i: nat)
    requires start <= |fmt|
    ensures Parsed(flags, i) == ParseFlags(fmt, start, NO_FLAGS)
  {
    flags, i := NO_FLAGS, start;
    while IsFlag(CharAt(fmt, i))
      invariant start <= i <= |fmt|
      invariant ParseFlags(fmt, i, flags) == ParseFlags(fmt, start, NO_FLAGS)
      decreases |fmt| - i
    {
      flags := AddFlag(flags, CharAt(fmt, i));
      i := i + 1;
    }
  }

  /** skip_atoi. */
  method SkipAtoi(fmt: string, start: nat) returns (value: nat, i: nat)
    requires start <= |fmt|
    ensures Parsed(value, i) == ParseInt(fmt, start, 0)
  {
    value, i := 0, start;
    while IsDigit(CharAt(fmt, i))
      invariant start <= i <= |fmt|
      invariant ParseInt(fmt, i, value) == ParseInt(fmt, start, 0)
      decreases |fmt| - i
    {
      value := value * 10 + (CharAt(fmt, i) as int - '0' as int);
      i := i + 1;
    }
  }

  /** The field width, the precision and the qualifier of a directive. */
  method ReadDirective(fmt: string, start: nat, args: seq<Arg>, a: nat) returns (d: Directive)
    requires start <= |fmt|
    ensures d == ParseDirective(fmt, start, args, a)
  {
    var flags, i := SkipFlags(fmt, start);
    var arg, width, precision, qualifier := a, -1, -1, NUL;
    if IsDigit(CharAt(fmt, i)) {
      width, i := SkipAtoi(fmt, i);
    } else if CharAt(fmt, i) == '*' {
      i := i + 1;
      width := Signed(WordArg(args, arg));
      arg := arg + 1;
      if width < 0 {
        width := 0 - width;
        flags := flags.(left := true);
      }
    }
    ghost var dw := Directive(flags, width, -1, NUL, i, arg);
    assert dw == ParseWidth(fmt, ParseFlags(fmt, start, NO_FLAGS).next,
                            ParseFlags(fmt, start, NO_FLAGS).value, args, a);
    if CharAt(fmt, i) == '.' {
      i := i + 1;
      if IsDigit(CharAt(fmt, i)) {
        precision, i := SkipAtoi(fmt, i);
      } else if CharAt(fmt, i) == '*' {
        i := i + 1;
        precision := Signed(WordArg(args, arg));
        arg := arg + 1;
      }
      if precision < 0 { precision := 0; }
    }
    assert Directive(flags, width, precision, NUL, i, arg) == ParsePrecision(fmt, dw, args);
    if CharAt(fmt, i) == 'h' || CharAt(fmt, i) == 'l' {
      qualifier := CharAt(fmt, i);
      i := i + 1;
    }
    d := Directive(flags, width, precision, qualifier, i, arg);
  }

  /** Case 'c': one character in its field. */
  method PrintChar(out: Output, c: char, fieldWidth: int, left: bool)
    requires out.Valid()
    modifies out`pos, out`text, out.mem
    ensures out.Valid() && out.text == old(out.text) + Justified([c], fieldWidth - 1, left)
  {
    var width := fieldWidth;
    if !left {
      width := out.PutWhile(' ', width - 1);
    } else {
      width := width - 1;
    }
    ghost var pad := if left then "" else Rep(' ', fieldWidth - 1);
    out.Put(c);
    var _ := out.PutWhile(' ', if left then width else width - 1);
    assert pad + [c] + Rep(' ', if left then width else width - 1) == Justified([c], fieldWidth - 1, left);
  }

  /** The length loop of case 's'. */
  method MeasureText(s: string, fieldWidth: int, precision: int) returns (len: nat)
    ensures len == CutLength(s, fieldWidth, precision)
  {
    len := 0;
    while len != fieldWidth && CharAt(s, len) != NUL
      invariant len <= |s| && TextLength(s, fieldWidth, len) == TextLength(s, fieldWidth, 0)
      decreases |s| - len
    {
      len := len + 1;
    }
    if precision > 0 && len > precision { len := precision; }
  }

  /** Case 's': a string in its field. */
  method PrintText(out: Output, s: string, fieldWidth: int, precision: int, left: bool)
    requires out.Valid()
    modifies out`pos, out`text, out.mem
    ensures out.Valid()
    ensures var len := CutLength(s, fieldWidth, precision);
            out.text == old(out.text) + Justified(s[..len], fieldWidth - len, left)
  {
    var len := MeasureText(s, fieldWidth, precision);
    var room := fieldWidth - len;
    ghost var start := out.text;
    if !left {
      room := out.PutWhile(' ', room);
    }
    ghost var head := out.text;
    for i := 0 to len
      invariant out.Valid() && out.text == head + s[..i]
    {
      out.Put(s[i]);
      assert s[..i + 1] == s[..i] + [s[i]];
    }
    var _ := out.PutWhile(' ', room);
    assert out.text == start + Justified(s[..len], fieldWidth - len, left);
  }

  /** The switch over the conversion character; the result is where the format goes on. */
  method PrintDirective(out: Output, fmt: string, d: Directive, args: seq<Arg>) returns (next: nat, arg: nat)
    requires out.Valid() && d.at <= |fmt|
    modifies out`pos, out`text, out.mem
    ensures out.Valid()
    ensures out.text == old(out.text) + Convert(fmt, d, args).text
    ensures next == Convert(fmt, d, args).next && arg == Convert(fmt, d, args).arg
  {
    var c := CharAt(fmt, d.at);
    next, arg := d.at + 1, d.arg;
    match c
    case 'c' =>
      PrintChar(out, (WordArg(args, arg) % 256) as char, d.width, d.flags.left);
      arg := arg + 1;
    case 's' =>
      PrintText(out, TextArg(args, arg), d.width, d.precision, d.flags.left);
      arg := arg + 1;
    case 'p' =>
      var width, flags := d.width, d.flags;
      if width == -1 {
        width := 8;
        flags := flags.(zeropad := true);
      }
      PrintNumber(out, WordArg(args, arg), 16, width, d.precision, flags);
      arg := arg + 1;
    case '%' =>
      out.Put('%');
    case _ =>
      if c == 'o' || c == 'x' || c == 'X' || c == 'd' || c == 'i' || c == 'u' {
        PrintInteger(out, c, d, args);
        arg := arg + 1;
      } else {
        out.Put('%');
        if c != NUL {
          out.Put(c);
        } else {
          next := d.at;
        }
      }
  }

  /** The integer conversions. */
  method PrintInteger(out: Output, c: char, d: Directive, args: seq<Arg>)
    requires out.Valid()
    modifies out`pos, out`text, out.mem
    ensures out.Valid()
    ensures out.text == old(out.text)
      + Number(Qualified(WordArg(args, d.arg), d.qualifier, IntFlags(d.flags, c).sign),
               IntBase(c), d.width, d.precision, IntFlags(d.flags, c))
  {
    var flags, base := d.flags, 10;
    if c == 'o' { base := 8; }
    if c == 'X' { flags := flags.(large := true); }
    if c == 'X' || c == 'x' { base := 16; }
    if c == 'd' || c == 'i' { flags := flags.(sign := true); }
    var num := WordArg(args, d.arg);
    if d.qualifier == 'h' {
      num := num % 0x1_0000;
      if flags.sign && num >= 0x8000 { num := num + 0xFFFF_0000; }
    }
    PrintNumber(out, num, base, d.width, d.precision, flags);
  }

  /** The size of the buffer once an end beyond the address space has been moved back. */
  function UsableSize(addr: nat, size: nat): nat
    requires addr < 0x1_0000_0000
  {
    if (addr + size) % 0x1_0000_0000 < addr then 0xFFFF_FFFF - addr else size
  }

  /** An end of the buffer that wraps around is moved back to the end of the address space. */
  method ClampSize(addr: nat, size: nat) returns (room: nat)
    requires addr < 0x1_0000_0000 && size < 0x1_0000_0000
    ensures room == UsableSize(addr, size) && addr + room <= 0x1_0000_0000
  {
    var end := (addr + size) % 0x1_0000_0000;
    room := size;
    if end < addr {
      end := 0xFFFF_FFFF;
      room := end - addr;
    }
  }

  /** How many characters of a text of the given length a buffer holds besides the terminator. */
  function Written(length: nat, room: nat): nat {
    if length < room then length else if room > 0 then room - 1 else 0
  }

  /**
   * The length of the whole text is the number of characters written exactly when the text is
   * shorter than the buffer, or empty.
   */
  lemma LengthIsWritten(length: nat, room: nat)
    ensures length == Written(length, room) <==> length < room || length == 0
  {
  }

  /**
   * rt_vsnprintf. `mem` is all memory from the buffer's address to the end of the address space.
   * The result is the length of the whole text whatever the size; when the size is positive the
   * buffer holds as much of the text as leaves room for the terminator, then the terminator;
   * nothing else is written. The text of plain characters followed by one directive is what
   * `DirectiveText.Shows` tells from the characters of the directive.
   */
  method Vsnprintf(mem: array<char>, addr: nat, size: nat, fmt: string, args: seq<Arg>) returns (n: nat)
    requires addr < 0x1_0000_0000 && size < 0x1_0000_0000 && mem.Length == 0x1_0000_0000 - addr
    modifies mem
    ensures var text, room := Format(fmt, 0, args, 0), UsableSize(addr, size);
            && DirectiveText.Promised(fmt, args, text)
            && n == |text| && (n == Written(|text|, room) <==> |text| < room || text == "")
            && room <= mem.Length
            && (room == 0 ==> mem[..] == old(mem[..]))
            && (room > 0 ==>
                  var k := Written(|text|, room);
                  && mem[..k] == text[..k]
                  && mem[k] == NUL
                  && mem[k + 1..] == old(mem[..])[k + 1..])
  {
    DirectiveText.FormatKeepsPromise(fmt, args);
    var room := ClampSize(addr, size);
    var out := new Output(mem, room);
    PrintAll(out, fmt, args);
    Terminate(out);
    return out.pos;
  }

  /** The loop of rt_vsnprintf over the format. */
  method PrintAll(out: Output, fmt: string, args: seq<Arg>)
    requires out.Valid() && out.text == ""
    modifies out`pos, out`text, out.mem
    ensures out.Valid() && out.text == Format(fmt, 0, args, 0)
  {
    var i, a := 0, 0;
    while CharAt(fmt, i) != NUL
      invariant i <= |fmt| && out.Valid()
      invariant out.text + Format(fmt, i, args, a) == Format(fmt, 0, args, 0)
      decreases |fmt| - i
    {
      ghost var text := out.text;
      if CharAt(fmt, i) != '%' {
        FormatPlain(text, fmt, i, args, a);
        out.Put(CharAt(fmt, i));
        i := i + 1;
      } else {
        FormatDirective(text, fmt, i, args, a);
        var d := ReadDirective(fmt, i + 1, args, a);
        i, a := PrintDirective(out, fmt, d, args);
      }
    }
  }

  lemma FormatPlain(text: string, fmt: string, i: nat, args: seq<Arg>, a: nat)
    requires i < |fmt| && fmt[i] != NUL && fmt[i] != '%'
    ensures text + Format(fmt, i, args, a) == text + [fmt[i]] + Format(fmt, i + 1, args, a)
  {
  }

  lemma FormatDirective(text: string, fmt: string, i: nat, args: seq<Arg>, a: nat)
    requires i < |fmt| && fmt[i] == '%'
    ensures var p := Convert(fmt, ParseDirective(fmt, i + 1, args, a), args);
            p.next > i && text + Format(fmt, i, args, a) == text + p.text + Format(fmt, p.next, args, p.arg)
  {
  }

  /** The terminator, behind the text or in the last place of the buffer. */
  method Terminate(out: Output)
    requires out.Valid()
    modifies out.mem
    ensures var mem, text, room := out.mem, out.text, out.end;
            && (room == 0 ==> mem[..] == out.before)
            && (room > 0 ==>
                  var k := Written(|text|, room);
                  mem[..k] == text[..k] && mem[k] == NUL && mem[k + 1..] == out.before[k + 1..])
  {
    if out.end > 0 {
      if out.pos < out.end {
        out.mem[out.pos] := NUL;
      } else {
        out.mem[out.end - 1] := NUL;
      }
    }
  }
}
