/** The number printers and the bounded formatter of kernel/print.c. */
module Printing {
  import opened Common
  import opened Numerals

  type Unsigned64 = v: nat | v < 0x1_0000_0000_0000_0000

  const HEX_DIGITS := "0123456789abcdef"

  function Min(a: int, b: int): int { if a < b then a else b }

  function Max(a: int, b: int): int { if a < b then b else a }

  /** The characters up to the terminating NUL. */
  function CString(s: string): (t: string) {
    if s == "" || s[0] == '\0' then "" else [s[0]] + CString(s[1..])
  }

  lemma {:induction false} CStringOf(t: string, rest: string)
    requires '\0' !in t
    ensures CString(t + "\0" + rest) == t
  {
    var s := t + "\0" + rest;
    if t != "" {
      assert s[1..] == t[1..] + "\0" + rest;
      CStringOf(t[1..], rest);
    }
  }

  /** Reading from `pos` a buffer whose tail is a numeral and a NUL yields the numeral. */
  lemma BufferText(buffer: string, pos: nat, text: string, b: nat)
    requires pos + |text| + 1 == |buffer| && buffer[|buffer| - 1] == '\0'
    requires buffer[pos..|buffer| - 1] == text && b <= 16 && IsNumeral(text, b)
    ensures CString(buffer[pos..]) == text
  {
    forall i | 0 <= i < |text| ensures text[i] != '\0' {
      assert Value(text[i]) < b;
    }
    assert buffer[pos..] == text + "\0" + "";
    CStringOf(text, "");
  }

  // ---- print_dec and print_hex ----

  /**
   * What the digit loops keep: the digits of `v` are those of what is left of it (none once it is used up)
   * followed by the digits already in the buffer.
   */
  ghost predicate Peeling(v: nat, left: nat, b: nat, done: string)
    requires 2 <= b <= 16
  {
    Numeral(v, b) == (if left == 0 && done != "" then "" else Numeral(left, b)) + done
  }

  lemma PeelStart(v: nat, b: nat)
    requires 2 <= b <= 16
    ensures Peeling(v, v, b, "")
  {
    assert Numeral(v, b) + "" == Numeral(v, b);
  }

  lemma QuotientOf(v: nat, q: int, d: int, b: nat)
    requires b >= 2 && 0 <= d < b && v == q * b + d
    ensures 0 <= q <= v && (v > 0 ==> q < v)
    ensures v < b ==> q == 0
  {
    if q < 0 {
      MulGap(0, q, b);
    } else if q > 0 {
      MulGap(q, 0, b);
      TimesTwo(q, b);
    }
  }

  lemma {:induction false} TimesTwo(q: nat, b: nat)
    requires b >= 2
    ensures q * b >= 2 * q
  {
    if q > 0 { TimesTwo(q - 1, b); }
  }

  lemma Quotient(v: nat, b: nat)
    requires b >= 2
    ensures 0 <= v % b < b && 0 <= v / b <= v && (v > 0 ==> v / b < v)
    ensures v < b ==> v / b == 0 && v % b == v
  {
    QuotientOf(v, v / b, v % b, b);
  }

  lemma PeelStep(v: nat, left: nat, b: nat, done: string)
    requires 2 <= b <= 16 && Peeling(v, left, b, done) && (left > 0 || done == "")
    ensures left % b < b
    ensures Peeling(v, left / b, b, [Digit(left % b)] + done)
  {
    hide Digit, Numeral;
    Quotient(left, b);
    var q, d := left / b, left % b;
    if left < b {
      NumeralSmall(left, b);
    } else {
      DivPositive(left, b);
      NumeralSplit(left, b);
      assert Numeral(q, b) + [Digit(d)] + done == Numeral(q, b) + ([Digit(d)] + done);
    }
  }

  /** When the loop stops for lack of room, the buffer holds the low digits. */
  lemma PeelEnd(v: nat, left: nat, b: nat, done: string, room: nat)
    requires 2 <= b <= 16 && Peeling(v, left, b, done) && done != "" && |done| <= room
    requires left == 0 || |done| == room
    ensures done == Last(Numeral(v, b), room)
  {
    if left > 0 {
      assert Numeral(v, b)[|Numeral(left, b)|..] == done;
    }
  }

  /** The digit loop of both printers: a 20-byte buffer filled backwards from its NUL. */
  method FillDigits(buffer: array<char>, value: Unsigned64, b: nat) returns (pos: nat)
    requires buffer.Length == 20 && 2 <= b <= 16
    modifies buffer
    ensures pos < 19 && buffer[19] == '\0'
    ensures buffer[pos..19] == Last(Numeral(value, b), 19)
  {
    hide Numeral, Digit, Peeling;
    pos := buffer.Length - 1;
    buffer[pos] := '\0';
    PeelStart(value, b);
    var left: nat := value;
    if left == 0 {
      PeelStep(value, 0, b, "");
      Quotient(0, b);
      pos := pos - 1;
      buffer[pos] := '0';
      ValueOfDigit(0);
      assert buffer[pos..19] == [Digit(0)] + "";
    } else {
      assert buffer[pos..19] == "";
      while left > 0 && pos > 0
        invariant 0 <= pos <= 19 && buffer[19] == '\0'
        invariant Peeling(value, left, b, buffer[pos..19])
        invariant left > 0 || pos < 19
      {
        ghost var done, digit := buffer[pos..19], left % b;
        PeelStep(value, left, b, done);
        Quotient(left, b);
        ValueOfDigit(digit);
        pos := pos - 1;
        buffer[pos] := HEX_DIGITS[left % b];
        left := left / b;
        assert buffer[pos..19] == [Digit(digit)] + done;
      }
    }
    PeelEnd(value, left, b, buffer[pos..19], 19);
  }

  /** What `print_dec` writes to the console: the low nineteen digits. */
  method PrintDec(value: Unsigned64) returns (out: string)
    ensures IsNumeral(out, 10) && Denotes(out, 10) == value % 10_000_000_000_000_000_000
    ensures value < 10_000_000_000_000_000_000 ==> out == Numeral(value, 10)
    ensures value >= 10_000_000_000_000_000_000 ==> |out| == 19
  {
    hide Numeral, Denotes, Power, IsNumeral;
    var buffer := new char[20];
    var pos := FillDigits(buffer, value, 10);
    LastDigits(value, 10, 19);
    PowersOfTen();
    NumeralLength(value, 10, 19);
    BufferText(buffer[..], pos, buffer[pos..19], 10);
    out := CString(buffer[pos..]);
  }

  /** How many digits `print_hex` asks for: a negative width compares as a huge unsigned one. */
  function Wanted(width: int): (n: nat)
    ensures n <= 19
    ensures width < 0 || width >= 19 <==> n == 19
  {
    if width < 0 then 19 else Min(width, 19)
  }

  function Zeros(n: nat): (s: string)
    ensures |s| == n && forall i :: 0 <= i < n ==> s[i] == '0'
  {
    seq(n, _ => '0')
  }

  lemma Padded(buffer: string, pos: nat, start: nat, rest: string)
    requires pos <= start < 20 == |buffer| && buffer[start..19] == rest
    requires forall i :: pos <= i < start ==> buffer[i] == '0'
    ensures buffer[pos..19] == Zeros(start - pos) + rest
  {
    assert buffer[pos..19] == buffer[pos..start] + buffer[start..19];
    assert buffer[pos..start] == Zeros(start - pos);
  }

  /** The padding loop of `print_hex`. */
  method Pad(buffer: array<char>, start: nat, width: int) returns (pos: nat)
    requires buffer.Length == 20 && start < 19
    modifies buffer
    ensures pos <= start && 19 - pos == Max(19 - start, Wanted(width))
    ensures buffer[pos..19] == Zeros(start - pos) + old(buffer[start..19]) && buffer[19] == old(buffer[19])
  {
    pos := start;
    while (width < 0 || 19 - pos < width) && pos > 0
      invariant 0 <= pos <= start
      invariant pos < start ==> 19 - pos <= Wanted(width)
      invariant forall i :: pos <= i < start ==> buffer[i] == '0'
      invariant forall i :: start <= i < 20 ==> buffer[i] == old(buffer[i])
    {
      pos := pos - 1;
      buffer[pos] := '0';
    }
    Padded(buffer[..], pos, start, old(buffer[start..19]));
  }

  /** What `print_hex` writes: the digits of the value, with leading zeros up to the width and at most nineteen. */
  method PrintHex(value: Unsigned64, width: int) returns (out: string)
    requires -0x8000_0000 <= width < 0x8000_0000
    ensures |out| == 2 + Max(|Numeral(value, 16)|, if 0 <= width < 19 then width else 19) && out[..2] == "0x"
    ensures IsNumeral(out[2..], 16) && Denotes(out[2..], 16) == value
  {
    hide Numeral, Denotes, Power, IsNumeral;
    var buffer := new char[20];
    var start := FillDigits(buffer, value, 16);
    ghost var digits := Numeral(value, 16);
    PowersOfSixteen();
    NumeralLength(value, 16, 16);
    NumeralDenotes(value, 16);
    assert buffer[start..19] == digits;
    var pos := Pad(buffer, start, width);
    ZerosInFront(Zeros(start - pos), digits, 16);
    BufferText(buffer[..], pos, Zeros(start - pos) + digits, 16);
    out := "0x" + CString(buffer[pos..]);
    assert out[2..] == Zeros(start - pos) + digits;
  }

  // ---- vsnprintf ----

  /** An argument as `va_arg` delivers it; a null string pointer is `Text(None)`. */
  datatype Arg = Int(i: int) | Unsigned(u: nat) | Wide(w: nat) | Text(t: Option<string>)

  /** One step through the format: what it emits, and how much of the format and the arguments it uses. */
  datatype Piece = Piece(text: string, skip: nat, taken: nat)

  /**
   * The front of a format. `None` is outside the modelled domain: an unknown or incomplete directive, `%p`,
   * an argument of another type than the directive reads, or the one int that has no negative.
   */
  function Front(fmt: string, args: seq<Arg>): (p: Option<Piece>)
    requires fmt != ""
    ensures p.Some? ==> 0 < p.value.skip <= |fmt| && p.value.taken <= |args|
  {
    if fmt[0] != '%' then Some(Piece([fmt[0]], 1, 0))
    else if |fmt| == 1 then None
    else if fmt[1] == '%' then Some(Piece("%", 2, 0))
    else if fmt[1] == 'l' && 4 <= |fmt| && fmt[2] == 'l' && fmt[3] == 'x' then
      if args != [] && args[0].Wide? && args[0].w < 0x1_0000_0000_0000_0000
      then Some(Piece(Numeral(args[0].w, 16), 4, 1))
      else None
    else if fmt[1] == 'l' then Some(Piece("", 2, 0))
    else if args == [] then None
    else match args[0]
      case Int(i) =>
        if fmt[1] in "di" && -0x8000_0000 < i < 0x8000_0000 then Some(Piece(Signed(i), 2, 1))
        else if fmt[1] == 'c' then Some(Piece([(i % 256) as char], 2, 1))
        else None
      case Unsigned(u) =>
        if u >= 0x1_0000_0000 then None
        else if fmt[1] == 'u' then Some(Piece(Numeral(u, 10), 2, 1))
        else if fmt[1] == 'x' then Some(Piece(Numeral(u, 16), 2, 1))
        else None
      case Text(t) => if fmt[1] == 's' then Some(Piece(if t.Some? then t.value else "(null)", 2, 1)) else None
      case Wide(_) => None
  }

  ghost predicate Supported(fmt: string, args: seq<Arg>) {
    fmt == "" ||
    (var p := Front(fmt, args);
     p.Some? && Supported(fmt[p.value.skip..], args[p.value.taken..]))
  }

  /** The unbounded formatter. */
  ghost function Render(fmt: string, args: seq<Arg>): (s: string)
    requires Supported(fmt, args)
  {
    if fmt == "" then ""
    else
      var p := Front(fmt, args).value;
      p.text + Render(fmt[p.skip..], args[p.taken..])
  }

  /** A number rendered by any of the directives reads back as itself. */
  lemma NumbersReadBack(i: int, u: nat, w: Unsigned64)
    requires -0x8000_0000 < i < 0x8000_0000 && u < 0x1_0000_0000
    ensures Supported("%d", [Int(i)]) && ReadSigned(Render("%d", [Int(i)])) == i
    ensures Supported("%i", [Int(i)]) && ReadSigned(Render("%i", [Int(i)])) == i
    ensures Supported("%u", [Unsigned(u)]) && Denotes(Render("%u", [Unsigned(u)]), 10) == u
    ensures Supported("%x", [Unsigned(u)]) && Denotes(Render("%x", [Unsigned(u)]), 16) == u
    ensures Supported("%llx", [Wide(w)]) && Denotes(Render("%llx", [Wide(w)]), 16) == w
  {
    hide Numeral, Denotes, Signed, ReadSigned, Supported, Render;
    SignedReadsBack(i);
    NumeralDenotes(u, 10);
    NumeralDenotes(u, 16);
    NumeralDenotes(w, 16);
    Single("%d", Int(i), Signed(i));
    Single("%i", Int(i), Signed(i));
    Single("%u", Unsigned(u), Numeral(u, 10));
    Single("%x", Unsigned(u), Numeral(u, 16));
    Single("%llx", Wide(w), Numeral(w, 16));
  }

  lemma Single(fmt: string, arg: Arg, text: string)
    requires fmt != "" && Front(fmt, [arg]) == Some(Piece(text, |fmt|, 1))
    ensures Supported(fmt, [arg]) && Render(fmt, [arg]) == text
  {
    assert fmt[|fmt|..] == "" && [arg][1..] == [];
  }

  /** `%llu`, which the kernel's own messages use, prints "lu" and leaves its argument to the next directive. */
  lemma UnsignedLongLongIgnored(rest: string, args: seq<Arg>)
    requires Supported(rest, args)
    ensures Supported("%llu" + rest, args)
    ensures Render("%llu" + rest, args) == "lu" + Render(rest, args)
  {
    hide Front, Supported, Render;
    var f := "%llu" + rest;
    assert f[2..] == "lu" + rest && ("lu" + rest)[1..] == "u" + rest && ("u" + rest)[1..] == rest;
    Fronts(f, args);
    Fronts("lu" + rest, args);
    Fronts("u" + rest, args);
    RenderFront("u" + rest, args, Piece("u", 1, 0));
    RenderFront("lu" + rest, args, Piece("l", 1, 0));
    RenderFront(f, args, Piece("", 2, 0));
  }

  lemma Fronts(fmt: string, args: seq<Arg>)
    requires fmt != ""
    ensures fmt[0] != '%' ==> Front(fmt, args) == Some(Piece([fmt[0]], 1, 0))
    ensures |fmt| >= 4 && fmt[..3] == "%ll" && fmt[3] != 'x' ==> Front(fmt, args) == Some(Piece("", 2, 0))
  {
    if |fmt| >= 4 && fmt[..3] == "%ll" {
      assert fmt[0] == fmt[..3][0] && fmt[1] == fmt[..3][1];
    }
  }

  lemma RenderFront(fmt: string, args: seq<Arg>, p: Piece)
    requires fmt != "" && Front(fmt, args) == Some(p) && p.taken == 0
    requires Supported(fmt[p.skip..], args)
    ensures Supported(fmt, args) && Render(fmt, args) == p.text + Render(fmt[p.skip..], args)
  {
    assert args[0..] == args;
  }

  /** A directive that renders its argument as `text` does so in front of any further format and arguments. */
  lemma Composes(d: string, arg: Arg, text: string, rest: string, args: seq<Arg>)
    requires d != "" && Front(d + rest, [arg] + args) == Some(Piece(text, |d|, 1)) && Supported(rest, args)
    ensures Supported(d + rest, [arg] + args)
    ensures Render(d + rest, [arg] + args) == text + Render(rest, args)
  {
    hide Front;
    assert (d + rest)[|d|..] == rest && ([arg] + args)[1..] == args;
  }

  /** `%s` renders its string as it stands and a null pointer as "(null)", whatever follows. */
  lemma StringsRender(t: string, rest: string, args: seq<Arg>)
    requires Supported(rest, args)
    ensures Supported("%s" + rest, [Text(Some(t))] + args) && Supported("%s" + rest, [Text(None)] + args)
    ensures Render("%s" + rest, [Text(Some(t))] + args) == t + Render(rest, args)
    ensures Render("%s" + rest, [Text(None)] + args) == "(null)" + Render(rest, args)
  {
    hide Supported, Render;
    Composes("%s", Text(Some(t)), t, rest, args);
    Composes("%s", Text(None), "(null)", rest, args);
  }

  /** `%c` renders one character: the argument cut to a byte. */
  lemma CharactersRender(i: int, rest: string, args: seq<Arg>) returns (c: char)
    requires Supported(rest, args)
    ensures c as int < 256 && exists k: int :: i == 256 * k + c as int
    ensures Supported("%c" + rest, [Int(i)] + args)
    ensures Render("%c" + rest, [Int(i)] + args) == [c] + Render(rest, args)
  {
    hide Supported, Render;
    c := (i % 256) as char;
    assert i == 256 * (i / 256) + c as int;
    Composes("%c", Int(i), [c], rest, args);
  }

  /** The number directives render sign and digits, and what follows is rendered as if it stood alone. */
  lemma NumbersRender(i: int, u: nat, w: Unsigned64, rest: string, args: seq<Arg>)
    requires -0x8000_0000 < i < 0x8000_0000 && u < 0x1_0000_0000 && Supported(rest, args)
    ensures Supported("%d" + rest, [Int(i)] + args) && Supported("%i" + rest, [Int(i)] + args)
    ensures Supported("%u" + rest, [Unsigned(u)] + args) && Supported("%x" + rest, [Unsigned(u)] + args)
    ensures Supported("%llx" + rest, [Wide(w)] + args)
    ensures Render("%d" + rest, [Int(i)] + args) == Signed(i) + Render(rest, args)
    ensures Render("%i" + rest, [Int(i)] + args) == Signed(i) + Render(rest, args)
    ensures Render("%u" + rest, [Unsigned(u)] + args) == Numeral(u, 10) + Render(rest, args)
    ensures Render("%x" + rest, [Unsigned(u)] + args) == Numeral(u, 16) + Render(rest, args)
    ensures Render("%llx" + rest, [Wide(w)] + args) == Numeral(w, 16) + Render(rest, args)
  {
    hide Supported, Render, Numeral, Signed;
    Composes("%d", Int(i), Signed(i), rest, args);
    Composes("%i", Int(i), Signed(i), rest, args);
    Composes("%u", Unsigned(u), Numeral(u, 10), rest, args);
    Composes("%x", Unsigned(u), Numeral(u, 16), rest, args);
    Composes("%llx", Wide(w), Numeral(w, 16), rest, args);
  }

  /** Text without directives in front of any format is rendered as it stands, and `%%` as one percent sign. */
  lemma {:induction false} TextRenders(text: string, rest: string, args: seq<Arg>)
    requires '%' !in text && Supported(rest, args)
    ensures Supported(text + rest, args) && Supported("%%" + rest, args)
    ensures Render(text + rest, args) == text + Render(rest, args)
    ensures Render("%%" + rest, args) == "%" + Render(rest, args)
  {
    hide Supported, Render;
    if text == "" {
      assert text + rest == rest;
    } else {
      TextRenders(text[1..], rest, args);
      assert (text + rest)[1..] == text[1..] + rest;
      RenderFront(text + rest, args, Piece([text[0]], 1, 0));
    }
    assert ("%%" + rest)[2..] == rest;
    RenderFront("%%" + rest, args, Piece("%", 2, 0));
  }

  /** Text without directives is rendered as it stands, and `%%` as one percent sign. */
  lemma PlainText(text: string, args: seq<Arg>)
    requires '%' !in text
    ensures Supported(text, args) && Render(text, args) == text
    ensures Supported("%%" + text, args) && Render("%%" + text, args) == "%" + text
  {
    assert text + "" == text;
    TextRenders(text, "", args);
    TextRenders("", text, args);
  }

  /** `text` was copied to `ptr` onwards as far as `end` allows; `q` is the new pointer. */
  ghost predicate Wrote(before: string, after: string, ptr: nat, end: nat, text: string, q: nat) {
    && ptr <= end <= |before| && q == Min(ptr + |text|, end)
    && after == Copied(before, text, ptr, q - ptr)
  }

  lemma WroteOne(before: string, ptr: nat, end: nat, c: char)
    requires ptr < end <= |before|
    ensures Wrote(before, before[ptr := c], ptr, end, [c], ptr + 1)
  {
  }

  lemma WroteTwice(s0: string, s1: string, s2: string, ptr: nat, end: nat, t: string, u: string, q: nat, r: nat)
    requires Wrote(s0, s1, ptr, end, t, q) && Wrote(s1, s2, q, end, u, r)
    ensures Wrote(s0, s2, ptr, end, t + u, r)
  {
    assert s1[..q] == s0[..ptr] + t[..q - ptr];
    assert s1[r..] == s0[r..];
    assert (t + u)[..r - ptr] == t[..q - ptr] + u[..r - q];
  }

  /** The digit loops of the formatter, which always make at least one digit. */
  method Convert(value: nat, b: nat) returns (text: string)
    requires 2 <= b <= 16 && |Numeral(value, b)| <= 19
    ensures text == Numeral(value, b)
  {
    hide Numeral, Digit, Peeling;
    var numBuf := new char[20];
    var pos: nat, left: nat := 19, value;
    numBuf[pos] := '\0';
    PeelStart(value, b);
    assert numBuf[pos..19] == "";
    var more := true;
    while more
      invariant pos <= 19 && numBuf[19] == '\0'
      invariant Peeling(value, left, b, numBuf[pos..19])
      invariant more <==> left > 0 || pos == 19
      decreases left, more
    {
      ghost var done, digit := numBuf[pos..19], left % b;
      PeelRoom(value, left, b, done);
      PeelStep(value, left, b, done);
      Quotient(left, b);
      ValueOfDigit(digit);
      pos := pos - 1;
      numBuf[pos] := HEX_DIGITS[left % b];
      left := left / b;
      assert numBuf[pos..19] == [Digit(digit)] + done;
      more := left > 0;
    }
    NumeralDenotes(value, b);
    PeelDone(value, b, numBuf[pos..19]);
    BufferText(numBuf[..], pos, Numeral(value, b), b);
    text := CString(numBuf[pos..]);
  }

  lemma PeelRoom(v: nat, left: nat, b: nat, done: string)
    requires 2 <= b <= 16 && Peeling(v, left, b, done) && (left > 0 || done == "")
    ensures |done| < |Numeral(v, b)|
  {
  }

  lemma PeelDone(v: nat, b: nat, done: string)
    requires 2 <= b <= 16 && Peeling(v, 0, b, done) && done != ""
    ensures done == Numeral(v, b)
  {
  }

  /** The copying loops of the formatter: they stop at the end of the text or of the buffer. */
  method Emit(buf: array<char>, start: nat, end: nat, text: string) returns (ptr: nat)
    requires start <= end < buf.Length
    modifies buf
    ensures Wrote(old(buf[..]), buf[..], start, end, text, ptr)
  {
    hide Copied;
    ghost var before := buf[..];
    ptr := start;
    var k := 0;
    CopiedNone(before, text, start);
    while k < |text| && ptr < end
      invariant start <= ptr <= end && k == ptr - start <= |text|
      invariant buf[..] == Copied(before, text, start, k)
    {
      CopiedMore(before, text, start, k);
      buf[ptr] := text[k];
      ptr := ptr + 1;
      k := k + 1;
    }
  }

  /** The first `k` characters of `text` written over `before` from `start`. */
  ghost function Copied(before: string, text: string, start: nat, k: nat): (after: string)
    requires k <= |text| && start + k <= |before|
  {
    before[..start] + text[..k] + before[start + k..]
  }

  lemma CopiedNone(before: string, text: string, start: nat)
    requires start <= |before|
    ensures Copied(before, text, start, 0) == before
  {
  }

  lemma CopiedMore(before: string, text: string, start: nat, k: nat)
    requires k < |text| && start + k < |before|
    ensures |Copied(before, text, start, k)| == |before|
    ensures Copied(before, text, start, k)[start + k := text[k]] == Copied(before, text, start, k + 1)
  {
    assert text[..k + 1] == text[..k] + [text[k]];
  }

  /** `%d` and `%i`. */
  method EmitSigned(buf: array<char>, start: nat, end: nat, v: int) returns (ptr: nat)
    requires start < end < buf.Length && -0x8000_0000 < v < 0x8000_0000
    modifies buf
    ensures Wrote(old(buf[..]), buf[..], start, end, Signed(v), ptr)
  {
    hide Wrote, Numeral, Power;
    var val := v;
    ptr := start;
    if val < 0 {
      WroteOne(buf[..], start, end, '-');
      buf[ptr] := '-';
      ptr := ptr + 1;
      val := -val;
    }
    PowersOfTen();
    NumeralLength(val, 10, 10);
    var text := Convert(val, 10);
    ghost var middle, from := buf[..], ptr;
    ptr := Emit(buf, ptr, end, text);
    if v < 0 {
      WroteTwice(old(buf[..]), middle, buf[..], start, end, "-", text, from, ptr);
    }
  }

  /** One directive of the format, at `fmt[i] == '%'`. */
  method Directive(buf: array<char>, start: nat, end: nat, fmt: string, i: nat, args: seq<Arg>, a: nat)
    returns (ptr: nat, i': nat, a': nat)
    requires start < end < buf.Length && i < |fmt| && fmt[i] == '%' && a <= |args|
    requires Front(fmt[i..], args[a..]).Some?
    modifies buf
    ensures var p := Front(fmt[i..], args[a..]).value;
            Wrote(old(buf[..]), buf[..], start, end, p.text, ptr) && i' == i + p.skip && a' == a + p.taken
  {
    hide Wrote, Numeral, Power, Signed;
    ghost var p := Front(fmt[i..], args[a..]).value;
    i', a' := i + 1, a;
    if fmt[i'] == 'd' || fmt[i'] == 'i' {
      a' := a + 1;
      ptr := EmitSigned(buf, start, end, args[a].i);
    } else if fmt[i'] == 'u' {
      a' := a + 1;
      PowersOfTen();
      NumeralLength(args[a].u, 10, 10);
      var text := Convert(args[a].u, 10);
      ptr := Emit(buf, start, end, text);
    } else if fmt[i'] == 'x' {
      a' := a + 1;
      PowersOfSixteen();
      NumeralLength(args[a].u, 16, 8);
      var text := Convert(args[a].u, 16);
      ptr := Emit(buf, start, end, text);
    } else if fmt[i'] == 'c' {
      a' := a + 1;
      WroteOne(buf[..], start, end, (args[a].i % 256) as char);
      buf[start] := (args[a].i % 256) as char;
      ptr := start + 1;
    } else if fmt[i'] == 's' {
      a' := a + 1;
      var str := if args[a].t.None? then "(null)" else args[a].t.value;
      ptr := Emit(buf, start, end, str);
    } else if fmt[i'] == '%' {
      WroteOne(buf[..], start, end, '%');
      buf[start] := '%';
      ptr := start + 1;
    } else {
      assert fmt[i'] == 'l';
      if i' + 2 < |fmt| && fmt[i' + 1] == 'l' && fmt[i' + 2] == 'x' {
        i' := i' + 2;
        a' := a + 1;
        PowersOfSixteen();
        NumeralLength(args[a].w, 16, 16);
        var text := Convert(args[a].w, 16);
        ptr := Emit(buf, start, end, text);
      } else {
        ptr := start;
        WroteNothing(buf[..], start, end);
      }
    }
    i' := i' + 1;
  }

  lemma WroteNothing(before: string, ptr: nat, end: nat)
    requires ptr <= end <= |before|
    ensures Wrote(before, before, ptr, end, "", ptr)
  {
  }

  /** What the formatter's loop keeps: nothing is lost until the buffer is full. */
  ghost predicate Printed(orig: string, buf: string, ptr: nat, end: nat, full: string, rest: string) {
    && ptr <= end < |buf| == |orig| && buf[ptr..] == orig[ptr..]
    && ptr <= |full| && buf[..ptr] == full[..ptr]
    && (ptr < end ==> full == buf[..ptr] + rest)
  }

  lemma PrintedStep(orig: string, buf: string, buf': string, ptr: nat, end: nat, full: string, text: string,
      rest: string, q: nat)
    requires Printed(orig, buf, ptr, end, full, text + rest) && ptr < end
    requires Wrote(buf, buf', ptr, end, text, q)
    ensures Printed(orig, buf', q, end, full, rest)
  {
    assert buf'[..q] == buf[..ptr] + text[..q - ptr];
    assert buf'[q..] == buf[q..] == buf[ptr..][q - ptr..] == orig[ptr..][q - ptr..] == orig[q..];
    assert full[..q] == buf[..ptr] + (text + rest)[..q - ptr];
    assert (text + rest)[..q - ptr] == text[..q - ptr];
    if q < end {
      assert full == (buf[..ptr] + text) + rest;
    }
  }

  /**
   * The bounded formatter writes the longest prefix of the full text that fits, a NUL after it, and nothing
   * else. It returns the number of characters written; section 7.21.6.12 of C11 asks for the length of the
   * full text, which is the same number exactly when the text fits.
   */
  method Vsnprintf(buf: array<char>, size: nat, fmt: string, args: seq<Arg>) returns (r: nat)
    requires size <= buf.Length && Supported(fmt, args)
    modifies buf
    ensures size == 0 ==> r == 0 && buf[..] == old(buf[..])
    ensures size > 0 ==>
              var full := Render(fmt, args);
              && r == Min(|full|, size - 1) && buf[..r] == full[..r]
              && buf[r] == '\0' && buf[r + 1..] == old(buf[r + 1..])
              && (r == |full| <==> |full| < size)
  {
    hide Front, Supported, Render, Printed, Wrote;
    if size == 0 { return 0; }
    ghost var full := Render(fmt, args);
    var end: nat, i: nat, a: nat := size - 1, 0, 0;
    var ptr: nat := 0;
    assert fmt[0..] == fmt && args[0..] == args;
    PrintedStart(buf[..], end, full);
    while i < |fmt| && ptr < end
      invariant ptr <= end && i <= |fmt| && a <= |args|
      invariant Supported(fmt[i..], args[a..])
      invariant Printed(old(buf[..]), buf[..], ptr, end, full, Render(fmt[i..], args[a..]))
      decreases |fmt| - i
    {
      RenderStep(fmt, args, i, a);
      ghost var p, before, from := Front(fmt[i..], args[a..]).value, buf[..], ptr;
      ghost var rest := Render(fmt[i + p.skip..], args[a + p.taken..]);
      if fmt[i] == '%' {
        ptr, i, a := Directive(buf, ptr, end, fmt, i, args, a);
      } else {
        WroteOne(buf[..], ptr, end, fmt[i]);
        buf[ptr] := fmt[i];
        ptr := ptr + 1;
        i := i + 1;
      }
      PrintedStep(old(buf[..]), before, buf[..], from, end, full, p.text, rest, ptr);
    }
    if i == |fmt| { RenderDone(fmt[i..], args[a..]); }
    PrintedEnd(old(buf[..]), buf[..], ptr, end, full, Render(fmt[i..], args[a..]), i < |fmt|);
    ghost var before := buf[..];
    buf[ptr] := '\0';
    r := ptr;
    assert buf[..r] == before[..r] && buf[r + 1..] == before[r + 1..];
  }

  lemma PrintedStart(buf: string, end: nat, full: string)
    requires end < |buf|
    ensures Printed(buf, buf, 0, end, full, full)
  {
    assert buf[..0] + full == full;
  }

  lemma RenderDone(fmt: string, args: seq<Arg>)
    requires fmt == ""
    ensures Supported(fmt, args) && Render(fmt, args) == ""
  {
  }

  lemma RenderStep(fmt: string, args: seq<Arg>, i: nat, a: nat)
    requires i < |fmt| && a <= |args| && Supported(fmt[i..], args[a..])
    ensures Front(fmt[i..], args[a..]).Some?
    ensures var p := Front(fmt[i..], args[a..]).value;
            && 0 < p.skip && i + p.skip <= |fmt| && a + p.taken <= |args|
            && (fmt[i] != '%' ==> p == Piece([fmt[i]], 1, 0))
            && Supported(fmt[i + p.skip..], args[a + p.taken..])
            && Render(fmt[i..], args[a..]) == p.text + Render(fmt[i + p.skip..], args[a + p.taken..])
  {
    var p := Front(fmt[i..], args[a..]).value;
    assert fmt[i..][p.skip..] == fmt[i + p.skip..];
    assert args[a..][p.taken..] == args[a + p.taken..];
  }

  lemma PrintedEnd(orig: string, buf: string, ptr: nat, end: nat, full: string, rest: string, more: bool)
    requires Printed(orig, buf, ptr, end, full, rest) && (more ==> ptr == end) && (!more ==> rest == "")
    ensures ptr <= |full| && ptr == Min(|full|, end)
    ensures buf[..ptr] == full[..ptr] && buf[ptr + 1..] == orig[ptr + 1..]
  {
    assert buf[ptr + 1..] == buf[ptr..][1..] && orig[ptr + 1..] == orig[ptr..][1..];
  }
}
