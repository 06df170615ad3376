/**
 * The pieces of Python's str, int and bytes behaviour that the gateway daemon
 * relies on: slicing with clamped and negative indices, int(s, 16),
 * '{:02x}'.format, hex(), str(), str.upper(), str.split and int.from_bytes.
 */
module PyText {
  import opened Wrappers

  /** Exceptions the gateway code can raise; each one ends the current request or line. */
  datatype PyError =
    | ValueError      // int() on a malformed literal, tuple unpacking, explicit raise
    | StructError     // struct.pack with a value outside the field's range
    | KeyError        // dict lookup of a missing key
    | IndexError      // str indexing past the end
    | AttributeError  // lookup of a method that does not exist
    | NameError       // use of a local variable that was never bound
    | OverflowError   // int() of an infinite float

  /** An element of a Python bytes object. */
  type Byte = b: int | 0 <= b < 256

  // ---------------------------------------------------------------- slicing

  function Clamp(x: int, n: nat): (r: nat)
    ensures r <= n
  {
    if x < 0 then 0 else if x > n then n else x
  }

  /** s[i:j] with Python's rules: negative indices count from the end, out-of-range ones are clamped. */
  function Slice<T>(s: seq<T>, i: int, j: int): (r: seq<T>)
    ensures |r| <= |s|
  {
    var lo := Clamp(if i < 0 then |s| + i else i, |s|);
    var hi := Clamp(if j < 0 then |s| + j else j, |s|);
    if lo < hi then s[lo..hi] else []
  }

  /** s[i:] */
  function From<T>(s: seq<T>, i: int): seq<T>
  {
    Slice(s, i, |s|)
  }

  lemma SliceInside<T>(s: seq<T>, i: nat, j: nat)
    requires i <= j <= |s|
    ensures Slice(s, i, j) == s[i..j]
  {
  }

  // ---------------------------------------------------------------- hex digits

  predicate IsHexDigit(c: char) {
    ('0' <= c <= '9') || ('a' <= c <= 'f') || ('A' <= c <= 'F')
  }

  /** Value of a hex digit; 0 for any other character. */
  function DigitValue(c: char): (v: nat)
    ensures v < 16
  {
    if '0' <= c <= '9' then (c as int) - ('0' as int)
    else if 'a' <= c <= 'f' then (c as int) - ('a' as int) + 10
    else if 'A' <= c <= 'F' then (c as int) - ('A' as int) + 10
    else 0
  }

  function LowerDigit(d: nat): (c: char)
    requires d < 16
    ensures IsHexDigit(c) && DigitValue(c) == d && !('A' <= c <= 'Z')
  {
    if d < 10 then (('0' as int) + d) as char else (('a' as int) + d - 10) as char
  }

  function UpperDigit(d: nat): (c: char)
    requires d < 16
    ensures IsHexDigit(c) && DigitValue(c) == d && !('a' <= c <= 'z')
  {
    if d < 10 then (('0' as int) + d) as char else (('A' as int) + d - 10) as char
  }

  /** Big-endian value of a string of hex digits. */
  function HexValue(s: string): nat
  {
    if |s| == 0 then 0 else HexValue(s[..|s| - 1]) * 16 + DigitValue(s[|s| - 1])
  }

  /** The lower-case hex digits of n, without leading zeros ("0" for zero). */
  function LowerHex(n: nat): (s: string)
    ensures |s| >= 1 && (forall i :: 0 <= i < |s| ==> IsHexDigit(s[i]))
    ensures HexValue(s) == n
    ensures |s| == 1 <==> n < 16
  {
    if n < 16 then [LowerDigit(n)]
    else
      var s := LowerHex(n / 16) + [LowerDigit(n % 16)];
      assert s[..|s| - 1] == LowerHex(n / 16);
      s
  }

  /** '{:02x}'.format(n): at least two lower-case hex digits, a minus sign for negative n. */
  function Format02x(n: int): (s: string)
    ensures |s| >= 2
    ensures 0 <= n < 256 ==> |s| == 2
  {
    if n < 0 then "-" + LowerHex(-n)
    else if n < 16 then "0" + LowerHex(n)
    else LowerHex(n)
  }

  lemma Format02xByte(n: int)
    requires 0 <= n < 256
    ensures Format02x(n) == [LowerDigit(n / 16), LowerDigit(n % 16)]
  {
    if n >= 16 {
      assert LowerHex(n / 16) == [LowerDigit(n / 16)];
    }
  }

  /** hex(n): "0x" followed by the lower-case digits, after a minus sign for negative n. */
  function PyHex(n: int): string
  {
    (if n < 0 then "-" else "") + "0x" + LowerHex(if n < 0 then -n else n)
  }

  /** hex(n).split('x'): the sign and the "0" before the x, the digits after it. */
  lemma PyHexSplit(n: int)
    ensures Split(PyHex(n), 'x') == [(if n < 0 then "-" else "") + "0", LowerHex(if n < 0 then -n else n)]
  {
    var pre := (if n < 0 then "-" else "") + "0";
    var digits := LowerHex(if n < 0 then -n else n);
    assert PyHex(n) == pre + ['x'] + digits;
    assert forall i :: 0 <= i < |digits| ==> IsHexDigit(digits[i]);
    SplitAfter(pre, 'x', digits);
    SplitNone(digits, 'x');
  }

  // ---------------------------------------------------------------- upper case

  function UpperChar(c: char): char
  {
    if 'a' <= c <= 'z' then ((c as int) - 32) as char else c
  }

  /** str.upper() over ASCII letters. */
  function Upper(s: string): (r: string)
    ensures |r| == |s|
    ensures forall i :: 0 <= i < |s| ==> r[i] == UpperChar(s[i])
  {
    if |s| == 0 then "" else [UpperChar(s[0])] + Upper(s[1..])
  }

  lemma UpperAppend(a: string, b: string)
    ensures Upper(a + b) == Upper(a) + Upper(b)
  {
  }

  /** Upper-casing hex digits keeps their value. */
  lemma {:induction false} HexValueUpper(s: string)
    requires forall i :: 0 <= i < |s| ==> IsHexDigit(s[i])
    ensures HexValue(Upper(s)) == HexValue(s)
  {
    if |s| > 0 {
      var n := |s| - 1;
      var init := s[..n];
      HexValueUpper(init);
      var u := Upper(s);
      assert u[..n] == Upper(init) by {
        forall i | 0 <= i < n
          ensures u[..n][i] == Upper(init)[i]
        {
          assert init[i] == s[i];
        }
      }
      DigitValueUpper(s[n]);
      assert HexValue(u) == HexValue(u[..n]) * 16 + DigitValue(u[n]);
    }
  }

  /** Upper-casing a hex digit keeps its value. */
  lemma DigitValueUpper(c: char)
    requires IsHexDigit(c)
    ensures DigitValue(UpperChar(c)) == DigitValue(c)
  {
  }

  lemma UpperLowerDigit(d: nat)
    requires d < 16
    ensures UpperChar(LowerDigit(d)) == UpperDigit(d)
  {
  }

  /** The two upper-case hex digits of a byte, as build emits them. */
  function Hex2(n: Byte): (s: string)
    ensures |s| == 2
  {
    [UpperDigit(n / 16), UpperDigit(n % 16)]
  }

  lemma UpperFormat02x(n: int)
    requires 0 <= n < 256
    ensures Upper(Format02x(n)) == Hex2(n)
  {
    Format02xByte(n);
    UpperLowerDigit(n / 16);
    UpperLowerDigit(n % 16);
  }

  // ---------------------------------------------------------------- int(s, 16)

  /**
   * The white space int() ignores around the literal: below U+007F only tab,
   * line feed, vertical tab, form feed, carriage return and space (int() does
   * not strip U+001C..U+001F, which str.isspace() accepts); above it, the
   * characters str.isspace() accepts, which int() first turns into spaces.
   */
  predicate IsPySpace(c: char) {
    var k := c as int;
    if k <= 0x20 then 9 <= k <= 13 || k == 0x20
    else if k < 0x85 then false
    else (k == 0x85 || k == 0xA0 || k == 0x1680 || (0x2000 <= k <= 0x200A)
          || k == 0x2028 || k == 0x2029 || k == 0x202F || k == 0x205F || k == 0x3000)
  }

  /** Where int(s, 16) is in its literal: white space, sign, optional 0x prefix, digits with single underscores, white space. */
  datatype LexState =
    | Leading                          // white space before the literal
    | Signed(neg: bool)                // after a sign
    | Zero(neg: bool)                  // after a first digit 0, which may start a 0x prefix
    | Prefixed(neg: bool)              // after 0x or 0X
    | PrefixUnderscore(neg: bool)      // after the underscore that may follow the prefix
    | Digits(neg: bool, value: nat)    // inside the digits
    | Underscore(neg: bool, value: nat) // after an underscore between digits
    | Trailing(neg: bool, value: nat)  // white space after the literal

  function Signal(neg: bool, v: nat): int {
    if neg then -(v as int) else v
  }

  /** The state after reading character c, or None where int() raises ValueError. */
  function Step(st: LexState, c: char): Option<LexState>
  {
    match st
    case Leading =>
      if IsPySpace(c) then Some(Leading)
      else if c == '+' || c == '-' then Some(Signed(c == '-'))
      else if c == '0' then Some(Zero(false))
      else if IsHexDigit(c) then Some(Digits(false, DigitValue(c)))
      else None
    case Signed(neg) =>
      if c == '0' then Some(Zero(neg))
      else if IsHexDigit(c) then Some(Digits(neg, DigitValue(c)))
      else None
    case Zero(neg) =>
      if c == 'x' || c == 'X' then Some(Prefixed(neg))
      else if IsHexDigit(c) then Some(Digits(neg, DigitValue(c)))
      else if c == '_' then Some(Underscore(neg, 0))
      else if IsPySpace(c) then Some(Trailing(neg, 0))
      else None
    case Prefixed(neg) =>
      if c == '_' then Some(PrefixUnderscore(neg))
      else if IsHexDigit(c) then Some(Digits(neg, DigitValue(c)))
      else None
    case PrefixUnderscore(neg) =>
      if IsHexDigit(c) then Some(Digits(neg, DigitValue(c))) else None
    case Digits(neg, v) =>
      if IsHexDigit(c) then Some(Digits(neg, 16 * v + DigitValue(c)))
      else if c == '_' then Some(Underscore(neg, v))
      else if IsPySpace(c) then Some(Trailing(neg, v))
      else None
    case Underscore(neg, v) =>
      if IsHexDigit(c) then Some(Digits(neg, 16 * v + DigitValue(c))) else None
    case Trailing(neg, v) =>
      if IsPySpace(c) then Some(Trailing(neg, v)) else None
  }

  /** The value once the input is exhausted, or None where the literal is incomplete. */
  function Finish(st: LexState): Option<int>
  {
    match st
    case Zero(_) => Some(0)
    case Digits(neg, v) => Some(Signal(neg, v))
    case Trailing(neg, v) => Some(Signal(neg, v))
    case _ => None
  }

  function Lex(s: string, i: nat, st: LexState): Option<int>
    requires i <= |s|
    decreases |s| - i
  {
    if i == |s| then Finish(st)
    else
      match Step(st, s[i])
      case None => None
      case Some(next) => Lex(s, i + 1, next)
  }

  /** int(s, 16), or None where Python raises ValueError. */
  function ParseHexInt(s: string): Option<int>
  {
    Lex(s, 0, Leading)
  }

  /** int(' \t5\n', 16) is 5: ASCII white space around the literal is ignored. */
  lemma ParseHexIntAsciiSpace()
    ensures ParseHexInt(" \t5\n") == Some(5)
  {
  }

  /** int('\x1c5', 16) and int('5\x1f', 16) raise ValueError: int() does not strip U+001C..U+001F. */
  lemma ParseHexIntRejectsSeparators()
    ensures ParseHexInt("\U{1c}5") == None && ParseHexInt("5\U{1f}") == None
  {
  }

  lemma ParseTwoDigits(a: char, b: char)
    requires IsHexDigit(a) && IsHexDigit(b)
    ensures ParseHexInt([a, b]) == Some(16 * DigitValue(a) + DigitValue(b))
  {
    var s := [a, b];
    var st := if a == '0' then Zero(false) else Digits(false, DigitValue(a));
    assert Step(Leading, a) == Some(st);
    assert Step(st, b) == Some(Digits(false, 16 * DigitValue(a) + DigitValue(b)));
    var v := 16 * DigitValue(a) + DigitValue(b);
    assert Lex(s, 2, Digits(false, v)) == Some(v);
    assert Lex(s, 1, st) == Some(v);
    assert Lex(s, 0, Leading) == Some(v);
  }

  lemma ParseHex2(n: Byte)
    ensures ParseHexInt(Hex2(n)) == Some(n)
  {
    ParseTwoDigits(UpperDigit(n / 16), UpperDigit(n % 16));
  }

  /** [int(x, 16) for x in xs], or None at the first literal Python rejects. */
  function ParseHexInts(xs: seq<string>): (r: Option<seq<int>>)
    ensures r.Some? ==> |r.value| == |xs|
  {
    if |xs| == 0 then Some([])
    else
      match ParseHexInt(xs[0])
      case None => None
      case Some(v) =>
        match ParseHexInts(xs[1..])
        case None => None
        case Some(rest) => Some([v] + rest)
  }

  /** The list comprehension succeeds exactly when every literal parses, and then holds their values in order. */
  lemma {:induction false} ParseHexIntsAt(xs: seq<string>)
    ensures ParseHexInts(xs).Some? <==> forall i :: 0 <= i < |xs| ==> ParseHexInt(xs[i]).Some?
    ensures ParseHexInts(xs).Some? ==> forall i :: 0 <= i < |xs| ==> ParseHexInt(xs[i]) == Some(ParseHexInts(xs).value[i])
  {
    if |xs| > 0 {
      ParseHexIntsAt(xs[1..]);
      assert forall i :: 1 <= i < |xs| ==> xs[i] == xs[1..][i - 1];
    }
  }

  // ---------------------------------------------------------------- str.split

  /** s.split(sep) for a one-character separator: every occurrence splits, empty parts are kept. */
  function Split(s: string, sep: char): (parts: seq<string>)
    ensures |parts| >= 1
  {
    if |s| == 0 then [""]
    else
      var rest := Split(s[1..], sep);
      if s[0] == sep then [""] + rest else [[s[0]] + rest[0]] + rest[1..]
  }

  /** sep.join(parts) */
  function Join(parts: seq<string>, sep: char): string
  {
    if |parts| == 0 then "" else if |parts| == 1 then parts[0] else parts[0] + [sep] + Join(parts[1..], sep)
  }

  function Occurrences(s: string, c: char): nat
  {
    if |s| == 0 then 0 else (if s[0] == c then 1 else 0) + Occurrences(s[1..], c)
  }

  /** Splitting loses nothing: joining the parts again with the separator gives the input. */
  lemma {:induction false} SplitJoin(s: string, sep: char)
    ensures Join(Split(s, sep), sep) == s
  {
    if |s| > 0 {
      SplitJoin(s[1..], sep);
      var rest := Split(s[1..], sep);
      assert s == [s[0]] + s[1..];
      if s[0] == sep {
        assert Split(s, sep) == [""] + rest;
        assert Join([""] + rest, sep) == "" + [sep] + Join(rest, sep);
      } else {
        var parts := [[s[0]] + rest[0]] + rest[1..];
        assert Split(s, sep) == parts;
        if |rest| == 1 {
          assert Join(parts, sep) == [s[0]] + rest[0];
        } else {
          assert Join(rest, sep) == rest[0] + [sep] + Join(rest[1..], sep);
          assert parts[1..] == rest[1..];
          assert Join(parts, sep) == [s[0]] + rest[0] + [sep] + Join(parts[1..], sep);
        }
      }
    }
  }

  /** No part of a split holds the separator. */
  lemma {:induction false} SplitParts(s: string, sep: char)
    ensures forall i, j :: 0 <= i < |Split(s, sep)| && 0 <= j < |Split(s, sep)[i]| ==> Split(s, sep)[i][j] != sep
  {
    if |s| > 0 {
      SplitParts(s[1..], sep);
      var rest := Split(s[1..], sep);
      if s[0] != sep {
        var parts := [[s[0]] + rest[0]] + rest[1..];
        assert Split(s, sep) == parts;
        forall i, j | 0 <= i < |parts| && 0 <= j < |parts[i]|
          ensures parts[i][j] != sep
        {
          if i == 0 {
            if j > 0 {
              assert parts[0][j] == rest[0][j - 1];
            }
          } else {
            assert parts[i] == rest[i];
          }
        }
      }
    }
  }

  /** A split has one more part than the input has separators. */
  lemma {:induction false} SplitCount(s: string, sep: char)
    ensures |Split(s, sep)| == Occurrences(s, sep) + 1
  {
    if |s| > 0 {
      SplitCount(s[1..], sep);
    }
  }


  /** A string without the separator splits into itself. */
  lemma {:induction false} SplitNone(x: string, sep: char)
    requires sep !in x
    ensures Split(x, sep) == [x]
  {
    if |x| > 0 {
      SplitNone(x[1..], sep);
      assert [x[0]] + x[1..] == x;
    }
  }

  /** A separator after a part without one ends that part. */
  lemma {:induction false} SplitAfter(x: string, sep: char, y: string)
    requires sep !in x
    ensures Split(x + [sep] + y, sep) == [x] + Split(y, sep)
  {
    if |x| == 0 {
      assert x + [sep] + y == [sep] + y;
      assert ([sep] + y)[1..] == y;
    } else {
      var s := x + [sep] + y;
      assert s[1..] == x[1..] + [sep] + y;
      SplitAfter(x[1..], sep, y);
      assert [x[0]] + x[1..] == x;
    }
  }

  /** Splitting undoes joining parts that do not contain the separator. */
  lemma {:induction false} SplitOfJoin(parts: seq<string>, sep: char)
    requires |parts| >= 1
    requires forall i :: 0 <= i < |parts| ==> sep !in parts[i]
    ensures Split(Join(parts, sep), sep) == parts
  {
    if |parts| == 1 {
      SplitNone(parts[0], sep);
    } else {
      SplitOfJoin(parts[1..], sep);
      SplitAfter(parts[0], sep, Join(parts[1..], sep));
      assert [parts[0]] + parts[1..] == parts;
    }
  }

  // ---------------------------------------------------------------- str() and int.from_bytes

  function DecimalDigits(n: nat): (s: string)
    ensures |s| >= 1 && forall i :: 0 <= i < |s| ==> '0' <= s[i] <= '9'
  {
    if n < 10 then [(('0' as int) + n) as char]
    else DecimalDigits(n / 10) + [(('0' as int) + n % 10) as char]
  }

  /** The value of a string of decimal digits, as int() and float() read it. */
  function DecimalValue(s: string): nat
  {
    if |s| == 0 then 0
    else
      var d := (s[|s| - 1] as int) - ('0' as int);
      DecimalValue(s[..|s| - 1]) * 10 + (if 0 <= d < 10 then d else 0)
  }

  /** Reading back the digits str() writes for a natural number gives the number. */
  lemma {:induction false} DecimalRoundTrip(n: nat)
    ensures DecimalValue(DecimalDigits(n)) == n
  {
    if n >= 10 {
      DecimalRoundTrip(n / 10);
      var s := DecimalDigits(n);
      assert s[..|s| - 1] == DecimalDigits(n / 10);
    }
  }

  /** str(n) and printf("%d", n) */
  function Decimal(n: int): string
  {
    if n < 0 then "-" + DecimalDigits(-n) else DecimalDigits(n)
  }

  /** int.from_bytes(b, byteorder='big') */
  function BigEndian(b: seq<Byte>): nat
  {
    if |b| == 0 then 0 else BigEndian(b[..|b| - 1]) * 256 + b[|b| - 1]
  }

  lemma BigEndianPair(hi: Byte, lo: Byte)
    ensures BigEndian([hi, lo]) == 256 * hi + lo
  {
    assert [hi, lo][..1] == [hi];
    assert [hi][..0] == [];
    assert BigEndian([hi]) == hi;
  }
}
