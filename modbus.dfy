/**
 * The gateway's subset of Modbus ASCII: building a request frame from an
 * address, a function code and a payload, and parsing a received frame with
 * its longitudinal redundancy check (LRC).
 */
module Modbus {
  import opened Wrappers
  import opened PyText

  const READ_HOLDING_REGISTER: int := 0x03
  const READ_COILS: int := 0x01
  const WRITE_HOLDING_REGISTER: int := 0x06
  const WRITE_SINGLE_COIL: int := 0x05

  // ---------------------------------------------------------------- chunks

  /** The consecutive slices s[i:i+n] for i = 0, n, 2n, ... below |s|. */
  function Pieces<T>(s: seq<T>, n: nat): seq<seq<T>>
    requires n > 0
    decreases |s|
  {
    if |s| == 0 then [] else if |s| <= n then [s] else [s[..n]] + Pieces(s[n..], n)
  }

  /** chunks(sequence, n): range() rejects a zero step and yields nothing for a negative one. */
  function Chunks<T>(s: seq<T>, n: int): (r: Result<seq<seq<T>>, PyError>)
    ensures r.Failure? <==> n == 0
    ensures r.Failure? ==> r.error == ValueError
    ensures n < 0 ==> r == Success([])
  {
    if n == 0 then Failure(ValueError)
    else if n < 0 then Success([])
    else Success(Pieces(s, n))
  }

  /** string_chunks(string, n): joining the characters of a slice gives back that slice. */
  function StringChunks(s: string, n: int): Result<seq<string>, PyError>
  {
    Chunks(s, n)
  }

  function Flatten<T>(pieces: seq<seq<T>>): seq<T>
  {
    if |pieces| == 0 then [] else pieces[0] + Flatten(pieces[1..])
  }

  /** The chunks of a positive size cover the sequence in order; each chunk is non-empty and every one but the last has exactly n elements. */
  lemma {:induction false} PiecesCover<T>(s: seq<T>, n: nat)
    requires n > 0
    ensures Flatten(Pieces(s, n)) == s
    ensures forall i :: 0 <= i < |Pieces(s, n)| ==> 0 < |Pieces(s, n)[i]| <= n
    ensures forall i :: 0 <= i < |Pieces(s, n)| - 1 ==> |Pieces(s, n)[i]| == n
    decreases |s|
  {
    if |s| == 0 {
    } else if |s| <= n {
      assert Flatten([s]) == s + Flatten([s][1..]);
    } else {
      PiecesCover(s[n..], n);
      var rest := Pieces(s[n..], n);
      assert Pieces(s, n) == [s[..n]] + rest;
      assert ([s[..n]] + rest)[1..] == rest;
      assert s[..n] + s[n..] == s;
    }
  }

  /** Chunks of size n succeed exactly when n is non-zero, and for positive n they rejoin to the input. */
  lemma ChunksRejoin<T>(s: seq<T>, n: int)
    requires n > 0
    ensures Chunks(s, n).Success? && Flatten(Chunks(s, n).value) == s
  {
    PiecesCover(s, n);
  }

  // ---------------------------------------------------------------- checksum

  function Sum(xs: seq<int>): int
  {
    if |xs| == 0 then 0 else xs[0] + Sum(xs[1..])
  }

  /**
   * ((x ^ 0xFF) + 1) & 0xFF: the two's complement of the low byte of x, that
   * is the byte that brings the running sum to zero modulo 256.
   */
  function Lrc(x: int): (r: Byte)
    ensures (x + r) % 256 == 0
  {
    var low := x % 256;
    if low == 0 then 0 else 256 - low
  }

  /** The checksum of a number written as 256 q + k with k a byte. */
  lemma LrcOf(x: int, q: int, k: int)
    requires x == 256 * q + k && 0 <= k < 256
    ensures Lrc(x) == if k == 0 then 0 else 256 - k
  {
    assert x % 256 == k;
  }

  /** The checksum byte is the only byte that zeroes the sum. */
  lemma LrcUnique(x: int, b: Byte)
    requires (x + b) % 256 == 0
    ensures b == Lrc(x)
  {
  }

  lemma Complement(b: bv8)
    ensures (b ^ 0xFF) + 1 == 0 - b
  {
  }

  lemma Negate(b: bv8)
    ensures (0 - b) as int == if b == 0 then 0 else 256 - b as int
  {
  }

  /**
   * The inversion-and-increment written in the source agrees with Lrc on the
   * low byte, the only byte the final mask keeps (the low byte of the result
   * depends on nothing but the low byte of the sum).
   */
  lemma LrcBitwise(b: bv8)
    ensures ((b ^ 0xFF) + 1) as int == Lrc(b as int)
  {
    Complement(b);
    Negate(b);
    LrcOf(b as int, 0, b as int);
  }

  /** Only the low byte of the sum matters. */
  lemma LrcLowByte(x: int)
    ensures Lrc(x) == Lrc(x % 256)
  {
    var low := x % 256;
    assert low % 256 == low;
  }

  lemma FlipByte(b: bv8)
    ensures (b ^ 0xFF) as int == 255 - b as int
  {
  }

  /**
   * Python's `x ^ 0xFF` on an int of any sign: the low eight bits of x, in
   * two's complement, are flipped and the bits above them kept.
   */
  function XorFF(x: int): (r: int)
    ensures r % 256 == 255 - x % 256
    ensures r - r % 256 == x - x % 256
  {
    x - x % 256 + (255 - x % 256)
  }

  /** The low byte of XorFF is the bitwise complement of x's low byte. */
  lemma XorFFLowByte(x: int)
    ensures XorFF(x) % 256 == (((x % 256) as bv8) ^ 0xFF) as int
  {
    var b := (x % 256) as bv8;
    FlipByte(b);
    assert b as int == x % 256;
  }

  /**
   * The checksum line as written, `((lrc ^ 0xFF) + 1) & 0xff`, on the sum
   * as a Python int, whatever its size or sign, is Lrc of the sum.
   */
  lemma LrcPython(x: int)
    ensures (XorFF(x) + 1) % 256 == Lrc(x)
  {
    var k := x % 256;
    var q := x / 256;
    assert XorFF(x) + 1 == 256 * (q + 1) - k;
    if k == 0 {
      assert (XorFF(x) + 1) % 256 == 0;
    } else {
      assert XorFF(x) + 1 == 256 * q + (256 - k);
    }
    LrcOf(x, q, k);
  }

  // ---------------------------------------------------------------- build

  /** ''.join('{:02x}'.format(byte) for byte in byte_list) */
  function Encode(p: seq<Byte>): (s: string)
    ensures |s| == 2 * |p|
  {
    if |p| == 0 then "" else Format02x(p[0]) + Encode(p[1..])
  }

  /** build(address, command, byte_list) */
  function Build(address: int, command: int, payload: seq<Byte>): (m: string)
    ensures |m| >= 2 * |payload| + 9
    ensures 0 <= address < 256 && 0 <= command < 256 ==> |m| == 2 * |payload| + 9
  {
    Upper(":" + Format02x(address) + Format02x(command) + Encode(payload)
          + Format02x(Lrc(address + command + Sum(payload)))) + "\r\n"
  }

  /** The upper-case hex pairs of the bytes of p. */
  function HexBytes(p: seq<Byte>): (s: string)
    ensures |s| == 2 * |p|
  {
    if |p| == 0 then "" else Hex2(p[0]) + HexBytes(p[1..])
  }

  lemma {:induction false} UpperEncode(p: seq<Byte>)
    ensures Upper(Encode(p)) == HexBytes(p)
  {
    if |p| > 0 {
      UpperEncode(p[1..]);
      UpperAppend(Format02x(p[0]), Encode(p[1..]));
      UpperFormat02x(p[0]);
    }
  }

  /** A colon followed by the hex pairs of an address, a command, a payload and a checksum byte. */
  function Layout(a: Byte, c: Byte, p: seq<Byte>, l: Byte): string
  {
    ":" + Hex2(a) + Hex2(c) + HexBytes(p) + Hex2(l)
  }

  /** The frame build writes for a one-byte address and command, before its CR LF. */
  function Body(a: Byte, c: Byte, p: seq<Byte>): string
  {
    Layout(a, c, p, Lrc(a + c + Sum(p)))
  }

  /** A frame with one-byte address and command is the colon, then hex pairs, then CR LF. */
  lemma BuildLayout(a: Byte, c: Byte, p: seq<Byte>)
    ensures Build(a, c, p) == Body(a, c, p) + "\r\n"
  {
    var l := Lrc(a + c + Sum(p));
    UpperAppend(":" + Format02x(a) + Format02x(c) + Encode(p), Format02x(l));
    UpperAppend(":" + Format02x(a) + Format02x(c), Encode(p));
    UpperAppend(":" + Format02x(a), Format02x(c));
    UpperAppend(":", Format02x(a));
    UpperFormat02x(a);
    UpperFormat02x(c);
    UpperFormat02x(l);
    UpperEncode(p);
  }

  /** The two characters of pair i of the encoded payload. */
  lemma {:induction false} HexBytesAt(p: seq<Byte>, i: nat)
    requires i < |p|
    ensures HexBytes(p)[2 * i] == UpperDigit(p[i] / 16)
    ensures HexBytes(p)[2 * i + 1] == UpperDigit(p[i] % 16)
  {
    assert HexBytes(p) == Hex2(p[0]) + HexBytes(p[1..]);
    if i > 0 {
      HexBytesAt(p[1..], i - 1);
    }
  }

  predicate IsUpperHex(c: char) {
    ('0' <= c <= '9') || ('A' <= c <= 'F')
  }

  lemma {:induction false} HexBytesUpper(p: seq<Byte>)
    ensures forall k :: 0 <= k < |HexBytes(p)| ==> IsUpperHex(HexBytes(p)[k])
  {
    if |p| > 0 {
      HexBytesUpper(p[1..]);
    }
  }

  /** Where the pieces of a colon, two pairs, a middle part and a final pair sit. */
  lemma Segments(m: string, x: string, y: string, mid: string, z: string)
    requires |x| == 2 && |y| == 2 && |z| == 2
    requires m == ":" + x + y + mid + z
    ensures |m| == |mid| + 7 && m[0] == ':'
    ensures m[1..3] == x && m[3..5] == y && m[5..5 + |mid|] == mid && m[|m| - 2..] == z
  {
  }

  /** Where a character of the middle part of x + mid + z sits. */
  lemma MidAt(m: string, x: string, mid: string, z: string, k: nat)
    requires m == x + mid + z && k < |mid|
    ensures m[|x| + k] == mid[k]
  {
  }

  /** Pair i of the payload in a laid-out frame is the pair for byte i. */
  lemma PayloadPair(m: string, a: Byte, c: Byte, p: seq<Byte>, l: Byte, i: nat)
    requires m == Layout(a, c, p, l) && i < |p|
    ensures m[5 + 2 * i..7 + 2 * i] == Hex2(p[i])
  {
    var x := ":" + Hex2(a) + Hex2(c);
    HexBytesAt(p, i);
    MidAt(m, x, HexBytes(p), Hex2(l), 2 * i);
    MidAt(m, x, HexBytes(p), Hex2(l), 2 * i + 1);
  }

  lemma UpperInside(m: string, hb: string)
    requires |m| == |hb| + 7 && m[5..5 + |hb|] == hb
    requires IsUpperHex(m[1]) && IsUpperHex(m[2]) && IsUpperHex(m[3]) && IsUpperHex(m[4])
    requires IsUpperHex(m[|m| - 2]) && IsUpperHex(m[|m| - 1])
    requires forall k :: 0 <= k < |hb| ==> IsUpperHex(hb[k])
    ensures forall k :: 1 <= k < |m| ==> IsUpperHex(m[k])
  {
    forall k | 1 <= k < |m|
      ensures IsUpperHex(m[k])
    {
      if 5 <= k < 5 + |hb| {
        assert m[k] == hb[k - 5];
      }
    }
  }

  /** The field-by-field reading of a frame laid out as build lays it out. */
  lemma FieldsOfLayout(m: string, a: Byte, c: Byte, p: seq<Byte>, l: Byte)
    requires m == Layout(a, c, p, l)
    ensures |m| == 2 * |p| + 7 && m[0] == ':'
    ensures forall k :: 1 <= k < |m| ==> IsUpperHex(m[k])
    ensures ParseHexInt(m[1..3]) == Some(a)
    ensures ParseHexInt(m[3..5]) == Some(c)
    ensures forall i :: 0 <= i < |p| ==> ParseHexInt(m[5 + 2 * i..7 + 2 * i]) == Some(p[i])
    ensures ParseHexInt(m[|m| - 2..]) == Some(l)
  {
    Segments(m, Hex2(a), Hex2(c), HexBytes(p), Hex2(l));
    HexBytesUpper(p);
    UpperInside(m, HexBytes(p));
    ParseHex2(a);
    ParseHex2(c);
    ParseHex2(l);
    forall i | 0 <= i < |p|
      ensures ParseHexInt(m[5 + 2 * i..7 + 2 * i]) == Some(p[i])
    {
      PayloadPair(m, a, c, p, l, i);
      ParseHex2(p[i]);
    }
  }

  lemma PrefixOfAppend(x: string, y: string)
    ensures (x + y)[..|x|] == x && (x + y)[|x|..] == y
  {
  }

  /** The payload of the module's test frame, the bytes of "abcdefghijk". */
  const TEST_PAYLOAD: seq<Byte> := [0x61, 0x62, 0x63, 0x64, 0x65, 0x66, 0x67, 0x68, 0x69, 0x6A, 0x6B]

  /** The checksum of the module's test frame for address 0xA0 and command 0x03 is 0xFB, the last pair of that frame. */
  lemma TestFrameLrc()
    ensures Lrc(0xA0 + 0x03 + Sum(TEST_PAYLOAD)) == 0xFB
  {
    TestPayloadSum();
    LrcOf(0xA0 + 0x03 + 1122, 5, 5);
  }

  /** The frame the module's test expects build(0xA0, 0x03, b'abcdefghijk') to write, before its CR LF. */
  const TEST_MESSAGE: string := ":A0036162636465666768696A6BFB"

  /** build(0xA0, 0x03, b'abcdefghijk') is the test frame followed by CR LF. */
  lemma TestFrameBuild()
    ensures Build(0xA0, 0x03, TEST_PAYLOAD) == TEST_MESSAGE + "\r\n"
  {
    TestFrameLrc();
    BuildLayout(0xA0, 0x03, TEST_PAYLOAD);
    TestPayloadHex();
    TestFieldPairs();
    TestMessagePieces();
  }

  lemma TestFieldPairs()
    ensures Hex2(0xA0) == "A0" && Hex2(0x03) == "03" && Hex2(0xFB) == "FB"
  {
  }

  lemma TestMessagePieces()
    ensures ":" + "A0" + "03" + "6162636465666768696A6B" + "FB" == TEST_MESSAGE
  {
  }

  /** The hex pairs of the test payload. */
  lemma TestPayloadHex()
    ensures HexBytes(TEST_PAYLOAD) == "6162636465666768696A6B"
  {
    HexBytesEleven(TEST_PAYLOAD);
    TestPairs();
    TestPayloadPieces();
  }

  /** The hex pairs of eleven bytes, pair by pair. */
  lemma HexBytesEleven(p: seq<Byte>)
    requires |p| == 11
    ensures HexBytes(p) == Hex2(p[0]) + (Hex2(p[1]) + (Hex2(p[2]) + (Hex2(p[3]) + (Hex2(p[4]) + (Hex2(p[5]) + (Hex2(p[6]) + (Hex2(p[7]) + (Hex2(p[8]) + (Hex2(p[9]) + (Hex2(p[10]) + ""))))))))))
  {
    HexStep(p, 10, "");
    var t10 := Hex2(p[10]) + "";
    HexStep(p, 9, t10);
    var t9 := Hex2(p[9]) + t10;
    HexStep(p, 8, t9);
    var t8 := Hex2(p[8]) + t9;
    HexStep(p, 7, t8);
    var t7 := Hex2(p[7]) + t8;
    HexStep(p, 6, t7);
    var t6 := Hex2(p[6]) + t7;
    HexStep(p, 5, t6);
    var t5 := Hex2(p[5]) + t6;
    HexStep(p, 4, t5);
    var t4 := Hex2(p[4]) + t5;
    HexStep(p, 3, t4);
    var t3 := Hex2(p[3]) + t4;
    HexStep(p, 2, t3);
    var t2 := Hex2(p[2]) + t3;
    HexStep(p, 1, t2);
    var t1 := Hex2(p[1]) + t2;
    HexStep(p, 0, t1);
    var t0 := Hex2(p[0]) + t1;
    assert p[0..] == p;
  }

  lemma TestPairs()
    ensures Hex2(0x61) == "61" && Hex2(0x62) == "62" && Hex2(0x63) == "63" && Hex2(0x64) == "64" && Hex2(0x65) == "65" && Hex2(0x66) == "66"
    ensures Hex2(0x67) == "67" && Hex2(0x68) == "68" && Hex2(0x69) == "69" && Hex2(0x6A) == "6A" && Hex2(0x6B) == "6B"
  {
  }

  lemma TestPayloadPieces()
    ensures "61" + ("62" + ("63" + ("64" + ("65" + ("66" + ("67" + ("68" + ("69" + ("6A" + ("6B" + "")))))))))) == "6162636465666768696A6B"
  {
  }

  /** One more pair in front: the hex pairs from byte k on. */
  lemma HexStep(p: seq<Byte>, k: nat, t: string)
    requires k < |p| && HexBytes(p[k + 1..]) == t
    ensures HexBytes(p[k..]) == Hex2(p[k]) + t
  {
    assert p[k..][1..] == p[k + 1..];
  }

  lemma TestPayloadSum()
    ensures Sum(TEST_PAYLOAD) == 1122
  {
  }

  // ---------------------------------------------------------------- parse

  /** The tuple parse returns. */
  datatype Frame = Frame(address: int, command: int, data: seq<Byte>,
                         coordinates: string, macHash: string, scale: string)

  /** b''.join(struct.pack('B', byte) for byte in byte_list), or None where a value does not fit a byte. */
  function PackBytes(xs: seq<int>): (r: Option<seq<Byte>>)
    ensures r.Some? <==> forall i :: 0 <= i < |xs| ==> 0 <= xs[i] < 256
    ensures r.Some? ==> r.value == xs
  {
    if |xs| == 0 then Some([])
    else if 0 <= xs[0] < 256 then
      match PackBytes(xs[1..])
      case None => None
      case Some(rest) => Some([xs[0] as Byte] + rest)
    else None
  }

  /**
   * parse(message): the fields at fixed offsets, the hex pairs between the
   * byte at offsets 5..7 and the last two characters as data, and the LRC
   * over address, command, that byte and the data checked against the last
   * two characters.
   */
  function Parse(message: string): Result<Frame, PyError>
  {
    if |message| <= 0 then Failure(ValueError)
    else if message[0] != ':' then Failure(ValueError)
    else
      var address :- ParseHexInt(Slice(message, 1, 3)).ToResult(ValueError);
      var command :- ParseHexInt(Slice(message, 3, 5)).ToResult(ValueError);
      var size :- ParseHexInt(Slice(message, 5, 7)).ToResult(ValueError);
      var pairs := StringChunks(Slice(message, 7, -2), 2).value;  // a step of 2 never fails
      var byteList :- ParseHexInts(pairs).ToResult(ValueError);
      var data :- PackBytes(byteList).ToResult(StructError);
      var expected := Lrc(address + command + size + Sum(byteList));
      var lrc :- ParseHexInt(Slice(message, -2, |message|)).ToResult(ValueError);
      if expected != lrc then Failure(ValueError)
      else Success(Frame(address, command, data, From(message, 15), From(message, 55), From(message, 65)))
  }

  lemma ParseRejectsEmpty()
    ensures Parse("") == Failure(ValueError)
  {
  }

  /** A field padded with U+001C instead of a digit is refused: int('\x1c1', 16) raises ValueError. */
  lemma ParseRejectsSeparator()
    ensures Parse(":\U{1c}1\U{1c}3\U{1c}0FC") == Failure(ValueError)
  {
    var m := ":\U{1c}1\U{1c}3\U{1c}0FC";
    SliceInside(m, 1, 3);
    assert Slice(m, 1, 3) == "\U{1c}1";
    assert ParseHexInt("\U{1c}1") == None;
  }

  /** A message that does not start with a colon is refused; the module's test uses "hello". */
  lemma ParseRejectsNoColon(m: string)
    requires |m| > 0 && m[0] != ':'
    ensures Parse(m) == Failure(ValueError)
  {
  }

  lemma ParseRejectsHello()
    ensures Parse("hello") == Failure(ValueError)
  {
    ParseRejectsNoColon("hello");
  }

  /**
   * Every accepted message starts with a colon, and its trailing LRC field
   * zeroes the sum of address, command, the byte-count field at offsets 5..7
   * and the data bytes modulo 256.
   */
  lemma ParseAccepted(m: string)
    requires Parse(m).Success?
    ensures |m| > 0 && m[0] == ':'
    ensures var f := Parse(m).value;
      var size := ParseHexInt(Slice(m, 5, 7));
      var lrc := ParseHexInt(Slice(m, -2, |m|));
      && size.Some? && lrc.Some?
      && (f.address + f.command + size.value + Sum(f.data) + lrc.value) % 256 == 0
  {
    var a := ParseHexInt(Slice(m, 1, 3));
    var c := ParseHexInt(Slice(m, 3, 5));
    var size := ParseHexInt(Slice(m, 5, 7));
    var q := ParseHexInts(Pieces(Slice(m, 7, -2), 2));
    var lrc := ParseHexInt(Slice(m, -2, |m|));
    assert |m| > 0 && m[0] == ':';
    assert a.Some? && c.Some? && size.Some? && q.Some?;
    assert PackBytes(q.value) == Some(q.value);
    assert lrc.Some?;
    assert Lrc(a.value + c.value + size.value + Sum(q.value)) == lrc.value;
    assert Parse(m).value == Frame(a.value, c.value, q.value, From(m, 15), From(m, 55), From(m, 65));
  }

  /** How parse decides once every field has been read. */
  lemma ParseFields(m: string, a: int, c: int, size: int, q: seq<Byte>, l: int)
    requires |m| > 0 && m[0] == ':'
    requires ParseHexInt(Slice(m, 1, 3)) == Some(a)
    requires ParseHexInt(Slice(m, 3, 5)) == Some(c)
    requires ParseHexInt(Slice(m, 5, 7)) == Some(size)
    requires ParseHexInts(Pieces(Slice(m, 7, -2), 2)) == Some(q)
    requires ParseHexInt(Slice(m, -2, |m|)) == Some(l)
    ensures Lrc(a + c + size + Sum(q)) == l ==> Parse(m) == Success(Frame(a, c, q, From(m, 15), From(m, 55), From(m, 65)))
    ensures Lrc(a + c + size + Sum(q)) != l ==> Parse(m) == Failure(ValueError)
  {
    assert PackBytes(q) == Some(q);
  }

  lemma {:induction false} ParseHexBytes(q: seq<Byte>)
    ensures ParseHexInts(Pieces(HexBytes(q), 2)) == Some(q)
  {
    if |q| > 0 {
      ParseHexBytes(q[1..]);
      var s := HexBytes(q);
      assert s == Hex2(q[0]) + HexBytes(q[1..]);
      assert s[..2] == Hex2(q[0]);
      assert s[2..] == HexBytes(q[1..]);
      var pieces := if |q| == 1 then [s] else [s[..2]] + Pieces(s[2..], 2);
      assert Pieces(s, 2) == pieces;
      assert pieces[0] == Hex2(q[0]);
      assert pieces[1..] == Pieces(HexBytes(q[1..]), 2);
      ParseHex2(q[0]);
      assert ParseHexInt(pieces[0]) == Some(q[0] as int);
      var x: seq<int> := q;
      assert [q[0] as int] + q[1..] == x;
    }
  }

  /** Python slices of a colon, three pairs, a middle part and a final pair. */
  lemma FrameSlices(m: string, x: string, y: string, w: string, mid: string, z: string)
    requires |x| == 2 && |y| == 2 && |w| == 2 && |z| == 2
    requires m == ":" + x + y + w + mid + z
    ensures |m| == |mid| + 9 && m[0] == ':'
    ensures Slice(m, 1, 3) == x && Slice(m, 3, 5) == y && Slice(m, 5, 7) == w
    ensures Slice(m, 7, -2) == mid && Slice(m, -2, |m|) == z
  {
  }

  /** A laid-out frame as parse takes it apart: the first payload byte sits where parse expects the byte count. */
  lemma LayoutSlices(a: Byte, c: Byte, p: seq<Byte>, l: Byte)
    requires |p| >= 1
    ensures var m := Layout(a, c, p, l);
      && Slice(m, 1, 3) == Hex2(a) && Slice(m, 3, 5) == Hex2(c) && Slice(m, 5, 7) == Hex2(p[0])
      && Slice(m, 7, -2) == HexBytes(p[1..]) && Slice(m, -2, |m|) == Hex2(l)
      && |m| > 0 && m[0] == ':'
  {
    assert HexBytes(p) == Hex2(p[0]) + HexBytes(p[1..]);
    assert Layout(a, c, p, l) == ":" + Hex2(a) + Hex2(c) + Hex2(p[0]) + HexBytes(p[1..]) + Hex2(l);
    FrameSlices(Layout(a, c, p, l), Hex2(a), Hex2(c), Hex2(p[0]), HexBytes(p[1..]), Hex2(l));
  }

  /** How parse accepts a frame whose fields read back and whose LRC pair is right. */
  lemma ParseOfSlices(m: string, a: Byte, c: Byte, p0: Byte, rest: seq<Byte>, l: Byte)
    requires |m| > 0 && m[0] == ':'
    requires Slice(m, 1, 3) == Hex2(a) && Slice(m, 3, 5) == Hex2(c) && Slice(m, 5, 7) == Hex2(p0)
    requires Slice(m, 7, -2) == HexBytes(rest) && Slice(m, -2, |m|) == Hex2(l)
    requires l == Lrc(a + c + p0 + Sum(rest))
    ensures Parse(m) == Success(Frame(a, c, rest, From(m, 15), From(m, 55), From(m, 65)))
  {
    ParseHex2(a);
    ParseHex2(c);
    ParseHex2(p0);
    ParseHex2(l);
    ParseHexBytes(rest);
    ParseFields(m, a, c, p0, rest, l);
  }

  /**
   * Parsing the body of a built frame (what remains after the serial reader
   * removes the CR LF) gives back the address and the command; parse reads the
   * first payload byte as the byte-count field, so the data it returns is the
   * rest of the payload.
   */
  lemma ParseBody(a: Byte, c: Byte, p: seq<Byte>)
    requires |p| >= 1
    ensures var m := Body(a, c, p);
      Parse(m) == Success(Frame(a, c, p[1..], From(m, 15), From(m, 55), From(m, 65)))
  {
    LrcSplit(a, c, p);
    LayoutSlices(a, c, p, Lrc(a + c + Sum(p)));
    ParseOfSlices(Body(a, c, p), a, c, p[0], p[1..], Lrc(a + c + Sum(p)));
  }

  /** The same for a built frame cut before its CR LF. */
  lemma ParseBuild(a: Byte, c: Byte, p: seq<Byte>)
    requires |p| >= 1
    ensures var m := Build(a, c, p)[..2 * |p| + 7];
      Parse(m) == Success(Frame(a, c, p[1..], From(m, 15), From(m, 55), From(m, 65)))
  {
    BuildLayout(a, c, p);
    PrefixOfAppend(Body(a, c, p), "\r\n");
    ParseBody(a, c, p);
  }

  /** How parse refuses a frame whose fields read back but whose LRC pair is wrong. */
  lemma RejectOfSlices(m: string, a: Byte, c: Byte, p0: Byte, rest: seq<Byte>, v: Byte)
    requires |m| > 0 && m[0] == ':'
    requires Slice(m, 1, 3) == Hex2(a) && Slice(m, 3, 5) == Hex2(c) && Slice(m, 5, 7) == Hex2(p0)
    requires Slice(m, 7, -2) == HexBytes(rest) && Slice(m, -2, |m|) == Hex2(v)
    requires v != Lrc(a + c + p0 + Sum(rest))
    ensures Parse(m) == Failure(ValueError)
  {
    ParseHex2(a);
    ParseHex2(c);
    ParseHex2(p0);
    ParseHex2(v);
    ParseHexBytes(rest);
    ParseFields(m, a, c, p0, rest, v);
  }

  /** The LRC over a payload, with its first byte taken apart from the rest. */
  lemma LrcSplit(a: Byte, c: Byte, p: seq<Byte>)
    requires |p| >= 1
    ensures Lrc(a + c + Sum(p)) == Lrc(a + c + p[0] + Sum(p[1..]))
  {
    assert Sum(p) == p[0] + Sum(p[1..]);
  }

  lemma RejectLayout(a: Byte, c: Byte, p: seq<Byte>, v: Byte)
    requires |p| >= 1 && v != Lrc(a + c + p[0] + Sum(p[1..]))
    ensures Parse(Layout(a, c, p, v)) == Failure(ValueError)
  {
    LayoutSlices(a, c, p, v);
    RejectOfSlices(Layout(a, c, p, v), a, c, p[0], p[1..], v);
  }

  /** A frame laid out as build lays it out but carrying any other LRC byte is refused. */
  lemma ParseRejectsWrongLrc(a: Byte, c: Byte, p: seq<Byte>, v: Byte)
    requires |p| >= 1 && v != Lrc(a + c + Sum(p))
    ensures Parse(Layout(a, c, p, v)) == Failure(ValueError)
  {
    LrcSplit(a, c, p);
    RejectLayout(a, c, p, v);
  }
}
