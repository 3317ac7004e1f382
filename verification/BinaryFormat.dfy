/** The building blocks of the default binary format: integers in network byte order, lengths in
    seven-bit groups, packed bits and strings of wide characters.  Each comes with the reading
    side and the proof that reading undoes writing. */
module BinaryFormat {

  type Byte = b: int | 0 <= b < 256

  datatype Width = W1 | W2 | W4 | W8

  datatype Error = EndOfStream | InvalidFieldType | MultipleKeys
    | UndefinedShift   // a length of more than five bytes shifts a 32-bit value too far

  datatype Result<T> = Ok(value: T, rest: seq<Byte>) | Err(error: Error)

  // -- integers ---------------------------------------------------------------------------------

  function Size(w: Width): nat {
    match w case W1 => 1 case W2 => 2 case W4 => 4 case W8 => 8
  }

  /** 256 to the power of the size. */
  function Range(w: Width): nat {
    match w case W1 => 0x100 case W2 => 0x1_0000 case W4 => 0x1_0000_0000 case W8 => 0x1_0000_0000_0000_0000
  }

  function LowBound(w: Width, signed: bool): int {
    if signed then -(Range(w) / 2) else 0
  }

  predicate InRange(w: Width, signed: bool, i: int) {
    LowBound(w, signed) <= i < LowBound(w, signed) + Range(w)
  }

  /** The conversion to the unsigned type of the same width, and back. */
  function ToUnsigned(w: Width, i: int): int {
    if i < 0 then i + Range(w) else i
  }

  function FromUnsigned(w: Width, signed: bool, u: int): int {
    if signed && u >= Range(w) / 2 then u - Range(w) else u
  }

  /** Network byte order: the most significant byte first. */
  function BigEndian(n: nat, u: int): (r: seq<Byte>)
    requires u >= 0
    ensures |r| == n
  {
    if n == 0 then [] else BigEndian(n - 1, u / 256) + [u % 256]
  }

  function FromBigEndian(bs: seq<Byte>): (u: int)
    ensures u >= 0
  {
    if bs == [] then 0 else 256 * FromBigEndian(bs[..|bs| - 1]) + bs[|bs| - 1]
  }

  function Pow256(n: nat): (r: int)
    ensures r > 0
  {
    if n == 0 then 1 else 256 * Pow256(n - 1)
  }

  lemma RangeIsPow(w: Width)
    ensures Pow256(Size(w)) == Range(w)
  {
    assert Pow256(1) == 256;
    assert Pow256(2) == 256 * Pow256(1);
    assert Pow256(3) == 256 * Pow256(2);
    assert Pow256(4) == 256 * Pow256(3);
    assert Pow256(5) == 256 * Pow256(4);
    assert Pow256(6) == 256 * Pow256(5);
    assert Pow256(7) == 256 * Pow256(6);
    assert Pow256(8) == 256 * Pow256(7);
  }

  lemma {:induction false} BigEndianRoundTrip(n: nat, u: int)
    requires 0 <= u < Pow256(n)
    ensures FromBigEndian(BigEndian(n, u)) == u
  {
    if n > 0 {
      BigEndianRoundTrip(n - 1, u / 256);
      var bs := BigEndian(n, u);
      assert bs[..|bs| - 1] == BigEndian(n - 1, u / 256);
    }
  }

  lemma {:induction false} BigEndianBound(bs: seq<Byte>)
    ensures FromBigEndian(bs) < Pow256(|bs|)
  {
    if bs != [] {
      BigEndianBound(bs[..|bs| - 1]);
    }
  }

  function EncodeInt(w: Width, signed: bool, i: int): (r: seq<Byte>)
    requires InRange(w, signed, i)
    ensures |r| == Size(w)
  {
    BigEndian(Size(w), ToUnsigned(w, i))
  }

  function DecodeInt(w: Width, signed: bool, bs: seq<Byte>): Result<int> {
    if |bs| < Size(w) then Err(EndOfStream)
    else Ok(FromUnsigned(w, signed, FromBigEndian(bs[..Size(w)])), bs[Size(w)..])
  }

  lemma IntRoundTrip(w: Width, signed: bool, i: int, rest: seq<Byte>)
    requires InRange(w, signed, i)
    ensures DecodeInt(w, signed, EncodeInt(w, signed, i) + rest) == Ok(i, rest)
  {
    hide Pow256, BigEndian, FromBigEndian;
    var u := ToUnsigned(w, i);
    assert 0 <= u < Range(w) && FromUnsigned(w, signed, u) == i;
    RangeIsPow(w);
    BigEndianRoundTrip(Size(w), u);
    hide ToUnsigned, FromUnsigned, Range, Size, InRange;
    var bs := EncodeInt(w, signed, i);
    assert (bs + rest)[..Size(w)] == bs && (bs + rest)[Size(w)..] == rest;
  }

  lemma IntInRange(w: Width, signed: bool, bs: seq<Byte>)
    requires |bs| >= Size(w)
    ensures InRange(w, signed, DecodeInt(w, signed, bs).value)
  {
    RangeIsPow(w);
    BigEndianBound(bs[..Size(w)]);
  }

  // -- sequence lengths -------------------------------------------------------------------------

  const MAX_LENGTH: int := 0x1_0000_0000

  /** Seven bits per byte, the least significant first; the high bit says that more follow. */
  function VarBytes(x: nat): (r: seq<Byte>)
    ensures |r| > 0
  {
    if x > 0x7f then [x % 128 + 128] + VarBytes(x / 128) else [x]
  }

  /** `begin_sequence` first truncates the length to 32 bits. */
  function EncodeLength(n: nat): seq<Byte> {
    VarBytes(n % MAX_LENGTH)
  }

  /** 2 to the power of 7n, for the five shifts that a 32-bit value allows. */
  function Shift(n: nat): nat
    requires n < 5
  {
    if n == 0 then 1 else if n == 1 then 0x80 else if n == 2 then 0x4000 else if n == 3 then 0x20_0000
    else 0x1000_0000
  }

  /** The loop of `begin_sequence`: `n` bytes were read and gave `x`.  The new bits do not
      overlap those of `x`, so that adding them is the bitwise or of the source. */
  function DecodeLengthFrom(bs: seq<Byte>, n: nat, x: nat): Result<nat> {
    if bs == [] then Err(EndOfStream)
    else if n >= 5 then Err(UndefinedShift)
    else
      var y := x + bs[0] % 128 * Shift(n) % MAX_LENGTH;
      if bs[0] >= 128 then DecodeLengthFrom(bs[1..], n + 1, y) else Ok(y, bs[1..])
  }

  function DecodeLength(bs: seq<Byte>): Result<nat> {
    DecodeLengthFrom(bs, 0, 0)
  }

  lemma ShiftStep(n: nat)
    requires n < 4
    ensures Shift(n + 1) == 128 * Shift(n) && Shift(n) > 0
  {
  }

  lemma Distribute(a: nat, b: nat, s: nat)
    ensures (a + b) * s == a * s + b * s
  {
  }

  /** Splitting off the seven low bits of `x`, all shifted by `s`. */
  lemma SplitLow(x: nat, s: nat)
    ensures x % 128 * s + x / 128 * (128 * s) == x * s
    ensures x % 128 * s <= x * s && x % 128 * s <= 127 * s
  {
    var q, r := x / 128, x % 128;
    var k: nat := 127 - r;
    Distribute(128 * q, r, s);
    Distribute(r, k, s);
    assert (128 * q) * s == q * (128 * s) by {
      MulSwap(128, q, s);
    }
    assert 128 * q + r == x && r + k == 127;
  }

  lemma MulSwap(a: nat, b: nat, c: nat)
    ensures (a * b) * c == b * (a * c)
  {
  }

  lemma MoreBytes(x: nat, n: nat)
    requires n < 5 && x * Shift(n) < MAX_LENGTH && x > 0x7f
    ensures n < 4
  {
  }

  lemma {:induction false} LengthRoundTripFrom(x: nat, n: nat, acc: nat, rest: seq<Byte>)
    requires n < 5 && acc < Shift(n) && x * Shift(n) < MAX_LENGTH
    ensures DecodeLengthFrom(VarBytes(x) + rest, n, acc) == Ok(acc + x * Shift(n), rest)
  {
    var bs, s := VarBytes(x) + rest, Shift(n);
    if x > 0x7f {
      MoreBytes(x, n);
      ShiftStep(n);
      SplitLow(x, s);
      hide Shift;
      assert bs[0] == x % 128 + 128 && bs[1..] == VarBytes(x / 128) + rest;
      hide VarBytes;
      NextByte(bs, n, acc, x % 128);
      LengthRoundTripFrom(x / 128, n + 1, acc + x % 128 * s, rest);
    } else {
      hide Shift;
      assert bs[0] == x && bs[1..] == rest;
      hide VarBytes;
      NextByte(bs, n, acc, x);
    }
  }

  lemma NextByte(bs: seq<Byte>, n: nat, acc: nat, low: nat)
    requires n < 5 && bs != [] && low < 128 && (bs[0] == low || bs[0] == low + 128) && low * Shift(n) < MAX_LENGTH
    ensures DecodeLengthFrom(bs, n, acc)
         == if bs[0] >= 128 then DecodeLengthFrom(bs[1..], n + 1, acc + low * Shift(n)) else Ok(acc + low * Shift(n), bs[1..])
  {
    hide Shift;
    assert bs[0] % 128 == low;
  }

  /** Reading back a length gives the length modulo 2^32: exact below 2^32, wrong above. */
  lemma LengthRoundTrip(n: nat, rest: seq<Byte>)
    ensures DecodeLength(EncodeLength(n) + rest) == Ok(n % 0x1_0000_0000, rest)
    ensures DecodeLength(EncodeLength(n) + rest) == Ok(n, rest) <==> n < 0x1_0000_0000
  {
    LengthRoundTripFrom(n % MAX_LENGTH, 0, 0, rest);
  }

  lemma {:induction false} LengthBound(bs: seq<Byte>, n: nat, x: nat)
    requires x < (if n < 5 then Shift(n) else MAX_LENGTH)
    ensures DecodeLengthFrom(bs, n, x).Ok? ==> DecodeLengthFrom(bs, n, x).value < MAX_LENGTH
    ensures DecodeLengthFrom(bs, n, x).Ok? ==> IsSuffix(DecodeLengthFrom(bs, n, x).rest, bs)
  {
    if bs != [] && n < 5 {
      var y := x + bs[0] % 128 * Shift(n) % MAX_LENGTH;
      if bs[0] >= 128 {
        LengthBound(bs[1..], n + 1, y);
        SuffixOfTail(DecodeLengthFrom(bs[1..], n + 1, y), bs);
      }
    }
  }

  // -- what a decoder leaves ----------------------------------------------------------------------

  predicate IsSuffix(s: seq<Byte>, bs: seq<Byte>) {
    |s| <= |bs| && s == bs[|bs| - |s|..]
  }

  lemma SuffixTransitive(a: seq<Byte>, b: seq<Byte>, c: seq<Byte>)
    requires IsSuffix(a, b) && IsSuffix(b, c)
    ensures IsSuffix(a, c)
  {
  }

  lemma SuffixOfTail<T>(r: Result<T>, bs: seq<Byte>)
    requires bs != [] && (r.Ok? ==> IsSuffix(r.rest, bs[1..]))
    ensures r.Ok? ==> IsSuffix(r.rest, bs)
  {
  }

  // -- std::vector<bool> --------------------------------------------------------------------------

  function Pow2(n: nat): (r: int)
    ensures r > 0
  {
    if n == 0 then 1 else 2 * Pow2(n - 1)
  }

  function Bit(b: bool): Byte {
    if b then 1 else 0
  }

  /** The bits as a number, the first one being the most significant. */
  function Pack(bs: seq<bool>): (r: int)
    ensures 0 <= r < Pow2(|bs|)
  {
    if bs == [] then 0 else 2 * Pack(bs[..|bs| - 1]) + Bit(bs[|bs| - 1])
  }

  /** The `k` low bits of a byte, the most significant first. */
  function Unpack(k: nat, b: int): (r: seq<bool>)
    requires b >= 0
    ensures |r| == k
  {
    if k == 0 then [] else Unpack(k - 1, b / 2) + [b % 2 == 1]
  }

  lemma {:induction false} PackRoundTrip(bs: seq<bool>)
    ensures Unpack(|bs|, Pack(bs)) == bs
  {
    if bs != [] {
      PackRoundTrip(bs[..|bs| - 1]);
      assert Pack(bs) / 2 == Pack(bs[..|bs| - 1]);
    }
  }

  lemma PackFits(bs: seq<bool>)
    requires |bs| <= 8
    ensures Pack(bs) < 256
  {
    assert Pow2(8) == 256 by {
      assert Pow2(2) == 4 && Pow2(4) == 4 * Pow2(2) && Pow2(6) == 4 * Pow2(4) && Pow2(8) == 4 * Pow2(6);
    }
    Pow2Monotone(|bs|, 8);
  }

  lemma {:induction false} Pow2Monotone(m: nat, n: nat)
    requires m <= n
    ensures Pow2(m) <= Pow2(n)
  {
    if m < n {
      Pow2Monotone(m, n - 1);
    }
  }

  function PackByte(bs: seq<bool>): Byte
    requires |bs| <= 8
  {
    PackFits(bs);
    Pack(bs)
  }

  /** Blocks of eight bits; a shorter last block uses the low bits of its byte. */
  function EncodeBits(bs: seq<bool>): seq<Byte> {
    if bs == [] then []
    else if |bs| < 8 then [PackByte(bs)]
    else [PackByte(bs[..8])] + EncodeBits(bs[8..])
  }

  function DecodeBits(n: nat, bs: seq<Byte>, acc: seq<bool>): Result<seq<bool>>
    decreases n
  {
    if n == 0 then Ok(acc, bs)
    else if bs == [] then Err(EndOfStream)
    else if n < 8 then Ok(acc + Unpack(n, bs[0]), bs[1..])
    else DecodeBits(n - 8, bs[1..], acc + Unpack(8, bs[0]))
  }

  lemma BitsUnfold(n: nat, bs: seq<Byte>, acc: seq<bool>)
    ensures DecodeBits(n, bs, acc) ==
      if n == 0 then Ok(acc, bs)
      else if bs == [] then Err(EndOfStream)
      else if n < 8 then Ok(acc + Unpack(n, bs[0]), bs[1..])
      else DecodeBits(n - 8, bs[1..], acc + Unpack(8, bs[0]))
  {
  }

  lemma {:induction false} BitsRoundTrip(bits: seq<bool>, acc: seq<bool>, rest: seq<Byte>)
    ensures DecodeBits(|bits|, EncodeBits(bits) + rest, acc) == Ok(acc + bits, rest)
    decreases |bits|
  {
    hide Pack, Unpack;
    var bs := EncodeBits(bits) + rest;
    if bits == [] {
      assert bs == rest && acc + bits == acc;
    } else if |bits| < 8 {
      PackRoundTrip(bits);
      assert bs[0] == PackByte(bits) && bs[1..] == rest;
    } else {
      PackRoundTrip(bits[..8]);
      assert bs[0] == PackByte(bits[..8]) && bs[1..] == EncodeBits(bits[8..]) + rest;
      BitsRoundTrip(bits[8..], acc + bits[..8], rest);
      assert acc + bits[..8] + bits[8..] == acc + bits;
    }
  }

  lemma {:induction false} BitsSound(n: nat, bs: seq<Byte>, acc: seq<bool>)
    ensures var r := DecodeBits(n, bs, acc);
      r.Ok? ==> IsSuffix(r.rest, bs) && |r.value| == |acc| + n
    decreases n
  {
    hide Unpack;
    if n >= 8 && bs != [] {
      BitsSound(n - 8, bs[1..], acc + Unpack(8, bs[0]));
      SuffixOfTail(DecodeBits(n - 8, bs[1..], acc + Unpack(8, bs[0])), bs);
    }
  }

  // -- u16 and u32 strings --------------------------------------------------------------------------

  predicate Chars(w: Width, cs: seq<int>) {
    forall i :: 0 <= i < |cs| ==> InRange(w, false, cs[i])
  }

  function EncodeChars(w: Width, cs: seq<int>): seq<Byte>
    requires Chars(w, cs)
  {
    if cs == [] then [] else EncodeInt(w, false, cs[0]) + EncodeChars(w, cs[1..])
  }

  function Span(w: Width, n: nat): nat {
    n * Size(w)
  }

  lemma SpanStep(w: Width, n: nat)
    ensures Span(w, n + 1) == Span(w, n) + Size(w) && Span(w, 0) == 0
  {
  }

  /** The range check of the source covers all characters before the first one is read. */
  function DecodeChars(w: Width, n: nat, bs: seq<Byte>): Result<seq<int>> {
    if |bs| < Span(w, n) then Err(EndOfStream) else Ok(ReadChars(w, n, bs), bs[Span(w, n)..])
  }

  function ReadChars(w: Width, n: nat, bs: seq<Byte>): (r: seq<int>)
    requires Span(w, n) <= |bs|
    ensures |r| == n
  {
    if n == 0 then [] else [DecodeInt(w, false, bs).value] + ReadChars(w, n - 1, bs[Size(w)..])
  }

  lemma {:induction false} CharsLength(w: Width, cs: seq<int>)
    requires Chars(w, cs)
    ensures |EncodeChars(w, cs)| == Span(w, |cs|)
  {
    if cs != [] {
      CharsLength(w, cs[1..]);
      hide Range, EncodeInt;
      assert w.W1? || w.W2? || w.W4? || w.W8?;
    }
  }

  lemma {:induction false} CharsRoundTrip(w: Width, cs: seq<int>, rest: seq<Byte>)
    requires Chars(w, cs)
    ensures DecodeChars(w, |cs|, EncodeChars(w, cs) + rest) == Ok(cs, rest)
  {
    CharsLength(w, cs);
    ReadCharsBack(w, cs, rest);
    hide ReadChars, EncodeChars, Size;
    assert (EncodeChars(w, cs) + rest)[Span(w, |cs|)..] == rest;
  }

  lemma {:induction false} ReadCharsBack(w: Width, cs: seq<int>, rest: seq<Byte>)
    requires Chars(w, cs)
    requires Span(w, |cs|) <= |EncodeChars(w, cs) + rest|
    ensures ReadChars(w, |cs|, EncodeChars(w, cs) + rest) == cs
  {
    if cs != [] {
      hide Range, EncodeInt, DecodeInt, InRange, Size;
      var tail := EncodeChars(w, cs[1..]) + rest;
      CharsLength(w, cs[1..]);
      assert EncodeChars(w, cs) + rest == EncodeInt(w, false, cs[0]) + tail;
      IntRoundTrip(w, false, cs[0], tail);
      ReadCharsBack(w, cs[1..], rest);
      assert (EncodeInt(w, false, cs[0]) + tail)[Size(w)..] == tail;
    }
  }

  lemma {:induction false} CharsSound(w: Width, n: nat, bs: seq<Byte>)
    requires Span(w, n) <= |bs|
    ensures Chars(w, ReadChars(w, n, bs))
  {
    if n > 0 {
      IntInRange(w, false, bs);
      CharsSound(w, n - 1, bs[Size(w)..]);
      hide InRange, DecodeInt, Size;
    }
  }

  // -- which bytes the format consists of ---------------------------------------------------------------

  lemma QuotientIs(x: nat, m: nat, q: nat, r: nat)
    requires x == m * q + r && r < m
    ensures x / m == q && x % m == r
  {
    var k := x / m;
    assert x == m * k + x % m;
    if k < q {
      MulGap(m, k, q);
    } else if q < k {
      MulGap(m, q, k);
    }
  }

  lemma MulGap(m: nat, a: nat, b: nat)
    requires a < b
    ensures m * b >= m * a + m
  {
    var d: nat := b - a - 1;
    Distribute(a, d + 1, m);
    Distribute(d, 1, m);
  }

  /** Dividing twice is dividing by the product. */
  lemma DivDiv(u: nat, b: nat, m: nat)
    requires b > 0 && m > 0
    ensures b * m > 0 && u / b / m == u / (b * m)
  {
    var q := u / b / m;
    var r := u / b % m;
    assert u / b == m * q + r && u == b * (u / b) + u % b;
    assert b * (m * q + r) == (b * m) * q + b * r;
    MulGap(b, r, m);
    assert b * r + u % b < b * m;
    QuotientIs(u, b * m, q, b * r + u % b);
  }

  /** Byte `k` of an integer in network byte order. */
  lemma {:induction false} BigEndianByte(n: nat, u: nat, k: nat)
    requires k < n
    ensures BigEndian(n, u)[k] == u / Pow256(n - 1 - k) % 256
  {
    if k == n - 1 {
      assert Pow256(0) == 1;
    } else {
      BigEndianByte(n - 1, u / 256, k);
      DivDiv(u, 256, Pow256(n - 2 - k));
    }
  }

  /** The bytes of any integer: two's complement, the most significant byte first. */
  lemma IntBytes(w: Width, signed: bool, i: int, k: nat)
    requires InRange(w, signed, i) && k < Size(w)
    ensures |EncodeInt(w, signed, i)| == if w.W1? then 1 else if w.W2? then 2 else if w.W4? then 4 else 8
    ensures EncodeInt(w, signed, i)[k] == i % Pow256(Size(w)) / Pow256(Size(w) - 1 - k) % 256
  {
    RangeIsPow(w);
    hide Pow256;
    assert i % Range(w) == ToUnsigned(w, i);
    BigEndianByte(Size(w), ToUnsigned(w, i), k);
  }

  function Pow128(n: nat): (r: nat)
    ensures r > 0
  {
    if n == 0 then 1 else 128 * Pow128(n - 1)
  }

  /** The bytes of a length: groups of seven bits, the least significant first, as many as needed; all
      but the last have the high bit. */
  lemma {:induction false} LengthBytes(x: nat, k: nat)
    requires k < |VarBytes(x)|
    ensures var r := VarBytes(x);
      && r[k] == x / Pow128(k) % 128 + (if k < |r| - 1 then 128 else 0)
      && x < Pow128(|r|) && (|r| > 1 ==> x >= Pow128(|r| - 1))
  {
    if x > 0x7f {
      var r := VarBytes(x / 128);
      assert VarBytes(x)[1..] == r;
      if k == 0 {
        assert Pow128(0) == 1;
        LengthBytes(x / 128, 0);
      } else {
        LengthBytes(x / 128, k - 1);
        DivDiv(x, 128, Pow128(k - 1));
      }
      assert |r| == 1 ==> Pow128(1) == 128 * Pow128(0);
    } else {
      assert Pow128(1) == 128 * Pow128(0) && Pow128(0) == 1;
    }
  }

  /** Bit `k` of a packed block, from the most significant one. */
  lemma {:induction false} PackedBit(bs: seq<bool>, k: nat)
    requires k < |bs|
    ensures Pack(bs) / Pow2(|bs| - 1 - k) % 2 == if bs[k] then 1 else 0
  {
    var n := |bs| - 1;
    if k == n {
      assert Pow2(0) == 1;
    } else {
      PackedBit(bs[..n], k);
      assert Pack(bs) / 2 == Pack(bs[..n]);
      DivDiv(Pack(bs), 2, Pow2(n - 1 - k));
    }
  }

  lemma {:induction false} UnpackedBit(k: nat, b: nat, j: nat)
    requires j < k
    ensures Unpack(k, b)[j] <==> b / Pow2(k - 1 - j) % 2 == 1
  {
    if j == k - 1 {
      assert Pow2(0) == 1;
    } else {
      UnpackedBit(k - 1, b / 2, j);
      DivDiv(b, 2, Pow2(k - 2 - j));
    }
  }

  /** The bits of byte `i / 8`: eight, or as many as are left at the end. */
  function BlockSize(n: nat, i: nat): nat {
    if i / 8 * 8 + 8 <= n then 8 else n % 8
  }

  /** Bit `i` of a vector is in byte `b`, from the top of a block of that size; the bits above the
      block are zero. */
  predicate HoldsBit(b: Byte, size: nat, i: nat, bit: bool) {
    i % 8 < size && b < Pow2(size) && b / Pow2(size - 1 - i % 8) % 2 == if bit then 1 else 0
  }

  /** Where the bits of a vector are. */
  lemma {:induction false} BitsBytes(bits: seq<bool>, i: nat)
    requires i < |bits|
    ensures |EncodeBits(bits)| == (|bits| + 7) / 8
    ensures HoldsBit(EncodeBits(bits)[i / 8], BlockSize(|bits|, i), i, bits[i])
    decreases |bits|
  {
    BitsCount(bits);
    hide Pack, Pow2;
    if |bits| < 8 {
      BlockHolds(bits, i);
    } else if i < 8 {
      BlockHolds(bits[..8], i);
    } else {
      var rest := bits[8..];
      assert EncodeBits(bits)[i / 8] == EncodeBits(rest)[(i - 8) / 8];
      hide HoldsBit, EncodeBits;
      BitsBytes(rest, i - 8);
      SameBit(EncodeBits(rest)[(i - 8) / 8], |rest|, i - 8, bits[i]);
    }
  }

  lemma BlockHolds(block: seq<bool>, i: nat)
    requires i < |block| <= 8
    ensures HoldsBit(PackByte(block), |block|, i, block[i])
  {
    PackedBit(block, i);
    hide Pow2;
  }

  lemma SameBit(b: Byte, n: nat, i: nat, bit: bool)
    requires HoldsBit(b, BlockSize(n, i), i, bit)
    ensures HoldsBit(b, BlockSize(n + 8, i + 8), i + 8, bit)
  {
    NextBlock(n, i);
    hide Pow2, BlockSize;
  }

  lemma NextBlock(n: nat, i: nat)
    ensures (i + 8) % 8 == i % 8 && BlockSize(n + 8, i + 8) == BlockSize(n, i)
  {
  }

  lemma {:induction false} BitsCount(bits: seq<bool>)
    ensures |EncodeBits(bits)| == (|bits| + 7) / 8
    decreases |bits|
  {
    if |bits| >= 8 {
      BitsCount(bits[8..]);
    }
  }

  /** The characters follow each other. */
  lemma {:induction false} CharsBytes(w: Width, cs: seq<int>, i: nat)
    requires Chars(w, cs) && i < |cs|
    ensures Span(w, i + 1) <= |EncodeChars(w, cs)| && Span(w, i) <= Span(w, i + 1)
    ensures EncodeChars(w, cs)[Span(w, i)..Span(w, i + 1)] == EncodeInt(w, false, cs[i])
  {
    hide Range, EncodeInt, InRange, Span, Size;
    SpanStep(w, i);
    var bytes, rest := EncodeInt(w, false, cs[0]), EncodeChars(w, cs[1..]);
    if i == 0 {
      assert (bytes + rest)[0..|bytes|] == bytes;
    } else {
      CharsBytes(w, cs[1..], i - 1);
      SpanStep(w, i - 1);
      assert (bytes + rest)[|bytes| + Span(w, i - 1)..|bytes| + Span(w, i)] == rest[Span(w, i - 1)..Span(w, i)];
    }
  }
}
