/** The serializer object: a byte buffer with a write position.  Every write is a splice over the
    plain sequence of bytes, and saving a value splices in exactly its encoding. */
module BinarySerializer {
  import opened BinaryFormat
  import opened BinaryCodec

  /** `xs` written over `b` at `pos`, past the end if need be. */
  function Splice(b: seq<Byte>, pos: nat, xs: seq<Byte>): (r: seq<Byte>)
    requires pos <= |b|
    ensures |r| == if |b| < pos + |xs| then pos + |xs| else |b|
    ensures forall k :: 0 <= k < |r| ==> r[k] == if pos <= k < pos + |xs| then xs[k - pos] else b[k]
  {
    b[..pos] + xs + if pos + |xs| < |b| then b[pos + |xs|..] else []
  }

  lemma SpliceCompose(b: seq<Byte>, pos: nat, xs: seq<Byte>, ys: seq<Byte>)
    requires pos <= |b|
    ensures Splice(Splice(b, pos, xs), pos + |xs|, ys) == Splice(b, pos, xs + ys)
  {
  }

  /** From buffer `b` and position `p` to `b1` and `p1`, exactly `xs` was written. */
  ghost predicate Written(b: seq<Byte>, p: nat, xs: seq<Byte>, b1: seq<Byte>, p1: nat) {
    p <= |b| && b1 == Splice(b, p, xs) && p1 == p + |xs|
  }

  lemma Again(b: seq<Byte>, p: nat, xs: seq<Byte>, b1: seq<Byte>, p1: nat, ys: seq<Byte>, b2: seq<Byte>, p2: nat)
    requires Written(b, p, xs, b1, p1) && Written(b1, p1, ys, b2, p2)
    ensures Written(b, p, xs + ys, b2, p2)
  {
    SpliceCompose(b, p, xs, ys);
  }

  lemma Regroup(a: seq<Byte>, b: seq<Byte>, c: seq<Byte>)
    ensures a + b + c == a + (b + c)
  {
  }

  /** Unsigned sizes and positions have 64 bits. */
  const SIZE_RANGE: int := 0x1_0000_0000_0000_0000

  function Zeros(n: nat): seq<Byte> {
    seq(n, _ => 0)
  }

  class BinarySerializer {
    var buf: seq<Byte>
    var writePos: nat

    predicate Valid()
      reads this
    {
      writePos <= |buf|
    }

    /** Writing starts at the end of what is in the buffer already. */
    constructor (bytes: seq<Byte>)
      ensures Valid() && buf == bytes && writePos == |bytes|
    {
      buf := bytes;
      writePos := |bytes|;
    }

    method Seek(offset: nat)
      modifies this`writePos
      ensures writePos == offset
      ensures Valid() <==> offset <= |buf|
    {
      writePos := offset;
    }

    /** The subtraction of unsigned integers wraps around if the position is past the end, so that
        nothing is filled in then. */
    method Skip(n: nat)
      modifies this
      ensures writePos == old(writePos) + n
      ensures old(Valid()) ==> Valid()
      ensures old(Valid()) ==>
        buf == old(buf) + Zeros(if |old(buf)| < writePos then writePos - |old(buf)| else 0)
      ensures !old(Valid()) && n <= |old(buf)| - old(writePos) + SIZE_RANGE ==> buf == old(buf) && !Valid()
    {
      var remaining := if writePos <= |buf| then |buf| - writePos else |buf| - writePos + SIZE_RANGE;
      if remaining < n {
        buf := buf + Zeros(n - remaining);
      }
      writePos := writePos + n;
    }

    method ValueBytes(xs: seq<Byte>)
      requires Valid()
      modifies this
      ensures Valid() && Written(old(buf), old(writePos), xs, buf, writePos)
    {
      var size := |buf|;
      if writePos == size {
        buf := buf + xs;
      } else if writePos + |xs| <= size {
        buf := buf[..writePos] + xs + buf[writePos + |xs|..];
      } else {
        var remaining := size - writePos;
        assert remaining < |xs|;
        var mid := xs[remaining..];
        buf := buf[..writePos] + xs[..remaining];
        buf := buf + mid;
      }
      writePos := writePos + |xs|;
      assert buf == Splice(old(buf), old(writePos), xs);
    }

    method ValueByte(x: Byte)
      requires Valid()
      modifies this
      ensures Valid() && Written(old(buf), old(writePos), [x], buf, writePos)
    {
      if writePos == |buf| {
        buf := buf + [x];
      } else {
        buf := buf[writePos := x];
      }
      writePos := writePos + 1;
      assert buf == Splice(old(buf), old(writePos), [x]);
    }

    method IntValue(w: Width, signed: bool, i: int)
      requires Valid() && InRange(w, signed, i)
      modifies this
      ensures Valid() && Written(old(buf), old(writePos), EncodeInt(w, signed, i), buf, writePos)
    {
      var bytes := EncodeInt(w, signed, i);
      if w.W1? {
        assert bytes == [bytes[0]];
        ValueByte(bytes[0]);
      } else {
        ValueBytes(bytes);
      }
    }

    method BeginSequence(n: nat)
      requires Valid()
      modifies this
      ensures Valid() && Written(old(buf), old(writePos), EncodeLength(n), buf, writePos)
    {
      hide Written;
      var scratch: seq<Byte> := [];
      var x: nat := n % MAX_LENGTH;
      while x > 0x7f
        invariant buf == old(buf) && writePos == old(writePos)
        invariant scratch + VarBytes(x) == EncodeLength(n)
      {
        Regroup(scratch, [x % 128 + 128], VarBytes(x / 128));
        scratch := scratch + [x % 128 + 128];
        x := x / 128;
      }
      scratch := scratch + [x];
      ValueBytes(scratch);
    }

    /** One byte of a `vector<bool>`: the masks go from the highest bit of the block down to 1. */
    method Block(x: seq<bool>, from: nat, to: nat) returns (tmp: Byte)
      requires from < to <= |x| && to - from <= 8
      ensures tmp == PackByte(x[from..to])
    {
      PackFits(x[from..to]);
      var sum, pos, mask := 0, from, Pow2(to - from - 1);
      BlockEnds(x, from, to);
      hide Pack, Pow2, Scaled;
      while pos < to
        invariant from <= pos <= to
        invariant pos < to ==> mask == Pow2(to - pos - 1)
        invariant sum == Scaled(x, from, pos, to)
      {
        BlockStep(x, from, pos, to);
        if x[pos] {
          sum := sum + mask;
        }
        mask := mask / 2;
        pos := pos + 1;
      }
      tmp := sum;
    }

    method Bits(x: seq<bool>)
      requires Valid()
      modifies this
      ensures Valid() && Written(old(buf), old(writePos), EncodeLength(|x|) + EncodeBits(x), buf, writePos)
    {
      BeginSequence(|x|);
      hide Written, EncodeLength, Pack;
      ghost var done, b, p := EncodeLength(|x|), old(buf), old(writePos);
      var pos, blocks, block := 0, |x| / 8, 0;
      while block < blocks
        invariant block <= blocks && pos == 8 * block
        invariant Valid() && Written(b, p, done, buf, writePos)
        invariant done + EncodeBits(x[pos..]) == EncodeLength(|x|) + EncodeBits(x)
      {
        var tmp := Block(x, pos, pos + 8);
        ghost var b1, p1 := buf, writePos;
        ValueByte(tmp);
        Again(b, p, done, b1, p1, [tmp], buf, writePos);
        assert x[pos..][..8] == x[pos..pos + 8] && x[pos..][8..] == x[pos + 8..];
        Regroup(done, [tmp], EncodeBits(x[pos + 8..]));
        done := done + [tmp];
        pos, block := pos + 8, block + 1;
      }
      if |x| % 8 > 0 {
        var tmp := Block(x, pos, |x|);
        ghost var b1, p1 := buf, writePos;
        ValueByte(tmp);
        Again(b, p, done, b1, p1, [tmp], buf, writePos);
        assert x[pos..|x|] == x[pos..];
      } else {
        assert x[pos..] == [];
      }
    }

    method WideString(w: Width, cs: seq<int>)
      requires Valid() && Chars(w, cs)
      modifies this
      ensures Valid() && Written(old(buf), old(writePos), EncodeLength(|cs|) + EncodeChars(w, cs), buf, writePos)
    {
      BeginSequence(|cs|);
      hide Written, EncodeLength, EncodeInt, InRange;
      ghost var done, b, p := EncodeLength(|cs|), old(buf), old(writePos);
      for i := 0 to |cs|
        invariant Valid() && Written(b, p, done, buf, writePos)
        invariant done + EncodeChars(w, cs[i..]) == EncodeLength(|cs|) + EncodeChars(w, cs)
      {
        ghost var b1, p1 := buf, writePos;
        IntValue(w, false, cs[i]);
        Again(b, p, done, b1, p1, EncodeInt(w, false, cs[i]), buf, writePos);
        assert cs[i..][1..] == cs[i + 1..];
        Regroup(done, EncodeInt(w, false, cs[i]), EncodeChars(w, cs[i + 1..]));
        done := done + EncodeInt(w, false, cs[i]);
      }
    }

    /** Saves any value: all the branches and loops of the serializer and its inspector. */
    method Save(t: Type, v: Value)
      requires Valid() && HasType(t, v)
      modifies this
      ensures Valid() && Written(old(buf), old(writePos), Encode(t, v), buf, writePos)
      decreases t
    {
      match t
      case TBool => ValueByte(Bit(v.b));
      case TInt(w, s) => IntValue(w, s, v.i);
      case TString =>
        BeginSequence(|v.bytes|);
        ghost var b1, p1 := buf, writePos;
        ValueBytes(v.bytes);
        Again(old(buf), old(writePos), EncodeLength(|v.bytes|), b1, p1, v.bytes, buf, writePos);
      case TU16String => WideString(W2, v.chars);
      case TU32String => WideString(W4, v.chars);
      case TBits => Bits(v.bits);
      case TSeq(_) => SaveList(t, v.elems);
      case TMap(_, _) => SaveMap(t, v.entries);
      case TTuple(_) => SaveTuple(t, v.elems);
      case TOptional(_) => SaveOptional(t, v);
      case TVariant(alts) => SaveAlt(t, alts, v);
      case TOptVariant(alts) =>
        if v.VNone? {
          IntValue(IndexWidth(|alts|), true, -1);
        } else {
          SaveAlt(t, alts, v);
        }
    }

    method SaveOptional(t: Type, v: Value)
      requires Valid() && t.TOptional? && HasType(t, v)
      modifies this
      ensures Valid() && Written(old(buf), old(writePos), Encode(t, v), buf, writePos)
      decreases t, 0
    {
      ValueByte(Bit(v.VSome?));
      if v.VSome? {
        ghost var b1, p1 := buf, writePos;
        Save(t.inner, v.inner);
        Again(old(buf), old(writePos), [1], b1, p1, Encode(t.inner, v.inner), buf, writePos);
      }
    }

    method SaveAlt(t: Type, alts: seq<Type>, v: Value)
      requires Valid() && (t.TVariant? || t.TOptVariant?) && t.alts == alts
      requires v.VAlt? && IsIndex(|alts|, v.index) && HasType(alts[v.index], v.inner)
      modifies this
      ensures Valid() && Written(old(buf), old(writePos), EncodeAlt(t, alts, v), buf, writePos)
      decreases t, 0
    {
      IntValue(IndexWidth(|alts|), true, v.index);
      ghost var b1, p1 := buf, writePos;
      Save(alts[v.index], v.inner);
      Again(old(buf), old(writePos), EncodeInt(IndexWidth(|alts|), true, v.index), b1, p1, Encode(alts[v.index], v.inner), buf, writePos);
    }

    method SaveList(t: Type, vs: seq<Value>)
      requires Valid() && t.TSeq? && Elems(t, vs)
      modifies this
      ensures Valid() && Written(old(buf), old(writePos), EncodeLength(|vs|) + EncodeElems(t, vs, 0), buf, writePos)
      decreases t, 0
    {
      BeginSequence(|vs|);
      hide Written, EncodeLength, Encode, HasType;
      ghost var done, b, p := EncodeLength(|vs|), old(buf), old(writePos);
      for i := 0 to |vs|
        invariant Valid() && Written(b, p, done, buf, writePos)
        invariant done + EncodeElems(t, vs, i) == EncodeLength(|vs|) + EncodeElems(t, vs, 0)
      {
        ghost var b1, p1 := buf, writePos;
        Save(t.elem, vs[i]);
        Again(b, p, done, b1, p1, Encode(t.elem, vs[i]), buf, writePos);
        Regroup(done, Encode(t.elem, vs[i]), EncodeElems(t, vs, i + 1));
        done := done + Encode(t.elem, vs[i]);
      }
    }

    method SaveMap(t: Type, ps: seq<Pair>)
      requires Valid() && t.TMap? && Entries(t, ps)
      modifies this
      ensures Valid() && Written(old(buf), old(writePos), EncodeLength(|ps|) + EncodeEntries(t, ps, 0), buf, writePos)
      decreases t, 1
    {
      BeginSequence(|ps|);
      hide Written, EncodeLength, EncodeEntry, HasType;
      ghost var done, b, p := EncodeLength(|ps|), old(buf), old(writePos);
      for i := 0 to |ps|
        invariant Valid() && Written(b, p, done, buf, writePos)
        invariant done + EncodeEntries(t, ps, i) == EncodeLength(|ps|) + EncodeEntries(t, ps, 0)
      {
        ghost var b1, p1 := buf, writePos;
        SaveEntry(t, ps[i]);
        Again(b, p, done, b1, p1, EncodeEntry(t, ps[i]), buf, writePos);
        Regroup(done, EncodeEntry(t, ps[i]), EncodeEntries(t, ps, i + 1));
        done := done + EncodeEntry(t, ps[i]);
      }
    }

    method SaveEntry(t: Type, pair: Pair)
      requires Valid() && t.TMap? && HasType(t.key, pair.key) && HasType(t.value, pair.value)
      modifies this
      ensures Valid() && Written(old(buf), old(writePos), EncodeEntry(t, pair), buf, writePos)
      decreases t, 0
    {
      hide Encode, HasType, Written;
      Save(t.key, pair.key);
      ghost var b1, p1 := buf, writePos;
      Save(t.value, pair.value);
      Again(old(buf), old(writePos), Encode(t.key, pair.key), b1, p1, Encode(t.value, pair.value), buf, writePos);
    }

    method SaveTuple(t: Type, vs: seq<Value>)
      requires Valid() && t.TTuple? && |vs| == |t.elems| && Fields(t, vs)
      modifies this
      ensures Valid() && Written(old(buf), old(writePos), EncodeFields(t, vs, 0), buf, writePos)
      decreases t, 0
    {
      ghost var done: seq<Byte>, b, p := [], buf, writePos;
      assert Written(b, p, done, buf, writePos);
      hide Written, Encode, HasType;
      for i := 0 to |vs|
        invariant Valid() && Written(b, p, done, buf, writePos)
        invariant done + EncodeFields(t, vs, i) == EncodeFields(t, vs, 0)
      {
        ghost var b1, p1 := buf, writePos;
        Save(t.elems[i], vs[i]);
        Again(b, p, done, b1, p1, Encode(t.elems[i], vs[i]), buf, writePos);
        Regroup(done, Encode(t.elems[i], vs[i]), EncodeFields(t, vs, i + 1));
        done := done + Encode(t.elems[i], vs[i]);
      }
    }
  }

  /** The first bits of a block, shifted to where they belong. */
  function Scaled(x: seq<bool>, from: nat, pos: nat, to: nat): int
    requires from <= pos <= to <= |x|
  {
    Pack(x[from..pos]) * Pow2(to - pos)
  }

  lemma BlockEnds(x: seq<bool>, from: nat, to: nat)
    requires from <= to <= |x|
    ensures Scaled(x, from, from, to) == 0 && Scaled(x, from, to, to) == Pack(x[from..to])
  {
    assert Pack(x[from..from]) == 0 && Pow2(0) == 1;
  }

  /** Taking in one more bit of a block whose remaining bits are still zero. */
  lemma BlockStep(x: seq<bool>, from: nat, pos: nat, to: nat)
    requires from <= pos < to <= |x|
    ensures Scaled(x, from, pos + 1, to) == Scaled(x, from, pos, to) + if x[pos] then Pow2(to - pos - 1) else 0
    ensures pos + 1 < to ==> Pow2(to - pos - 1) / 2 == Pow2(to - (pos + 1) - 1)
  {
    assert x[from..pos + 1][..pos - from] == x[from..pos];
    PackStep(Pack(x[from..pos]), Bit(x[pos]), Pow2(to - pos - 1));
  }

  lemma PackStep(high: int, bit: int, unit: int)
    ensures high * (2 * unit) + bit * unit == (2 * high + bit) * unit
  {
  }

  // -- whole runs ---------------------------------------------------------------------------------------

  datatype Op = SeekTo(offset: nat) | SkipBytes(count: nat) | Put(bytes: seq<Byte>)

  datatype Buffer = Buffer(bytes: seq<Byte>, pos: nat)

  /** What `Seek`, `Skip` and the value functions do, on values. */
  function Effect(s: Buffer, op: Op): Buffer
    requires s.pos <= |s.bytes|
  {
    match op
    case SeekTo(o) => s.(pos := o)
    case SkipBytes(n) =>
      Buffer(s.bytes + Zeros(if |s.bytes| < s.pos + n then s.pos + n - |s.bytes| else 0), s.pos + n)
    case Put(xs) => Buffer(Splice(s.bytes, s.pos, xs), s.pos + |xs|)
  }

  /** The write position after some operations, and the size, without looking at any byte. */
  function PosAfter(start: nat, ops: seq<Op>): nat {
    if ops == [] then start
    else
      match ops[|ops| - 1]
      case SeekTo(o) => o
      case SkipBytes(n) => PosAfter(start, ops[..|ops| - 1]) + n
      case Put(xs) => PosAfter(start, ops[..|ops| - 1]) + |xs|
  }

  function SizeAfter(start: nat, ops: seq<Op>): nat {
    if ops == [] then start
    else
      var size := SizeAfter(start, ops[..|ops| - 1]);
      if PosAfter(start, ops) > size then PosAfter(start, ops) else size
  }

  /** What one cell holds: the byte that the last write covering it put there; otherwise the
      initial byte, or zero if it was not part of the initial buffer. */
  function CellAfter(start: seq<Byte>, ops: seq<Op>, k: nat): Byte {
    if ops == [] then if k < |start| then start[k] else 0
    else
      var before := ops[..|ops| - 1];
      match ops[|ops| - 1]
      case Put(xs) =>
        var pos := PosAfter(|start|, before);
        if pos <= k < pos + |xs| then xs[k - pos] else CellAfter(start, before, k)
      case _ => CellAfter(start, before, k)
  }

  ghost predicate SeeksInside(start: nat, ops: seq<Op>) {
    forall i :: 0 <= i < |ops| && ops[i].SeekTo? ==> ops[i].offset <= SizeAfter(start, ops[..i])
  }

  predicate Inside(s: Buffer) {
    s.pos <= |s.bytes|
  }

  predicate AllInside(run: seq<Buffer>) {
    forall i :: 0 <= i < |run| ==> Inside(run[i])
  }

  /** What happens to a buffer whose position is outside is not determined. */
  ghost predicate IsRun(run: seq<Buffer>, ops: seq<Op>) {
    && |run| == |ops| + 1
    && forall i :: 0 <= i < |ops| && Inside(run[i]) ==> run[i + 1] == Effect(run[i], ops[i])
  }

  /** In any run the position stays inside the buffer throughout exactly if all seeks go there.  Then
      every byte at its end is that of the last write that covered it. */
  lemma {:induction false} RunWritesCells(start: seq<Byte>, run: seq<Buffer>, ops: seq<Op>)
    requires IsRun(run, ops) && run[0] == Buffer(start, |start|)
    ensures SeeksInside(|start|, ops) <==> AllInside(run)
    ensures SeeksInside(|start|, ops) ==>
      var s := run[|ops|];
      && s.pos == PosAfter(|start|, ops) && |s.bytes| == SizeAfter(|start|, ops)
      && forall k :: 0 <= k < |s.bytes| ==> s.bytes[k] == CellAfter(start, ops, k)
  {
    if ops != [] {
      var n := |ops| - 1;
      var before, run' := ops[..n], run[..|ops|];
      RunWritesCells(start, run', before);
      SeeksBefore(|start|, ops);
      InsideBefore(run);
      if SeeksInside(|start|, before) {
        assert Inside(run'[n]) && run[n] == run'[n] && run[|ops|] == Effect(run[n], ops[n]);
        hide SeeksInside, IsRun, AllInside, Effect, Inside, CellAfter, PosAfter, SizeAfter;
        LastOp(start, run[n], ops);
      }
    }
  }

  lemma InsideBefore(run: seq<Buffer>)
    requires run != []
    ensures AllInside(run) <==> AllInside(run[..|run| - 1]) && Inside(run[|run| - 1])
  {
    var run' := run[..|run| - 1];
    assert forall i :: 0 <= i < |run'| ==> run[i] == run'[i];
  }

  lemma SeeksBefore(start: nat, ops: seq<Op>)
    requires ops != []
    ensures var n := |ops| - 1;
      SeeksInside(start, ops) <==>
        SeeksInside(start, ops[..n]) && (ops[n].SeekTo? ==> ops[n].offset <= SizeAfter(start, ops[..n]))
  {
    var n := |ops| - 1;
    var before := ops[..n];
    assert forall i :: 0 <= i < n ==> before[i] == ops[i] && before[..i] == ops[..i];
  }

  /** The last operation on a buffer that is as the ones before it left it. */
  lemma LastOp(start: seq<Byte>, s: Buffer, ops: seq<Op>)
    requires ops != [] && Inside(s)
    requires var before := ops[..|ops| - 1];
      && s.pos == PosAfter(|start|, before) && |s.bytes| == SizeAfter(|start|, before)
      && forall k :: 0 <= k < |s.bytes| ==> s.bytes[k] == CellAfter(start, before, k)
    ensures var n := |ops| - 1;
      var t := Effect(s, ops[n]);
      && (Inside(t) <==> (ops[n].SeekTo? ==> ops[n].offset <= SizeAfter(|start|, ops[..n])))
      && (Inside(t) ==>
           && t.pos == PosAfter(|start|, ops) && |t.bytes| == SizeAfter(|start|, ops)
           && forall k :: 0 <= k < |t.bytes| ==> t.bytes[k] == CellAfter(start, ops, k))
  {
    CellsPastTheEnd(start, ops[..|ops| - 1]);
  }

  /** Cells past the end are zero: that is what a skip past the end relies on. */
  lemma {:induction false} CellsPastTheEnd(start: seq<Byte>, ops: seq<Op>)
    ensures |start| <= SizeAfter(|start|, ops)
    ensures forall k :: k >= SizeAfter(|start|, ops) ==> CellAfter(start, ops, k) == 0
  {
    if ops != [] {
      CellsPastTheEnd(start, ops[..|ops| - 1]);
    }
  }
}
