/** The deserializer object: an input and a read position.  Its loops are proved to compute the
    decoding functions of the format, so that what holds of those holds of the object. */
module BinaryDeserializer {
  import opened BinaryFormat
  import opened BinaryCodec
  import Saving = BinarySerializer

  datatype Option<T> = Some(value: T) | None

  class BinaryDeserializer {
    const input: seq<Byte>
    var current: nat
    var err: Option<Error>

    predicate Valid()
      reads this
    {
      current <= |input|
    }

    function Remaining(): seq<Byte>
      requires Valid()
      reads this
    {
      input[current..]
    }

    /** An attempt to read gave what the format says. */
    ghost predicate Agrees<T>(x: Option<T>, r: Result<T>)
      reads this
    {
      && Valid()
      && match r
         case Ok(v, rest) => x == Some(v) && Remaining() == rest
         case Err(e) => x == None && err == Some(e)
    }

    constructor (bytes: seq<Byte>)
      ensures Valid() && input == bytes && Remaining() == bytes
    {
      input := bytes;
      current := 0;
      err := None;
    }

    method Byte1() returns (x: Option<Byte>)
      requires Valid()
      modifies this
      ensures Agrees(x, FirstByte(old(Remaining())))
    {
      if current + 1 <= |input| {
        x := Some(input[current]);
        current := current + 1;
      } else {
        err := Some(EndOfStream);
        x := None;
      }
    }

    method IntValue(w: Width, signed: bool) returns (x: Option<int>)
      requires Valid()
      modifies this
      ensures Agrees(x, DecodeInt(w, signed, old(Remaining())))
    {
      if current + Size(w) <= |input| {
        x := Some(UnsafeInt(w, signed));
        current := current + Size(w);
      } else {
        err := Some(EndOfStream);
        x := None;
      }
    }

    /** `unsafe_int_value`, without the advance. */
    function UnsafeInt(w: Width, signed: bool): (i: int)
      requires Valid() && current + Size(w) <= |input|
      reads this
      ensures Ok(i, input[current + Size(w)..]) == DecodeInt(w, signed, Remaining())
    {
      assert Remaining()[..Size(w)] == input[current..current + Size(w)];
      FromUnsigned(w, signed, FromBigEndian(input[current..current + Size(w)]))
    }

    method BeginSequence() returns (size: Option<nat>)
      requires Valid()
      modifies this
      ensures Agrees(size, DecodeLength(old(Remaining())))
    {
      var x: nat, n, more := 0, 0, true;
      while more
        invariant Valid()
        invariant more ==> DecodeLength(old(Remaining())) == DecodeLengthFrom(Remaining(), n, x)
        invariant !more ==> DecodeLength(old(Remaining())) == Ok(x, Remaining())
        decreases more, |input| - current
      {
        var low7 := Byte1();
        if low7.None? {
          return None;
        }
        if n >= 5 {
          err := Some(UndefinedShift);
          return None;
        }
        x := x + low7.value % 128 * Shift(n) % MAX_LENGTH;
        n := n + 1;
        more := low7.value >= 128;
      }
      return Some(x);
    }

    method String() returns (x: Option<Value>)
      requires Valid()
      modifies this
      ensures Agrees(x, Decode(TString, old(Remaining())))
    {
      var size := BeginSequence();
      if size.None? {
        return None;
      }
      if current + size.value > |input| {
        err := Some(EndOfStream);
        return None;
      }
      assert Remaining()[..size.value] == input[current..current + size.value];
      x := Some(VString(input[current..current + size.value]));
      current := current + size.value;
    }

    method WideString(w: Width) returns (x: Option<Value>)
      requires Valid() && (w.W2? || w.W4?)
      modifies this
      ensures Agrees(x, Decode(if w.W2? then TU16String else TU32String, old(Remaining())))
    {
      var size := BeginSequence();
      if size.None? {
        return None;
      }
      var n := size.value;
      if current + Span(w, n) > |input| {
        err := Some(EndOfStream);
        return None;
      }
      var cs := ReadWide(w, n);
      x := Some(VWide(cs));
    }

    /** The loop over the characters, after the range check. */
    method ReadWide(w: Width, n: nat) returns (cs: seq<int>)
      requires Valid() && Span(w, n) <= |Remaining()|
      modifies this
      ensures Valid() && cs == ReadChars(w, n, old(Remaining())) && Remaining() == old(Remaining())[Span(w, n)..]
    {
      hide FromUnsigned, DecodeInt, Span, Size, ReadChars;
      cs := [];
      ghost var bs, end := Remaining(), current + Span(w, n);
      var i := 0;
      while i < n
        invariant i <= n && current + Span(w, n - i) == end <= |input|
        invariant cs + ReadChars(w, n - i, Remaining()) == ReadChars(w, n, bs)
      {
        SpanStep(w, n - i - 1);
        ghost var before := Remaining();
        ReadOne(w, n - i, before);
        cs := cs + [UnsafeInt(w, false)];
        current := current + Size(w);
        assert Remaining() == before[Size(w)..];
        i := i + 1;
      }
      SpanStep(w, 0);
    }

    method Bits() returns (x: Option<Value>)
      requires Valid()
      modifies this
      ensures Agrees(x, Decode(TBits, old(Remaining())))
    {
      var len := BeginSequence();
      if len.None? {
        return None;
      }
      ghost var bs := Remaining();
      var bits: seq<bool>, n := [], len.value;
      var blocks, block := n / 8, 0;
      hide DecodeBits, Unpack, DecodeLength, VarBytes;
      while block < blocks
        invariant Valid() && block <= blocks
        invariant DecodeBits(n, bs, []) == DecodeBits(n - 8 * block, Remaining(), bits)
      {
        BitsUnfold(n - 8 * block, Remaining(), bits);
        var tmp := Byte1();
        if tmp.None? {
          return None;
        }
        bits := bits + Unpack(8, tmp.value);
        block := block + 1;
      }
      BitsUnfold(n - 8 * block, Remaining(), bits);
      if n % 8 > 0 {
        var tmp := Byte1();
        if tmp.None? {
          return None;
        }
        bits := bits + Unpack(n % 8, tmp.value);
      }
      x := Some(VBits(bits));
    }

    /** Loads any value: all the branches and loops of the deserializer and its inspector. */
    method Load(t: Type) returns (x: Option<Value>)
      requires Valid()
      modifies this
      ensures Agrees(x, Decode(t, old(Remaining())))
      decreases t
    {
      match t
      case TBool =>
        var b := Byte1();
        x := if b.None? then None else Some(VBool(b.value != 0));
      case TInt(w, s) =>
        var i := IntValue(w, s);
        x := if i.None? then None else Some(VInt(i.value));
      case TString => x := String();
      case TU16String => x := WideString(W2);
      case TU32String => x := WideString(W4);
      case TBits => x := Bits();
      case TSeq(_) => x := LoadList(t);
      case TMap(_, _) => x := LoadMap(t);
      case TTuple(_) => x := LoadTuple(t);
      case TOptional(e) => x := LoadOptional(t);
      case TVariant(alts) => x := LoadAlt(t, alts);
      case TOptVariant(alts) => x := LoadAlt(t, alts);
    }

    method LoadOptional(t: Type) returns (x: Option<Value>)
      requires Valid() && t.TOptional?
      modifies this
      ensures Agrees(x, Decode(t, old(Remaining())))
      decreases t, 0
    {
      var isPresent := Byte1();
      if isPresent.None? {
        return None;
      }
      if isPresent.value == 0 {
        return Some(VNone);
      }
      var v := Load(t.inner);
      x := if v.None? then None else Some(VSome(v.value));
    }

    method LoadAlt(t: Type, alts: seq<Type>) returns (x: Option<Value>)
      requires Valid() && (t.TVariant? || t.TOptVariant?) && t.alts == alts
      modifies this
      ensures Agrees(x, DecodeAlt(t, alts, old(Remaining())))
      decreases t, 0
    {
      var index := IntValue(IndexWidth(|alts|), true);
      if index.None? {
        return None;
      }
      if index.value < 0 && t.TOptVariant? {
        return Some(VNone);
      }
      if index.value < 0 || index.value >= |alts| {
        err := Some(InvalidFieldType);
        return None;
      }
      var v := Load(alts[index.value]);
      x := if v.None? then None else Some(VAlt(index.value, v.value));
    }

    method LoadList(t: Type) returns (x: Option<Value>)
      requires Valid() && t.TSeq?
      modifies this
      ensures Agrees(x, Decode(t, old(Remaining())))
      decreases t, 0
    {
      var size := BeginSequence();
      if size.None? {
        return None;
      }
      ghost var bs := Remaining();
      assert Decode(t, old(Remaining())) == DecodeElems(t, size.value, bs, []);
      hide Decode;
      var xs: seq<Value> := [];
      for i := 0 to size.value
        invariant Valid()
        invariant DecodeElems(t, size.value, bs, []) == DecodeElems(t, size.value - i, Remaining(), xs)
      {
        var v := Load(t.elem);
        if v.None? {
          return None;
        }
        xs := xs + [v.value];
      }
      x := Some(VSeq(xs));
    }

    method LoadMap(t: Type) returns (x: Option<Value>)
      requires Valid() && t.TMap?
      modifies this
      ensures Agrees(x, Decode(t, old(Remaining())))
      decreases t, 0
    {
      var size := BeginSequence();
      if size.None? {
        return None;
      }
      ghost var bs := Remaining();
      assert Decode(t, old(Remaining())) == DecodeEntries(t, size.value, bs, []);
      hide Decode, HasKey;
      var xs: seq<Pair> := [];
      for i := 0 to size.value
        invariant Valid()
        invariant DecodeEntries(t, size.value, bs, []) == DecodeEntries(t, size.value - i, Remaining(), xs)
      {
        var key := Load(t.key);
        if key.None? {
          return None;
        }
        var val := Load(t.value);
        if val.None? {
          return None;
        }
        if HasKey(xs, key.value) {
          err := Some(MultipleKeys);
          return None;
        }
        xs := xs + [Pair(key.value, val.value)];
      }
      x := Some(VMap(xs));
    }

    method LoadTuple(t: Type) returns (x: Option<Value>)
      requires Valid() && t.TTuple?
      modifies this
      ensures Agrees(x, Decode(t, old(Remaining())))
      decreases t, 0
    {
      assert Decode(t, Remaining()) == DecodeFields(t, Remaining(), []);
      hide Decode;
      var xs: seq<Value> := [];
      for i := 0 to |t.elems|
        invariant Valid() && |xs| == i
        invariant DecodeFields(t, old(Remaining()), []) == DecodeFields(t, Remaining(), xs)
      {
        var v := Load(t.elems[i]);
        if v.None? {
          return None;
        }
        xs := xs + [v.value];
      }
      x := Some(VTuple(xs));
    }
  }

  lemma ReadOne(w: Width, n: nat, bs: seq<Byte>)
    requires n > 0 && Span(w, n) <= |bs|
    ensures |bs| >= Size(w) && Span(w, n - 1) <= |bs[Size(w)..]|
    ensures ReadChars(w, n, bs) == [DecodeInt(w, false, bs).value] + ReadChars(w, n - 1, bs[Size(w)..])
  {
  }

  function FirstByte(bs: seq<Byte>): Result<Byte> {
    if bs == [] then Err(EndOfStream) else Ok(bs[0], bs[1..])
  }

  /** Both objects in sequence: what was appended to a buffer is loaded from there. */
  method SaveThenLoad(t: Type, v: Value, before: seq<Byte>) returns (x: Option<Value>)
    requires HasType(t, v)
    ensures x == Some(v)
  {
    var sink := new Saving.BinarySerializer(before);
    sink.Save(t, v);
    var source := new BinaryDeserializer(sink.buf[|before|..]);
    assert source.input == Encode(t, v) + [];
    RoundTrip(t, v, []);
    x := source.Load(t);
  }
}
