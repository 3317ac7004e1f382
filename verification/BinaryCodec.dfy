/** The default binary format of whole values: what the serializer emits for a value of a type
    and what the deserializer makes of it.  Types and values mirror what inspectors can pass on;
    objects and tuples add no bytes of their own. */
module BinaryCodec {
  import opened BinaryFormat

  datatype Type =
    | TBool
    | TInt(width: Width, signed: bool)
    | TString | TU16String | TU32String
    | TBits                              // std::vector<bool>
    | TSeq(elem: Type)
    | TMap(key: Type, value: Type)
    | TTuple(elems: seq<Type>)           // tuples and the fields of objects
    | TOptional(inner: Type)
    | TVariant(alts: seq<Type>)
    | TOptVariant(alts: seq<Type>)

  datatype Pair = Pair(key: Value, value: Value)

  datatype Value =
    | VBool(b: bool)
    | VInt(i: int)
    | VString(bytes: seq<Byte>)
    | VWide(chars: seq<int>)             // u16 and u32 strings
    | VBits(bits: seq<bool>)
    | VSeq(elems: seq<Value>)
    | VMap(entries: seq<Pair>)
    | VTuple(elems: seq<Value>)
    | VNone
    | VSome(inner: Value)
    | VAlt(index: nat, inner: Value)

  /** Variant indexes are signed: the width leaves room for -1, the absent optional variant. */
  function IndexWidth(n: nat): Width {
    if n < 0x7f then W1 else if n < 0x7fff then W2 else if n < 0x7fff_ffff then W4 else W8
  }

  predicate IsIndex(n: nat, i: int) {
    0 <= i < n && InRange(IndexWidth(n), true, i)
  }

  predicate DistinctKeys(ps: seq<Pair>) {
    forall i, j :: 0 <= i < j < |ps| ==> ps[i].key != ps[j].key
  }

  predicate HasKey(ps: seq<Pair>, k: Value) {
    exists i :: 0 <= i < |ps| && ps[i].key == k
  }

  /** The values a C++ object of the type can have, lengths being below 2^32. */
  predicate HasType(t: Type, v: Value)
    decreases t
  {
    match t
    case TBool => v.VBool?
    case TInt(w, s) => v.VInt? && InRange(w, s, v.i)
    case TString => v.VString? && |v.bytes| < MAX_LENGTH
    case TU16String => v.VWide? && |v.chars| < MAX_LENGTH && Chars(W2, v.chars)
    case TU32String => v.VWide? && |v.chars| < MAX_LENGTH && Chars(W4, v.chars)
    case TBits => v.VBits? && |v.bits| < MAX_LENGTH
    case TSeq(e) => v.VSeq? && |v.elems| < MAX_LENGTH && Elems(t, v.elems)
    case TMap(k, m) => v.VMap? && |v.entries| < MAX_LENGTH && DistinctKeys(v.entries) && Entries(t, v.entries)
    case TTuple(ts) => v.VTuple? && |v.elems| == |ts| && Fields(t, v.elems)
    case TOptional(e) => v.VNone? || (v.VSome? && HasType(e, v.inner))
    case TVariant(alts) => v.VAlt? && IsIndex(|alts|, v.index) && HasType(alts[v.index], v.inner)
    case TOptVariant(alts) => v.VNone? || (v.VAlt? && IsIndex(|alts|, v.index) && HasType(alts[v.index], v.inner))
  }

  predicate Elems(t: Type, vs: seq<Value>)
    requires t.TSeq?
    decreases t, 0
  {
    forall i :: 0 <= i < |vs| ==> HasType(t.elem, vs[i])
  }

  predicate Entries(t: Type, ps: seq<Pair>)
    requires t.TMap?
    decreases t, 0
  {
    forall i :: 0 <= i < |ps| ==> HasType(t.key, ps[i].key) && HasType(t.value, ps[i].value)
  }

  /** The first fields of a tuple. */
  predicate Fields(t: Type, vs: seq<Value>)
    requires t.TTuple? && |vs| <= |t.elems|
    decreases t, 0
  {
    forall i :: 0 <= i < |vs| ==> HasType(t.elems[i], vs[i])
  }

  // -- writing --------------------------------------------------------------------------------------

  function Encode(t: Type, v: Value): seq<Byte>
    requires HasType(t, v)
    decreases t
  {
    match t
    case TBool => [Bit(v.b)]
    case TInt(w, s) => EncodeInt(w, s, v.i)
    case TString => EncodeLength(|v.bytes|) + v.bytes
    case TU16String => EncodeLength(|v.chars|) + EncodeChars(W2, v.chars)
    case TU32String => EncodeLength(|v.chars|) + EncodeChars(W4, v.chars)
    case TBits => EncodeLength(|v.bits|) + EncodeBits(v.bits)
    case TSeq(_) => EncodeLength(|v.elems|) + EncodeElems(t, v.elems, 0)
    case TMap(_, _) => EncodeLength(|v.entries|) + EncodeEntries(t, v.entries, 0)
    case TTuple(_) => EncodeFields(t, v.elems, 0)
    case TOptional(e) => if v.VNone? then [0] else [1] + Encode(e, v.inner)
    case TVariant(alts) => EncodeAlt(t, alts, v)
    case TOptVariant(alts) => if v.VNone? then EncodeInt(IndexWidth(|alts|), true, -1) else EncodeAlt(t, alts, v)
  }

  function EncodeAlt(t: Type, alts: seq<Type>, v: Value): seq<Byte>
    requires (t.TVariant? || t.TOptVariant?) && t.alts == alts
    requires v.VAlt? && IsIndex(|alts|, v.index) && HasType(alts[v.index], v.inner)
    decreases t, 0
  {
    EncodeInt(IndexWidth(|alts|), true, v.index) + Encode(alts[v.index], v.inner)
  }

  function EncodeElems(t: Type, vs: seq<Value>, i: nat): seq<Byte>
    requires t.TSeq? && Elems(t, vs) && i <= |vs|
    decreases t, |vs| - i
  {
    if i == |vs| then [] else Encode(t.elem, vs[i]) + EncodeElems(t, vs, i + 1)
  }

  function EncodeEntries(t: Type, ps: seq<Pair>, i: nat): seq<Byte>
    requires t.TMap? && Entries(t, ps) && i <= |ps|
    decreases t, |ps| - i
  {
    if i == |ps| then [] else EncodeEntry(t, ps[i]) + EncodeEntries(t, ps, i + 1)
  }

  function EncodeEntry(t: Type, p: Pair): seq<Byte>
    requires t.TMap? && HasType(t.key, p.key) && HasType(t.value, p.value)
    decreases t, 0
  {
    Encode(t.key, p.key) + Encode(t.value, p.value)
  }

  function EncodeFields(t: Type, vs: seq<Value>, i: nat): seq<Byte>
    requires t.TTuple? && i <= |vs| == |t.elems| && Fields(t, vs)
    decreases t, |vs| - i
  {
    if i == |vs| then [] else Encode(t.elems[i], vs[i]) + EncodeFields(t, vs, i + 1)
  }

  // -- reading --------------------------------------------------------------------------------------

  function Decode(t: Type, bs: seq<Byte>): Result<Value>
    decreases t
  {
    match t
    case TBool => if bs == [] then Err(EndOfStream) else Ok(VBool(bs[0] != 0), bs[1..])
    case TInt(w, s) => Map(DecodeInt(w, s, bs), i => VInt(i))
    case TOptional(e) =>
      if bs == [] then Err(EndOfStream)
      else if bs[0] == 0 then Ok(VNone, bs[1..])
      else Map(Decode(e, bs[1..]), v => VSome(v))
    case TTuple(_) => DecodeFields(t, bs, [])
    case TVariant(alts) => DecodeAlt(t, alts, bs)
    case TOptVariant(alts) => DecodeAlt(t, alts, bs)
    case _ =>
      var n := DecodeLength(bs);
      if n.Err? then Err(n.error) else DecodeBody(t, n.value, n.rest)
  }

  /** What follows a length. */
  function DecodeBody(t: Type, n: nat, bs: seq<Byte>): Result<Value>
    requires t.TString? || t.TU16String? || t.TU32String? || t.TBits? || t.TSeq? || t.TMap?
    decreases t, n + 1
  {
    match t
    case TString => if |bs| < n then Err(EndOfStream) else Ok(VString(bs[..n]), bs[n..])
    case TU16String => Map(DecodeChars(W2, n, bs), cs => VWide(cs))
    case TU32String => Map(DecodeChars(W4, n, bs), cs => VWide(cs))
    case TBits => Map(DecodeBits(n, bs, []), x => VBits(x))
    case TSeq(_) => DecodeElems(t, n, bs, [])
    case TMap(_, _) => DecodeEntries(t, n, bs, [])
  }

  function Map<A, B>(r: Result<A>, f: A -> B): Result<B> {
    match r
    case Ok(x, rest) => Ok(f(x), rest)
    case Err(e) => Err(e)
  }

  /** A negative index is an absent value if the field is optional and an error otherwise. */
  function DecodeAlt(t: Type, alts: seq<Type>, bs: seq<Byte>): Result<Value>
    requires (t.TVariant? || t.TOptVariant?) && t.alts == alts
    decreases t, 0
  {
    match DecodeInt(IndexWidth(|alts|), true, bs)
    case Err(e) => Err(e)
    case Ok(i, rest) =>
      if i < 0 && t.TOptVariant? then Ok(VNone, rest)
      else if i < 0 || i >= |alts| then Err(InvalidFieldType)
      else Map(Decode(alts[i], rest), v => VAlt(i, v))
  }

  function DecodeElems(t: Type, n: nat, bs: seq<Byte>, acc: seq<Value>): Result<Value>
    requires t.TSeq?
    decreases t, n
  {
    if n == 0 then Ok(VSeq(acc), bs)
    else
      var r := Decode(t.elem, bs);
      if r.Err? then Err(r.error) else DecodeElems(t, n - 1, r.rest, acc + [r.value])
  }

  /** A key that occurs twice is noticed only after its value was loaded. */
  function DecodeEntries(t: Type, n: nat, bs: seq<Byte>, acc: seq<Pair>): Result<Value>
    requires t.TMap?
    decreases t, n
  {
    if n == 0 then Ok(VMap(acc), bs)
    else
      var k := Decode(t.key, bs);
      if k.Err? then Err(k.error)
      else
        var v := Decode(t.value, k.rest);
        if v.Err? then Err(v.error)
        else if HasKey(acc, k.value) then Err(MultipleKeys)
        else DecodeEntries(t, n - 1, v.rest, acc + [Pair(k.value, v.value)])
  }

  function DecodeFields(t: Type, bs: seq<Byte>, acc: seq<Value>): Result<Value>
    requires t.TTuple? && |acc| <= |t.elems|
    decreases t, |t.elems| - |acc|
  {
    if |acc| == |t.elems| then Ok(VTuple(acc), bs)
    else
      var r := Decode(t.elems[|acc|], bs);
      if r.Err? then Err(r.error) else DecodeFields(t, r.rest, acc + [r.value])
  }

  // -- reading undoes writing -----------------------------------------------------------------------

  /** Decoding an encoded value followed by anything gives the value and leaves exactly the rest. */
  lemma {:induction false} RoundTrip(t: Type, v: Value, rest: seq<Byte>)
    requires HasType(t, v)
    ensures Decode(t, Encode(t, v) + rest) == Ok(v, rest)
    decreases t
  {
    hide EncodeElems, EncodeEntries, EncodeFields, DecodeElems, DecodeEntries, DecodeFields, EncodeAlt, DecodeAlt,
      DecodeLength, EncodeLength, EncodeInt, DecodeInt, EncodeChars, DecodeChars, EncodeBits, DecodeBits, DecodeBody;
    match t
    case TBool =>
    case TInt(w, s) => IntRoundTrip(w, s, v.i, rest);
    case TTuple(_) => FieldsRoundTrip(t, v.elems, 0, rest);
    case TOptional(e) => OptionalRoundTrip(t, v, rest);
    case TVariant(alts) => AltRoundTrip(t, alts, v, rest);
    case TOptVariant(alts) => if v.VNone? { AbsentRoundTrip(t, alts, rest); } else { AltRoundTrip(t, alts, v, rest); }
    case _ => BodyRoundTrip(t, v, rest);
  }

  function Length(v: Value): nat
    requires v.VString? || v.VWide? || v.VBits? || v.VSeq? || v.VMap?
  {
    match v
    case VString(bytes) => |bytes|
    case VWide(cs) => |cs|
    case VBits(bits) => |bits|
    case VSeq(vs) => |vs|
    case VMap(ps) => |ps|
  }

  function Body(t: Type, v: Value): seq<Byte>
    requires t.TString? || t.TU16String? || t.TU32String? || t.TBits? || t.TSeq? || t.TMap?
    requires HasType(t, v)
  {
    match t
    case TString => v.bytes
    case TU16String => EncodeChars(W2, v.chars)
    case TU32String => EncodeChars(W4, v.chars)
    case TBits => EncodeBits(v.bits)
    case TSeq(_) => EncodeElems(t, v.elems, 0)
    case TMap(_, _) => EncodeEntries(t, v.entries, 0)
  }

  lemma {:induction false} BodyRoundTrip(t: Type, v: Value, rest: seq<Byte>)
    requires t.TString? || t.TU16String? || t.TU32String? || t.TBits? || t.TSeq? || t.TMap?
    requires HasType(t, v)
    ensures Decode(t, Encode(t, v) + rest) == Ok(v, rest)
    decreases t, 2
  {
    hide EncodeElems, EncodeEntries, DecodeElems, DecodeEntries, DecodeLength, EncodeLength, EncodeChars, DecodeChars,
      EncodeBits, DecodeBits;
    var n, body := Length(v), Body(t, v);
    assert n < MAX_LENGTH && Encode(t, v) == EncodeLength(n) + body;
    assert Encode(t, v) + rest == EncodeLength(n) + (body + rest);
    LengthRoundTrip(n, body + rest);
    assert Decode(t, Encode(t, v) + rest) == DecodeBody(t, n, body + rest);
    match t
    case TString => assert (body + rest)[..n] == body && (body + rest)[n..] == rest;
    case TU16String => CharsRoundTrip(W2, v.chars, rest);
    case TU32String => CharsRoundTrip(W4, v.chars, rest);
    case TBits => BitsRoundTrip(v.bits, [], rest); assert [] + v.bits == v.bits;
    case TSeq(_) => ElemsRoundTrip(t, v.elems, 0, rest);
    case TMap(_, _) => EntriesRoundTrip(t, v.entries, 0, rest);
  }

  lemma {:induction false} OptionalRoundTrip(t: Type, v: Value, rest: seq<Byte>)
    requires t.TOptional? && HasType(t, v)
    ensures Decode(t, Encode(t, v) + rest) == Ok(v, rest)
    decreases t, 0
  {
    hide EncodeInt, DecodeInt, DecodeLength, DecodeBody, DecodeFields, DecodeAlt;
    if v.VSome? {
      RoundTrip(t.inner, v.inner, rest);
      var bs := Encode(t, v) + rest;
      assert bs[0] == 1 && bs[1..] == Encode(t.inner, v.inner) + rest;
    }
  }

  lemma {:induction false} AltRoundTrip(t: Type, alts: seq<Type>, v: Value, rest: seq<Byte>)
    requires (t.TVariant? || t.TOptVariant?) && t.alts == alts
    requires v.VAlt? && IsIndex(|alts|, v.index) && HasType(alts[v.index], v.inner)
    ensures DecodeAlt(t, alts, EncodeAlt(t, alts, v) + rest) == Ok(v, rest)
    decreases t, 0
  {
    hide EncodeInt, DecodeInt, IndexWidth, Encode, Decode, HasType, InRange;
    var w, inner := IndexWidth(|alts|), Encode(alts[v.index], v.inner);
    IntRoundTrip(w, true, v.index, inner + rest);
    assert EncodeAlt(t, alts, v) + rest == EncodeInt(w, true, v.index) + (inner + rest);
    RoundTrip(alts[v.index], v.inner, rest);
  }

  lemma AbsentRoundTrip(t: Type, alts: seq<Type>, rest: seq<Byte>)
    requires t.TOptVariant? && t.alts == alts
    ensures DecodeAlt(t, alts, EncodeInt(IndexWidth(|alts|), true, -1) + rest) == Ok(VNone, rest)
  {
    IntRoundTrip(IndexWidth(|alts|), true, -1, rest);
  }

  lemma {:induction false} ElemsRoundTrip(t: Type, vs: seq<Value>, i: nat, rest: seq<Byte>)
    requires t.TSeq? && Elems(t, vs) && i <= |vs|
    ensures DecodeElems(t, |vs| - i, EncodeElems(t, vs, i) + rest, vs[..i]) == Ok(VSeq(vs), rest)
    decreases t, 1, |vs| - i
  {
    if i == |vs| {
      assert vs[..i] == vs && EncodeElems(t, vs, i) + rest == rest;
    } else {
      hide Encode, Decode, HasType;
      var tail := EncodeElems(t, vs, i + 1) + rest;
      assert EncodeElems(t, vs, i) + rest == Encode(t.elem, vs[i]) + tail;
      RoundTrip(t.elem, vs[i], tail);
      assert vs[..i] + [vs[i]] == vs[..i + 1];
      ElemsRoundTrip(t, vs, i + 1, rest);
    }
  }

  lemma {:induction false} EntriesRoundTrip(t: Type, ps: seq<Pair>, i: nat, rest: seq<Byte>)
    requires t.TMap? && Entries(t, ps) && DistinctKeys(ps) && i <= |ps|
    ensures DecodeEntries(t, |ps| - i, EncodeEntries(t, ps, i) + rest, ps[..i]) == Ok(VMap(ps), rest)
    decreases t, 1, |ps| - i
  {
    hide Encode, EncodeEntry, Decode, HasType;
    if i == |ps| {
      assert ps[..i] == ps && EncodeEntries(t, ps, i) + rest == rest;
    } else {
      assert !HasKey(ps[..i], ps[i].key);
      assert ps[..i] + [ps[i]] == ps[..i + 1];
      EntryRoundTrip(t, ps, i, rest);
      hide EncodeEntries, DecodeEntries;
      EntriesRoundTrip(t, ps, i + 1, rest);
    }
  }

  /** Reading one pair of a map. */
  lemma {:induction false} EntryRoundTrip(t: Type, ps: seq<Pair>, i: nat, rest: seq<Byte>)
    requires t.TMap? && Entries(t, ps) && i < |ps| && !HasKey(ps[..i], ps[i].key)
    ensures DecodeEntries(t, |ps| - i, EncodeEntries(t, ps, i) + rest, ps[..i])
         == DecodeEntries(t, |ps| - i - 1, EncodeEntries(t, ps, i + 1) + rest, ps[..i] + [ps[i]])
    decreases t, 0
  {
    var tail := EncodeEntries(t, ps, i + 1) + rest;
    var value := Encode(t.value, ps[i].value);
    assert EncodeEntries(t, ps, i) + rest == Encode(t.key, ps[i].key) + (value + tail);
    hide Encode, Decode, HasType, HasKey, EncodeEntries;
    RoundTrip(t.key, ps[i].key, value + tail);
    RoundTrip(t.value, ps[i].value, tail);
    assert Pair(ps[i].key, ps[i].value) == ps[i];
  }

  lemma {:induction false} FieldsRoundTrip(t: Type, vs: seq<Value>, i: nat, rest: seq<Byte>)
    requires t.TTuple? && i <= |vs| == |t.elems| && Fields(t, vs)
    ensures DecodeFields(t, EncodeFields(t, vs, i) + rest, vs[..i]) == Ok(VTuple(vs), rest)
    decreases t, 1, |vs| - i
  {
    if i == |vs| {
      assert vs[..i] == vs && EncodeFields(t, vs, i) + rest == rest;
    } else {
      hide Encode, Decode, HasType;
      var tail := EncodeFields(t, vs, i + 1) + rest;
      assert EncodeFields(t, vs, i) + rest == Encode(t.elems[i], vs[i]) + tail;
      RoundTrip(t.elems[i], vs[i], tail);
      assert vs[..i] + [vs[i]] == vs[..i + 1];
      FieldsRoundTrip(t, vs, i + 1, rest);
    }
  }

  /** No encoding is a proper prefix of another one of the same type, and values differ when
      their encodings do. */
  lemma PrefixFree(t: Type, v: Value, w: Value, r: seq<Byte>, s: seq<Byte>)
    requires HasType(t, v) && HasType(t, w)
    requires Encode(t, v) + r == Encode(t, w) + s
    ensures v == w && r == s
  {
    RoundTrip(t, v, r);
    RoundTrip(t, w, s);
  }

  // -- the index of a variant ----------------------------------------------------------------------------

  /** One byte for less than 127 alternatives, otherwise two, four or eight. */
  function IndexSize(n: nat): nat {
    if n < 127 then 1 else if n < 32767 then 2 else if n < 2147483647 then 4 else 8
  }

  lemma PresentIndex(n: nat, i: nat)
    requires IsIndex(n, i)
    ensures EncodeInt(IndexWidth(n), true, i) == BigEndian(IndexSize(n), i)
    ensures n < 127 ==> BigEndian(IndexSize(n), i) == [i]
    ensures 127 <= n < 32767 ==> BigEndian(IndexSize(n), i) == [i / 256, i % 256]
  {
    ShortIndex(i);
    hide BigEndian;
    assert Size(IndexWidth(n)) == IndexSize(n) && ToUnsigned(IndexWidth(n), i) == i;
  }

  lemma {:induction false} ShortIndex(i: nat)
    ensures i < 256 ==> BigEndian(1, i) == [i]
    ensures i < 65536 ==> BigEndian(2, i) == [i / 256, i % 256]
  {
    LastByte(1, i);
    LastByte(2, i);
    LastByte(1, i / 256);
    hide BigEndian;
  }

  // The least significant byte comes last; nothing is left of a number after its last byte.
  lemma LastByte(n: nat, i: nat)
    requires n > 0
    ensures BigEndian(n, i) == (if n == 1 then [] else BigEndian(n - 1, i / 256)) + [i % 256]
  {
    assert n == 1 ==> BigEndian(n - 1, i / 256) == [];
  }

  /** So many bytes of eight ones. */
  predicate IsOnes(bs: seq<Byte>, n: nat) {
    |bs| == n && forall k :: 0 <= k < n ==> bs[k] == 255
  }

  lemma AbsentIndex(n: nat)
    ensures IsOnes(EncodeInt(IndexWidth(n), true, -1), IndexSize(n))
  {
    AllOnes(IndexSize(n));
    RangeIsPow(IndexWidth(n));
  }

  /** The bytes before an alternative are its index in as many bytes as the number of alternatives
      asks for; all of them are 255 for an absent value, and nothing follows. */
  lemma IndexBytes(t: Type, v: Value)
    requires (t.TVariant? || t.TOptVariant?) && HasType(t, v)
    ensures v.VAlt? ==> HasType(t.alts[v.index], v.inner)
    ensures v.VAlt? ==> Encode(t, v) == BigEndian(IndexSize(|t.alts|), v.index) + Encode(t.alts[v.index], v.inner)
    ensures v.VAlt? && |t.alts| < 127 ==> Encode(t, v) == [v.index] + Encode(t.alts[v.index], v.inner)
    ensures v.VAlt? && 127 <= |t.alts| < 32767 ==>
      Encode(t, v) == [v.index / 256, v.index % 256] + Encode(t.alts[v.index], v.inner)
    ensures !v.VAlt? ==> IsOnes(Encode(t, v), IndexSize(|t.alts|))
  {
    hide EncodeInt, BigEndian, IndexWidth, InRange, IndexSize;
    if v.VAlt? {
      PresentIndex(|t.alts|, v.index);
      assert Encode(t, v) == EncodeAlt(t, t.alts, v);
    } else {
      AbsentIndex(|t.alts|);
    }
  }

  lemma {:induction false} AllOnes(n: nat)
    ensures IsOnes(BigEndian(n, Pow256(n) - 1), n)
  {
    if n > 0 {
      AllOnes(n - 1);
      assert (Pow256(n) - 1) / 256 == Pow256(n - 1) - 1;
    }
  }

  // -- whatever the input, the deserializer produces values of the type -------------------------------

  predicate Sound(t: Type, bs: seq<Byte>, r: Result<Value>) {
    r.Ok? ==> HasType(t, r.value) && IsSuffix(r.rest, bs)
  }

  /** On any input, an accepted value has the type and what is left is a suffix of the input. */
  lemma {:induction false} DecodeSound(t: Type, bs: seq<Byte>)
    ensures Sound(t, bs, Decode(t, bs))
    decreases t
  {
    hide DecodeElems, DecodeEntries, DecodeFields, DecodeAlt, DecodeLength, DecodeInt, DecodeChars, DecodeBits,
      DecodeBody, InRange;
    match t
    case TBool =>
    case TInt(w, s) => IntSound(w, s, bs);
    case TTuple(_) => FieldsSound(t, bs, []);
    case TOptional(e) => if bs != [] { DecodeSound(e, bs[1..]); }
    case TVariant(alts) => AltSound(t, alts, bs);
    case TOptVariant(alts) => AltSound(t, alts, bs);
    case _ =>
      var n := DecodeLength(bs);
      if n.Ok? {
        LengthSound(bs);
        BodySound(t, n.value, n.rest);
        if DecodeBody(t, n.value, n.rest).Ok? {
          SuffixTransitive(DecodeBody(t, n.value, n.rest).rest, n.rest, bs);
        }
      }
  }

  lemma IntSound(w: Width, s: bool, bs: seq<Byte>)
    ensures var r := DecodeInt(w, s, bs);
      r.Ok? ==> InRange(w, s, r.value) && IsSuffix(r.rest, bs)
  {
    if |bs| >= Size(w) {
      IntInRange(w, s, bs);
    }
  }

  lemma LengthSound(bs: seq<Byte>)
    ensures var r := DecodeLength(bs);
      r.Ok? ==> r.value < MAX_LENGTH && IsSuffix(r.rest, bs)
  {
    LengthBound(bs, 0, 0);
  }

  lemma {:induction false} BodySound(t: Type, n: nat, bs: seq<Byte>)
    requires t.TString? || t.TU16String? || t.TU32String? || t.TBits? || t.TSeq? || t.TMap?
    requires n < MAX_LENGTH
    ensures Sound(t, bs, DecodeBody(t, n, bs))
    decreases t, 2
  {
    hide DecodeElems, DecodeEntries, DecodeBits, DecodeChars, InRange;
    match t
    case TString =>
    case TU16String => WideSound(W2, n, bs);
    case TU32String => WideSound(W4, n, bs);
    case TBits => BitsSound(n, bs, []);
    case TSeq(_) => ElemsSound(t, n, bs, []);
    case TMap(_, _) => EntriesSound(t, n, bs, []);
  }

  lemma WideSound(w: Width, n: nat, bs: seq<Byte>)
    ensures var r := DecodeChars(w, n, bs);
      r.Ok? ==> Chars(w, r.value) && |r.value| == n && IsSuffix(r.rest, bs)
  {
    hide Size, Chars;
    if |bs| >= Span(w, n) {
      CharsSound(w, n, bs);
    }
  }

  lemma {:induction false} AltSound(t: Type, alts: seq<Type>, bs: seq<Byte>)
    requires (t.TVariant? || t.TOptVariant?) && t.alts == alts
    ensures Sound(t, bs, DecodeAlt(t, alts, bs))
    decreases t, 0
  {
    hide DecodeInt, InRange, Decode;
    var w := IndexWidth(|alts|);
    IntSound(w, true, bs);
    var i := DecodeInt(w, true, bs);
    if i.Ok? && 0 <= i.value < |alts| {
      DecodeSound(alts[i.value], i.rest);
      if Decode(alts[i.value], i.rest).Ok? {
        SuffixTransitive(Decode(alts[i.value], i.rest).rest, i.rest, bs);
      }
    }
  }

  lemma ElemsGrow(t: Type, vs: seq<Value>, v: Value)
    requires t.TSeq? && Elems(t, vs) && HasType(t.elem, v)
    ensures Elems(t, vs + [v])
  {
  }

  lemma EntriesGrow(t: Type, ps: seq<Pair>, k: Value, v: Value)
    requires t.TMap? && Entries(t, ps) && DistinctKeys(ps)
    requires HasType(t.key, k) && HasType(t.value, v) && !HasKey(ps, k)
    ensures Entries(t, ps + [Pair(k, v)]) && DistinctKeys(ps + [Pair(k, v)])
  {
    hide HasType;
  }

  lemma FieldsGrow(t: Type, vs: seq<Value>, v: Value)
    requires t.TTuple? && |vs| < |t.elems| && Fields(t, vs) && HasType(t.elems[|vs|], v)
    ensures Fields(t, vs + [v])
  {
    hide HasType;
  }

  lemma {:induction false} ElemsSound(t: Type, n: nat, bs: seq<Byte>, acc: seq<Value>)
    requires t.TSeq? && Elems(t, acc) && |acc| + n < MAX_LENGTH
    ensures Sound(t, bs, DecodeElems(t, n, bs, acc))
    decreases t, 1, n
  {
    hide Decode;
    if n == 0 {
      assert HasType(t, VSeq(acc));
    } else {
      hide HasType, Elems;
      var r := Decode(t.elem, bs);
      DecodeSound(t.elem, bs);
      if r.Ok? {
        ElemsGrow(t, acc, r.value);
        ElemsSound(t, n - 1, r.rest, acc + [r.value]);
        var q := DecodeElems(t, n - 1, r.rest, acc + [r.value]);
        if q.Ok? {
          SuffixTransitive(q.rest, r.rest, bs);
        }
      }
    }
  }

  lemma {:induction false} EntriesSound(t: Type, n: nat, bs: seq<Byte>, acc: seq<Pair>)
    requires t.TMap? && Entries(t, acc) && DistinctKeys(acc) && |acc| + n < MAX_LENGTH
    ensures Sound(t, bs, DecodeEntries(t, n, bs, acc))
    decreases t, 1, n
  {
    hide Decode;
    if n == 0 {
      assert HasType(t, VMap(acc));
    } else {
      hide HasType, Entries;
      var k := Decode(t.key, bs);
      DecodeSound(t.key, bs);
      if k.Ok? {
        var v := Decode(t.value, k.rest);
        DecodeSound(t.value, k.rest);
        if v.Ok? && !HasKey(acc, k.value) {
            var more := acc + [Pair(k.value, v.value)];
          EntriesGrow(t, acc, k.value, v.value);
          EntriesSound(t, n - 1, v.rest, more);
          var q := DecodeEntries(t, n - 1, v.rest, more);
          if q.Ok? {
            SuffixTransitive(v.rest, k.rest, bs);
            SuffixTransitive(q.rest, v.rest, bs);
          }
        }
      }
    }
  }

  lemma {:induction false} FieldsSound(t: Type, bs: seq<Byte>, acc: seq<Value>)
    requires t.TTuple? && |acc| <= |t.elems| && Fields(t, acc)
    ensures Sound(t, bs, DecodeFields(t, bs, acc))
    decreases t, 1, |t.elems| - |acc|
  {
    hide Decode;
    if |acc| == |t.elems| {
      assert HasType(t, VTuple(acc));
    } else {
      hide HasType, Fields;
      var r := Decode(t.elems[|acc|], bs);
      DecodeSound(t.elems[|acc|], bs);
      if r.Ok? {
        FieldsGrow(t, acc, r.value);
        FieldsSound(t, r.rest, acc + [r.value]);
        var q := DecodeFields(t, r.rest, acc + [r.value]);
        if q.Ok? {
          SuffixTransitive(q.rest, r.rest, bs);
        }
      }
    }
  }
}
