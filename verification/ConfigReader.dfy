/** The reader: a stack of positions in a configuration value.  Reading what the writer wrote gives
    back the original exactly when no variant field holds an object or a list and no list holds
    lists or maps; in those cases reading fails. */
module ConfigReader {
  import opened BinaryFormat
  import opened ConfigValues
  import ConfigWriter

  datatype Frame =
    | RDict(d: map<string, CV>)
    | RVal(x: CV)
    | RKey(key: string)
    | RSeq(xs: seq<CV>, index: nat)
    | RAssoc(keys: seq<string>, pos: nat, d: map<string, CV>)

  ghost predicate Enumerates(keys: seq<string>, d: map<string, CV>) {
    && (forall k :: k in d <==> k in keys)
    && forall i, j :: 0 <= i < j < |keys| ==> keys[i] != keys[j]
  }

  // -- what can be read back ------------------------------------------------------------------------

  predicate Readable(t: Type, v: Value)
    decreases t
  {
    match (t, v)
    case (TList(e), VList(xs)) => forall i :: 0 <= i < |xs| ==> InList(e) && Readable(e, xs[i])
    case (TMap(e), VMap(m)) => forall k :: k in m ==> Readable(e, m[k])
    case (TObject(_, fs), VObject(fvs)) =>
      |fvs| == |fs| && forall i :: 0 <= i < |fs| ==> FieldReadable(fs[i], fvs[i])
    case _ => true
  }

  /** Elements of sequences are read through the position in the sequence. */
  predicate InList(t: Type) {
    IsScalar(t) || t.TObject?
  }

  /** Alternatives whose tag the reader finds. */
  predicate TagIsFound(t: Type) {
    IsScalar(t) || t.TMap?
  }

  predicate FieldReadable(f: Field, fv: FieldValue)
    decreases f
  {
    match (f.kind, fv)
    case (Plain(t), Held(v)) => Readable(t, v)
    case (Optional(t), Held(v)) => Readable(t, v)
    case (Variant(alts, _), Chosen(i, v)) => i < |alts| && TagIsFound(alts[i].t) && Readable(alts[i].t, v)
    case _ => true
  }

  function Top(st: seq<Frame>): Frame
    requires st != []
  {
    st[|st| - 1]
  }

  // -- positions --------------------------------------------------------------------------------------

  predicate IsSource(f: Frame) {
    f.RVal? || (f.RSeq? && f.index < |f.xs|)
  }

  function Next(f: Frame): CV
    requires IsSource(f)
  {
    if f.RVal? then f.x else f.xs[f.index]
  }

  /** The stack once the value at its top is consumed. */
  function Consumed(st: seq<Frame>): seq<Frame>
    requires st != [] && IsSource(Top(st))
  {
    var f := Top(st);
    st[..|st| - 1] + if f.RVal? then [] else [RSeq(f.xs, f.index + 1)]
  }

  predicate CanRead(f: Frame, t: Type) {
    f.RVal? || InList(t)
  }

  predicate SameKind(t: Type, x: CV) {
    (t.TBool? && x.CBool?) || (t.TInt? && x.CInt?) || (t.TReal? && x.CReal?) || (t.TStr? && x.CStr?)
  }

  function Find(names: seq<string>, name: string): (r: Option<nat>)
    ensures r.Some? ==> r.value < |names| && names[r.value] == name
    ensures r.Some? ==> forall i :: 0 <= i < r.value ==> names[i] != name
    ensures r.None? ==> name !in names
  {
    if names == [] then None
    else if names[0] == name then Some(0)
    else match Find(names[1..], name) case Some(i) => Some(i + 1) case None => None
  }

  class ConfigValueReader {
    var st: seq<Frame>

    /** Conversions between alternatives and from text, which are not modelled. */
    const toDict: CV -> Option<map<string, CV>>
    const convert: (Type, CV) -> Option<Value>
    const parseKey: (Type, string) -> Option<Value>

    constructor (input: CV, toDict: CV -> Option<map<string, CV>>, convert: (Type, CV) -> Option<Value>,
                 parseKey: (Type, string) -> Option<Value>)
      ensures st == [RVal(input)]
    {
      st := [RVal(input)];
      this.toDict, this.convert, this.parseKey := toDict, convert, parseKey;
    }

    function GetAs(t: Type, x: CV): Option<Value> {
      match (t, x)
      case (TBool, CBool(b)) => Some(VBool(b))
      case (TInt(w, s), CInt(i)) => if InRange(w, s, i) then Some(VInt(i)) else None
      case (TReal, CReal(r)) => Some(VReal(r))
      case (TStr, CStr(s)) => Some(VStr(s))
      case _ => convert(t, x)
    }

    /** A value of the right kind is taken as it is, and an integer only if it fits; anything else is
        converted.  Reading a key as anything but a string leaves it on the stack. */
    method Pull(t: Type) returns (r: Option<Value>)
      requires IsScalar(t)
      modifies this
      ensures old(st) == [] || (!IsSource(Top(old(st))) && !Top(old(st)).RKey?) ==> r == None && st == old(st)
      ensures old(st) != [] && IsSource(Top(old(st))) ==>
        var x := Next(Top(old(st)));
        && (t.TBool? && x.CBool? ==> r == Some(VBool(x.b)))
        && (t.TInt? && x.CInt? ==> r == if InRange(t.w, t.signed, x.i) then Some(VInt(x.i)) else None)
        && (t.TReal? && x.CReal? ==> r == Some(VReal(x.r)))
        && (t.TStr? && x.CStr? ==> r == Some(VStr(x.s)))
        && (!SameKind(t, x) ==> r == convert(t, x))
        && st == if r.Some? then Consumed(old(st)) else old(st)
      ensures old(st) != [] && Top(old(st)).RKey? ==>
        if t.TStr? then r == Some(VStr(Top(old(st)).key)) && st == old(st)[..|old(st)| - 1]
        else r == parseKey(t, Top(old(st)).key) && st == old(st)
    {
      if st == [] {
        return None;
      }
      var n := |st| - 1;
      match st[n]
      case RVal(x) =>
        r := GetAs(t, x);
        if r.Some? {
          st := st[..n];
        }
      case RSeq(xs, index) =>
        if index >= |xs| {
          return None;
        }
        r := GetAs(t, xs[index]);
        if r.Some? {
          st := st[..n] + [RSeq(xs, index + 1)];
        }
      case RKey(key) =>
        if t.TStr? {
          r := Some(VStr(key));
          st := st[..n];
        } else {
          r := parseKey(t, key);
        }
      case RDict(_) => r := None;
      case RAssoc(_, _, _) => r := None;
    }

    /** The dictionary at the top of the stack; only a value that stands by itself is converted. */
    function DictAt(f: Frame): Option<map<string, CV>> {
      if !IsSource(f) then None
      else if Next(f).CDict? then Some(Next(f).d)
      else if f.RVal? then toDict(f.x)
      else None
    }

    /** A dictionary whose "@type" entry names another type is refused. */
    method BeginObject(want: string) returns (ok: bool)
      modifies this
      ensures old(st) != [] && DictAt(Top(old(st))).Some? ==>
        var d := DictAt(Top(old(st))).value;
        && st == Consumed(old(st)) + [RDict(d)]
        && (ok <==> ("@type" in d && d["@type"].CStr? ==> d["@type"].s == want))
      ensures old(st) == [] || DictAt(Top(old(st))).None? ==> !ok && st == old(st)
    {
      if st == [] {
        return false;
      }
      var n := |st| - 1;
      var d: map<string, CV>;
      match st[n] {
        case RVal(x) =>
          if x.CDict? {
            d := x.d;
          } else {
            var converted := toDict(x);
            if converted.None? {
              return false;
            }
            d := converted.value;
          }
          st := st[..n] + [RDict(d)];
        case RSeq(xs, index) =>
          if index >= |xs| || !xs[index].CDict? {
            return false;
          }
          d := xs[index].d;
          st := st[..n] + [RSeq(xs, index + 1)] + [RDict(d)];
        case _ => return false;
      }
      return !("@type" in d && d["@type"].CStr? && d["@type"].s != want);
    }

    method EndObject() returns (ok: bool)
      modifies this
      ensures ok <==> old(st) != [] && Top(old(st)).RDict?
      ensures st == if ok then old(st)[..|old(st)| - 1] else old(st)
    {
      ok := st != [] && Top(st).RDict?;
      if ok {
        st := st[..|st| - 1];
      }
    }

    method BeginField(name: string) returns (ok: bool)
      modifies this
      ensures ok <==> old(st) != [] && Top(old(st)).RDict? && name in Top(old(st)).d
      ensures st == if ok then old(st) + [RVal(Top(old(st)).d[name])] else old(st)
    {
      ok := st != [] && Top(st).RDict? && name in Top(st).d;
      if ok {
        st := st + [RVal(Top(st).d[name])];
      }
    }

    method BeginOptionalField(name: string) returns (ok: bool, isPresent: bool)
      modifies this
      ensures ok <==> old(st) != [] && Top(old(st)).RDict?
      ensures ok ==> (isPresent <==> name in Top(old(st)).d)
      ensures st == if ok && isPresent then old(st) + [RVal(Top(old(st)).d[name])] else old(st)
    {
      ok, isPresent := st != [] && Top(st).RDict?, false;
      if ok {
        isPresent := BeginField(name);
      }
    }

    /** The alternative is looked up beside the field, and nowhere else. */
    method BeginVariantField(name: string, types: seq<string>) returns (ok: bool, index: nat)
      modifies this
      ensures ok <==>
        && old(st) != [] && Top(old(st)).RDict?
        && var d := Top(old(st)).d;
           name in d && TagKey(name) in d && d[TagKey(name)].CStr? && d[TagKey(name)].s in types
      ensures ok ==> Find(types, Top(old(st)).d[TagKey(name)].s) == Some(index)
      ensures st == if ok then old(st) + [RVal(Top(old(st)).d[name])] else old(st)
    {
      ok, index := false, 0;
      if st == [] || !Top(st).RDict? {
        return;
      }
      var d := Top(st).d;
      if TagKey(name) !in d || !d[TagKey(name)].CStr? {
        return;
      }
      var i := Find(types, d[TagKey(name)].s);
      if i.None? {
        return;
      }
      index := i.value;
      ok := BeginField(name);
    }

    method BeginOptVariantField(name: string, types: seq<string>) returns (ok: bool, isPresent: bool, index: nat)
      modifies this
      ensures old(st) == [] || !Top(old(st)).RDict? ==> !ok
      ensures old(st) != [] && Top(old(st)).RDict? ==>
        var d := Top(old(st)).d;
        && (isPresent <==> name in d)
        && (ok <==> (name in d ==> TagKey(name) in d && d[TagKey(name)].CStr? && d[TagKey(name)].s in types))
        && (ok && isPresent ==> Find(types, d[TagKey(name)].s) == Some(index))
      ensures st == if ok && isPresent then old(st) + [RVal(Top(old(st)).d[name])] else old(st)
    {
      ok, isPresent, index := st != [] && Top(st).RDict?, false, 0;
      if ok && name in Top(st).d {
        isPresent := true;
        ok, index := BeginVariantField(name, types);
      }
    }

    method EndField() returns (ok: bool)
      ensures ok <==> st != []
    {
      ok := st != [];
    }

    method BeginSequence() returns (ok: bool, size: nat)
      modifies this
      ensures ok <==> old(st) != [] && Top(old(st)).RVal? && Top(old(st)).x.CList?
      ensures ok ==> size == |Top(old(st)).x.xs|
      ensures st == if ok then old(st)[..|old(st)| - 1] + [RSeq(Top(old(st)).x.xs, 0)] else old(st)
    {
      ok, size := st != [] && Top(st).RVal? && Top(st).x.CList?, 0;
      if ok {
        var xs := Top(st).x.xs;
        size := |xs|;
        st := st[..|st| - 1] + [RSeq(xs, 0)];
      }
    }

    method EndSequence() returns (ok: bool)
      modifies this
      ensures ok <==> old(st) != [] && Top(old(st)).RSeq? && Top(old(st)).index >= |Top(old(st)).xs|
      ensures st == if ok then old(st)[..|old(st)| - 1] else old(st)
    {
      ok := st != [] && Top(st).RSeq? && Top(st).index >= |Top(st).xs|;
      if ok {
        st := st[..|st| - 1];
      }
    }

    /** The dictionary is traversed in an order of its own. */
    method BeginAssociativeArray() returns (ok: bool, size: nat)
      modifies this
      ensures ok <==> old(st) != [] && Top(old(st)).RVal? && Top(old(st)).x.CDict?
      ensures !ok ==> st == old(st)
      ensures ok ==> st != []
      ensures ok ==>
        var f := Top(st);
        && f.RAssoc? && f.pos == 0 && f.d == Top(old(st)).x.d && Enumerates(f.keys, f.d)
        && size == |f.keys| && st == old(st)[..|old(st)| - 1] + [f]
    {
      ok, size := st != [] && Top(st).RVal? && Top(st).x.CDict?, 0;
      if ok {
        var d := Top(st).x.d;
        var keys := KeysOfDict(d);
        size := |keys|;
        st := st[..|st| - 1] + [RAssoc(keys, 0, d)];
      }
    }

    method EndAssociativeArray() returns (ok: bool)
      modifies this
      ensures ok <==> old(st) != [] && Top(old(st)).RAssoc? && Top(old(st)).pos >= |Top(old(st)).keys|
      ensures st == if ok then old(st)[..|old(st)| - 1] else old(st)
    {
      ok := st != [] && Top(st).RAssoc? && Top(st).pos >= |Top(st).keys|;
      if ok {
        st := st[..|st| - 1];
      }
    }

    method BeginKeyValuePair() returns (ok: bool)
      requires st != [] && Top(st).RAssoc? ==> Enumerates(Top(st).keys, Top(st).d)
      modifies this
      ensures ok <==> old(st) != [] && Top(old(st)).RAssoc? && Top(old(st)).pos < |Top(old(st)).keys|
      ensures !ok ==> st == old(st)
      ensures ok ==>
        var f := Top(old(st));
        f.keys[f.pos] in f.d && st == old(st) + [RVal(f.d[f.keys[f.pos]]), RKey(f.keys[f.pos])]
    {
      ok := st != [] && Top(st).RAssoc? && Top(st).pos < |Top(st).keys|;
      if ok {
        var f := Top(st);
        st := st + [RVal(f.d[f.keys[f.pos]]), RKey(f.keys[f.pos])];
      }
    }

    method EndKeyValuePair() returns (ok: bool)
      modifies this
      ensures ok <==> old(st) != [] && Top(old(st)).RAssoc?
      ensures !ok ==> st == old(st)
      ensures ok ==>
        var f := Top(old(st));
        st == old(st)[..|old(st)| - 1] + [RAssoc(f.keys, f.pos + 1, f.d)]
    {
      ok := st != [] && Top(st).RAssoc?;
      if ok {
        var f := Top(st);
        st := st[..|st| - 1] + [RAssoc(f.keys, f.pos + 1, f.d)];
      }
    }

    // -- reading whole values ---------------------------------------------------------------------------

    /** Reads what was written for `v`: the result is `v` or, exactly if `v` is not readable or
        not readable at this position, a failure.  On success the value is consumed. */
    method Load(t: Type, ghost v: Value) returns (r: Option<Value>)
      requires st != [] && IsSource(Top(st)) && WellTyped(t, v) && Next(Top(st)) == Rep("", t, v)
      modifies this
      ensures r == if Readable(t, v) && CanRead(Top(old(st)), t) then Some(v) else None
      ensures r.Some? ==> st == Consumed(old(st))
      decreases t
    {
      match t
      case TList(_) => r := LoadList(t, v);
      case TMap(_) => r := LoadMap(t, v);
      case TObject(_, _) => r := LoadObject(t, v);
      case _ => r := Pull(t);
    }

    method LoadList(t: Type, ghost v: Value) returns (r: Option<Value>)
      requires t.TList?
      requires st != [] && IsSource(Top(st)) && WellTyped(t, v) && Next(Top(st)) == Rep("", t, v)
      modifies this
      ensures r == if Readable(t, v) && CanRead(Top(old(st)), t) then Some(v) else None
      ensures r.Some? ==> st == Consumed(old(st))
      decreases t, 1
    {
      var ok, size := BeginSequence();
      if !ok {
        return None;
      }
      r := LoadElems(t, size, v.xs, st[..|st| - 1]);
      if r.Some? {
        ok := EndSequence();
      }
    }

    method LoadElems(t: Type, size: nat, ghost vs: seq<Value>, ghost below: seq<Frame>) returns (r: Option<Value>)
      requires t.TList? && size == |vs| && forall i :: 0 <= i < |vs| ==> WellTyped(t.elem, vs[i])
      requires st == below + [RSeq(RepList(t, vs), 0)]
      modifies this
      ensures r == if forall i :: 0 <= i < |vs| ==> InList(t.elem) && Readable(t.elem, vs[i]) then Some(VList(vs)) else None
      ensures r.Some? ==> st == below + [RSeq(RepList(t, vs), |vs|)]
      decreases t, 0
    {
      hide Readable, WellTyped, Rep;
      var xs: seq<Value> := [];
      for i := 0 to size
        invariant xs == vs[..i] && st == below + [RSeq(RepList(t, vs), i)]
        invariant forall j :: 0 <= j < i ==> InList(t.elem) && Readable(t.elem, vs[j])
      {
        var x := Load(t.elem, vs[i]);
        if x.None? {
          return None;
        }
        xs := xs + [x.value];
      }
      assert vs[..size] == vs;
      r := Some(VList(xs));
    }

    method LoadMap(t: Type, ghost v: Value) returns (r: Option<Value>)
      requires t.TMap?
      requires st != [] && IsSource(Top(st)) && WellTyped(t, v) && Next(Top(st)) == Rep("", t, v)
      modifies this
      ensures r == if Readable(t, v) && CanRead(Top(old(st)), t) then Some(v) else None
      ensures r.Some? ==> st == Consumed(old(st))
      decreases t, 2
    {
      var ok, size := BeginAssociativeArray();
      if !ok {
        return None;
      }
      ghost var f := Top(st);
      r := LoadEntries(t, size, v.m, st[..|st| - 1], f.keys, f.d);
      if r.Some? {
        ok := EndAssociativeArray();
      }
    }

    method LoadEntries(t: Type, size: nat, ghost m: map<string, Value>, ghost below: seq<Frame>,
                       ghost keys: seq<string>, ghost d: map<string, CV>) returns (r: Option<Value>)
      requires t.TMap? && (forall k :: k in m ==> WellTyped(t.value, m[k]))
      requires d.Keys == m.Keys && (forall k :: k in m ==> d[k] == Rep("", t.value, m[k]))
      requires Enumerates(keys, d) && size == |keys| && st == below + [RAssoc(keys, 0, d)]
      modifies this
      ensures r == if forall k :: k in m ==> Readable(t.value, m[k]) then Some(VMap(m)) else None
      ensures r.Some? ==> st == below + [RAssoc(keys, size, d)]
      decreases t, 1
    {
      hide Readable, WellTyped, Rep, Part, Enumerates;
      var xs: map<string, Value> := map[];
      PartSteps(m, d, keys);
      for i := 0 to size
        invariant st == below + [RAssoc(keys, i, d)]
        invariant xs == Part(m, keys[..i])
        invariant forall j :: 0 <= j < i ==> Readable(t.value, m[keys[j]])
      {
        var k, x := LoadPair(t, m, keys[i], d);
        if x.None? {
          return None;
        }
        PartStep(m, keys, i);
        if k in xs {
          return None;
        }
        xs := xs[k := x.value];
      }
      r := Some(VMap(xs));
    }

    method LoadPair(t: Type, ghost m: map<string, Value>, ghost key: string, ghost d: map<string, CV>)
      returns (k: string, r: Option<Value>)
      requires t.TMap? && key in m && WellTyped(t.value, m[key]) && key in d && d[key] == Rep("", t.value, m[key])
      requires st != [] && Top(st).RAssoc? && Enumerates(Top(st).keys, Top(st).d)
      requires Top(st).d == d && Top(st).pos < |Top(st).keys| && Top(st).keys[Top(st).pos] == key
      modifies this
      ensures r == if Readable(t.value, m[key]) then Some(m[key]) else None
      ensures r.Some? ==> k == key
      ensures r.Some? ==>
        var f := Top(old(st));
        st == old(st)[..|old(st)| - 1] + [RAssoc(f.keys, f.pos + 1, f.d)]
      decreases t, 0
    {
      hide Readable, WellTyped, Rep;
      k := "";
      var ok := BeginKeyValuePair();
      var s := Pull(TStr);
      if s.None? || !s.value.VStr? {
        return k, None;
      }
      k := s.value.s;
      assert st == old(st) + [RVal(d[key])];
      r := Load(t.value, m[key]);
      if r.Some? {
        assert st == old(st);
        ok := EndKeyValuePair();
      }
    }

    /** One pair of a map whose keys are scalars but not strings: the key is still on the stack when
        the value is to be read, so that no such pair is ever read. */
    method LoadPairWithKey(kt: Type, t: Type) returns (ok: bool)
      requires IsScalar(kt) && !kt.TStr?
      requires st != [] && Top(st).RAssoc? && Enumerates(Top(st).keys, Top(st).d)
      modifies this
      ensures !ok && old(st) <= st
      ensures Top(old(st)).pos < |Top(old(st)).keys| ==> |st| > |old(st)|
    {
      ok := BeginKeyValuePair();
      if !ok {
        return;
      }
      var key := Pull(kt);
      if key.None? {
        return false;
      }
      match t {
        case TObject(name, _) => ok := BeginObject(name);
        case TList(_) =>
          var size;
          ok, size := BeginSequence();
        case TMap(_) =>
          var size;
          ok, size := BeginAssociativeArray();
        case _ =>
          var x := Pull(t);
          ok := x.Some?;
      }
      if ok {
        ok := EndKeyValuePair();
      }
    }

    /** Of the maps whose keys are not strings exactly the empty ones can be read. */
    method LoadMapWithKeys(kt: Type, t: Type) returns (ok: bool)
      requires IsScalar(kt) && !kt.TStr? && st != [] && Top(st).RVal? && Top(st).x.CDict?
      modifies this
      ensures ok <==> old(Top(st).x.d) == map[]
    {
      var size;
      ok, size := BeginAssociativeArray();
      if size > 0 {
        assert Top(st).keys[0] in Top(st).d;
        ok := LoadPairWithKey(kt, t);
      } else {
        ok := EndAssociativeArray();
      }
    }

    method LoadObject(t: Type, ghost v: Value) returns (r: Option<Value>)
      requires t.TObject?
      requires st != [] && IsSource(Top(st)) && WellTyped(t, v) && Next(Top(st)) == Rep("", t, v)
      modifies this
      ensures r == if Readable(t, v) then Some(v) else None
      ensures r.Some? ==> st == Consumed(old(st))
      decreases t, 1
    {
      ghost var d := RepFields(map[], t, v.fields, |t.fields|);
      NoTypeEntry(t, v.fields);
      var ok := BeginObject(t.name);
      r := LoadFields(t, v.fields, Consumed(old(st)), d);
      if r.Some? {
        ok := EndObject();
      }
    }

    method LoadFields(t: Type, ghost fvs: seq<FieldValue>, ghost below: seq<Frame>, ghost d: map<string, CV>)
      returns (r: Option<Value>)
      requires t.TObject? && |fvs| == |t.fields| && NamesOk(t.fields) && d == RepFields(map[], t, fvs, |t.fields|)
      requires forall i :: 0 <= i < |fvs| ==> FieldOk(t.fields[i], fvs[i])
      requires st == below + [RDict(d)]
      modifies this
      ensures r == if forall i :: 0 <= i < |fvs| ==> FieldReadable(t.fields[i], fvs[i]) then Some(VObject(fvs)) else None
      ensures r.Some? ==> st == old(st)
      decreases t, 0
    {
      hide FieldReadable, FieldOk, RepFields, NamesOk, KeysOf;
      var xs: seq<FieldValue> := [];
      for i := 0 to |t.fields|
        invariant xs == fvs[..i] && st == old(st)
        invariant forall j :: 0 <= j < i ==> FieldReadable(t.fields[j], fvs[j])
      {
        forall k | k in KeysOf(t.fields[i])
          ensures AgreeAt(AddField(map[], t.fields[i], fvs[i]), d, k)
        {
          FieldLookup(map[], t, fvs, i, k);
        }
        var x := LoadField(t.fields[i], fvs[i], d);
        if x.None? {
          return None;
        }
        xs := xs + [x.value];
      }
      assert fvs[..|fvs|] == fvs;
      r := Some(VObject(xs));
    }

    method LoadField(f: Field, ghost fv: FieldValue, ghost d: map<string, CV>) returns (r: Option<FieldValue>)
      requires st != [] && Top(st) == RDict(d) && FieldOk(f, fv)
      requires forall k :: k in KeysOf(f) ==> AgreeAt(AddField(map[], f, fv), d, k)
      modifies this
      ensures r == if FieldReadable(f, fv) then Some(fv) else None
      ensures r.Some? ==> st == old(st)
      decreases f
    {
      match f.kind
      case Plain(t) => r := LoadPlain(f, t, fv, d);
      case Optional(t) => r := LoadOptional(f, t, fv, d);
      case Variant(alts, opt) => r := LoadVariant(f, alts, opt, fv, d);
    }

    method LoadPlain(f: Field, t: Type, ghost fv: FieldValue, ghost d: map<string, CV>) returns (r: Option<FieldValue>)
      requires f.kind == Plain(t) && FieldOk(f, fv) && st != [] && Top(st) == RDict(d)
      requires AgreeAt(AddField(map[], f, fv), d, f.name)
      modifies this
      ensures r == if FieldReadable(f, fv) then Some(fv) else None
      ensures r.Some? ==> st == old(st)
      decreases f, 0
    {
      var ok := BeginField(f.name);
      hide Readable, WellTyped, Rep;
      var v := Load(t, fv.v);
      if v.None? {
        return None;
      }
      ok := EndField();
      r := Some(Held(v.value));
    }

    method LoadOptional(f: Field, t: Type, ghost fv: FieldValue, ghost d: map<string, CV>) returns (r: Option<FieldValue>)
      requires f.kind == Optional(t) && FieldOk(f, fv) && st != [] && Top(st) == RDict(d)
      requires AgreeAt(AddField(map[], f, fv), d, f.name)
      modifies this
      ensures r == if FieldReadable(f, fv) then Some(fv) else None
      ensures r.Some? ==> st == old(st)
      decreases f, 0
    {
      var ok, isPresent := BeginOptionalField(f.name);
      if !isPresent {
        ok := EndField();
        return Some(Absent);
      }
      hide Readable, WellTyped, Rep;
      var v := Load(t, fv.v);
      if v.None? {
        return None;
      }
      ok := EndField();
      r := Some(Held(v.value));
    }

    method LoadVariant(f: Field, alts: seq<Alt>, opt: bool, ghost fv: FieldValue, ghost d: map<string, CV>)
      returns (r: Option<FieldValue>)
      requires f.kind == Variant(alts, opt) && FieldOk(f, fv) && st != [] && Top(st) == RDict(d)
      requires AgreeAt(AddField(map[], f, fv), d, f.name) && AgreeAt(AddField(map[], f, fv), d, TagKey(f.name))
      modifies this
      ensures r == if FieldReadable(f, fv) then Some(fv) else None
      ensures r.Some? ==> st == old(st)
      decreases f, 0
    {
      ConfigWriter.TagIsOther(f.name);
      var ok, isPresent, index := true, true, 0;
      hide Readable, WellTyped;
      assert fv.Chosen? ==> TypeNames(alts)[fv.index] == alts[fv.index].name;
      if opt {
        ok, isPresent, index := BeginOptVariantField(f.name, TypeNames(alts));
      } else {
        ok, index := BeginVariantField(f.name, TypeNames(alts));
      }
      if !ok {
        return None;
      }
      if !isPresent {
        ok := EndField();
        return Some(Absent);
      }
      UntypedUnlessObject(alts[fv.index].name, alts[fv.index].t, fv.v);
      hide Rep;
      var v := Load(alts[index].t, fv.v);
      if v.None? {
        return None;
      }
      ok := EndField();
      r := Some(Chosen(index, v.value));
    }
  }

  /** Both objects in sequence, whatever the written value was before: reading back gives the
      original if it is readable and fails otherwise. */
  method WriteThenRead(t: Type, v: Value, dst: CV, toDict: CV -> Option<map<string, CV>>,
                       convert: (Type, CV) -> Option<Value>, parseKey: (Type, string) -> Option<Value>)
    returns (r: Option<Value>)
    requires WellTyped(t, v)
    ensures r == if Readable(t, v) then Some(v) else None
  {
    var writer := new ConfigWriter.ConfigValueWriter(dst);
    hide WellTyped, Rep, Readable;
    var ok := writer.Save(t, v);
    var reader := new ConfigValueReader(writer.root, toDict, convert, parseKey);
    r := reader.Load(t, v);
  }

  /** An object in a variant field is such a value: it is written but cannot be read. */
  lemma ObjectInVariantIsLost(tag: string, name: string)
    requires tag != "" && name != "@type" && '.' !in name
    ensures var point := TObject(tag, []);
      var t := TObject("outer", [Field(name, Variant([Alt(tag, point)], false))]);
      var v := VObject([Chosen(0, VObject([]))]);
      WellTyped(t, v) && !Readable(t, v)
  {
    ConfigWriter.TagIsOther(name);
    var alts := [Alt(tag, TObject(tag, []))];
    var f, fv := Field(name, Variant(alts, false)), Chosen(0, VObject([]));
    assert WellTyped(TObject(tag, []), VObject([]));
    assert FieldOk(f, fv) && !FieldReadable(f, fv);
    assert !Readable(TObject("outer", [f]), VObject([fv])) by {
      assert [f][0] == f && [fv][0] == fv;
    }
  }

  /** So is a list in a variant field. */
  lemma ListInVariantIsLost(tag: string, name: string)
    requires tag != "" && name != "@type" && '.' !in name
    ensures var t := TObject("outer", [Field(name, Variant([Alt(tag, TList(TBool))], false))]);
      WellTyped(t, VObject([Chosen(0, VList([]))])) && !Readable(t, VObject([Chosen(0, VList([]))]))
  {
    ConfigWriter.TagIsOther(name);
    var alts := [Alt(tag, TList(TBool))];
    var f, fv := Field(name, Variant(alts, false)), Chosen(0, VList([]));
    assert WellTyped(TList(TBool), VList([]));
    assert FieldOk(f, fv) && !FieldReadable(f, fv);
    assert !Readable(TObject("outer", [f]), VObject([fv])) by {
      assert [f][0] == f && [fv][0] == fv;
    }
  }

  /** So are a list in a list and a map in a list. */
  lemma ListOfListsIsLost()
    ensures WellTyped(TList(TList(TBool)), VList([VList([])])) && !Readable(TList(TList(TBool)), VList([VList([])]))
    ensures WellTyped(TList(TMap(TBool)), VList([VMap(map[])])) && !Readable(TList(TMap(TBool)), VList([VMap(map[])]))
  {
    var lists, maps := [VList([])], [VMap(map[])];
    assert WellTyped(TMap(TBool), VMap(map[]));
    assert !Readable(TList(TList(TBool)), VList(lists)) by {
      assert lists[0] == VList([]);
    }
    assert !Readable(TList(TMap(TBool)), VList(maps)) by {
      assert maps[0] == VMap(map[]);
    }
  }

  predicate AgreeAt(a: map<string, CV>, b: map<string, CV>, k: string) {
    (k in b <==> k in a) && (k in a ==> b[k] == a[k])
  }

  ghost function Part(m: map<string, Value>, keys: seq<string>): map<string, Value> {
    map k | k in m && k in keys :: m[k]
  }

  lemma PartSteps(m: map<string, Value>, d: map<string, CV>, keys: seq<string>)
    requires Enumerates(keys, d) && d.Keys == m.Keys
    ensures Part(m, keys[..0]) == map[] && Part(m, keys[..|keys|]) == m
    ensures forall i :: 0 <= i < |keys| ==> keys[i] in m
    ensures forall i, j :: 0 <= i < j < |keys| ==> keys[i] != keys[j]
    ensures forall k :: k in m ==> exists i :: 0 <= i < |keys| && keys[i] == k
  {
    assert keys[..|keys|] == keys;
    forall i | 0 <= i < |keys|
      ensures keys[i] in m
    {
      assert keys[i] in d;
    }
  }

  lemma PartStep(m: map<string, Value>, keys: seq<string>, i: nat)
    requires i < |keys| && keys[i] in m && forall a, b :: 0 <= a < b < |keys| ==> keys[a] != keys[b]
    ensures keys[i] !in Part(m, keys[..i])
    ensures Part(m, keys[..i + 1]) == Part(m, keys[..i])[keys[i] := m[keys[i]]]
  {
    assert keys[..i + 1] == keys[..i] + [keys[i]];
  }

  lemma UntypedUnlessObject(ty: string, t: Type, v: Value)
    requires !t.TObject?
    ensures Rep(ty, t, v) == Rep("", t, v)
  {
  }

  lemma NoTypeEntry(t: Type, fvs: seq<FieldValue>)
    requires t.TObject? && |fvs| == |t.fields| && NamesOk(t.fields)
    ensures "@type" !in RepFields(map[], t, fvs, |t.fields|)
  {
    forall i | 0 <= i < |t.fields|
      ensures "@type" !in KeysOf(t.fields[i])
    {
      TagIsNotType(t.fields[i]);
    }
    FieldsKeepOthers(map[], t, fvs, 0, |t.fields|, "@type");
  }

  method KeysOfDict(d: map<string, CV>) returns (keys: seq<string>)
    ensures Enumerates(keys, d)
  {
    keys := [];
    var left := d.Keys;
    while left != {}
      invariant left <= d.Keys && left !! (set k | k in keys)
      invariant forall k :: k in d <==> k in keys || k in left
      invariant forall i, j :: 0 <= i < j < |keys| ==> keys[i] != keys[j]
      decreases |left|
    {
      var k :| k in left;
      keys := keys + [k];
      left := left - {k};
    }
  }
}
