/** Configuration values, places inside them, and what a typed value looks like as one. */
module ConfigValues {
  import opened BinaryFormat

  datatype Option<T> = Some(value: T) | None

  datatype CV =
    | CInt(i: int)
    | CBool(b: bool)
    | CReal(r: real)
    | CStr(s: string)
    | CList(xs: seq<CV>)
    | CDict(d: map<string, CV>)

  // -- places: what a pointer into a value designates -----------------------------------------------

  datatype Step = Key(k: string) | Idx(i: nat)

  type Path = seq<Step>

  predicate HasChild(r: CV, s: Step) {
    match s
    case Key(k) => r.CDict? && k in r.d
    case Idx(i) => r.CList? && i < |r.xs|
  }

  function Child(r: CV, s: Step): CV
    requires HasChild(r, s)
  {
    match s case Key(k) => r.d[k] case Idx(i) => r.xs[i]
  }

  function WithChild(r: CV, s: Step, c: CV): CV
    requires HasChild(r, s)
  {
    match s case Key(k) => CDict(r.d[k := c]) case Idx(i) => CList(r.xs[i := c])
  }

  predicate Reaches(r: CV, p: Path)
    decreases |p|
  {
    p == [] || (HasChild(r, p[0]) && Reaches(Child(r, p[0]), p[1..]))
  }

  function Get(r: CV, p: Path): CV
    requires Reaches(r, p)
    decreases |p|
  {
    if p == [] then r else Get(Child(r, p[0]), p[1..])
  }

  /** Assigning through the pointer. */
  function Put(r: CV, p: Path, c: CV): CV
    requires Reaches(r, p)
    decreases |p|
  {
    if p == [] then c else WithChild(r, p[0], Put(Child(r, p[0]), p[1..], c))
  }

  lemma {:induction false} GetPut(r: CV, p: Path, c: CV)
    requires Reaches(r, p)
    ensures Reaches(Put(r, p, c), p) && Get(Put(r, p, c), p) == c
    decreases |p|
  {
    if p != [] {
      GetPut(Child(r, p[0]), p[1..], c);
    }
  }

  lemma {:induction false} PutPut(r: CV, p: Path, a: CV, b: CV)
    requires Reaches(r, p)
    ensures Reaches(Put(r, p, a), p) && Put(Put(r, p, a), p, b) == Put(r, p, b)
    decreases |p|
  {
    GetPut(r, p, a);
    if p != [] {
      var c := Child(r, p[0]);
      PutPut(c, p[1..], a, b);
      var r1 := Put(r, p, a);
      assert Child(r1, p[0]) == Put(c, p[1..], a);
      match p[0] {
        case Key(k) => assert r.d[k := Put(c, p[1..], a)][k := Put(c, p[1..], b)] == r.d[k := Put(c, p[1..], b)];
        case Idx(i) => assert r.xs[i := Put(c, p[1..], a)][i := Put(c, p[1..], b)] == r.xs[i := Put(c, p[1..], b)];
      }
    }
  }

  lemma {:induction false} PutGet(r: CV, p: Path)
    requires Reaches(r, p)
    ensures Put(r, p, Get(r, p)) == r
    decreases |p|
  {
    if p != [] {
      PutGet(Child(r, p[0]), p[1..]);
      match p[0] {
        case Key(k) => assert r.d[k := r.d[k]] == r.d;
        case Idx(i) => assert r.xs[i := r.xs[i]] == r.xs;
      }
    }
  }

  /** A pointer to a child is a pointer into the parent. */
  lemma {:induction false} PutChild(r: CV, p: Path, s: Step, c: CV)
    requires Reaches(r, p) && HasChild(Get(r, p), s)
    ensures Reaches(r, p + [s]) && Get(r, p + [s]) == Child(Get(r, p), s)
    ensures Put(r, p + [s], c) == Put(r, p, WithChild(Get(r, p), s, c))
    decreases |p|
  {
    if p == [] {
      assert p + [s] == [s] && [s][1..] == [];
    } else {
      assert (p + [s])[0] == p[0] && (p + [s])[1..] == p[1..] + [s];
      PutChild(Child(r, p[0]), p[1..], s, c);
    }
  }

  // -- types and values ----------------------------------------------------------------------------

  datatype Type =
    | TBool
    | TInt(w: Width, signed: bool)
    | TReal
    | TStr
    | TList(elem: Type)
    | TMap(value: Type)                                // keys are strings
    | TObject(name: string, fields: seq<Field>)

  datatype Field = Field(name: string, kind: Kind)

  datatype Kind = Plain(t: Type) | Optional(t: Type) | Variant(alts: seq<Alt>, optional: bool)

  datatype Alt = Alt(name: string, t: Type)

  datatype Value =
    | VBool(b: bool)
    | VInt(i: int)
    | VReal(r: real)
    | VStr(s: string)
    | VList(xs: seq<Value>)
    | VMap(m: map<string, Value>)
    | VObject(fields: seq<FieldValue>)

  datatype FieldValue = Absent | Held(v: Value) | Chosen(index: nat, v: Value)

  const INT64_MAX: int := 0x7fff_ffff_ffff_ffff

  predicate IsScalar(t: Type) {
    t.TBool? || t.TInt? || t.TReal? || t.TStr?
  }

  /** The key under which the alternative of a variant field is recorded. */
  function TagKey(name: string): string {
    "@" + name + "-type"
  }

  /** Field names are distinct, none is "@type", and none is the tag of a variant field.  Tags are
      stored with `put`, which would take a dot for a path. */
  predicate NamesOk(fs: seq<Field>) {
    && (forall i, j :: 0 <= i < j < |fs| ==> fs[i].name != fs[j].name)
    && (forall i :: 0 <= i < |fs| ==> fs[i].name != "@type")
    && (forall i, j :: 0 <= i < |fs| && 0 <= j < |fs| && fs[j].kind.Variant? ==> fs[i].name != TagKey(fs[j].name))
    && (forall i :: 0 <= i < |fs| && fs[i].kind.Variant? ==> '.' !in fs[i].name)
  }

  function TypeNames(alts: seq<Alt>): seq<string> {
    seq(|alts|, i requires 0 <= i < |alts| => alts[i].name)
  }

  predicate AltsOk(alts: seq<Alt>) {
    && (forall i :: 0 <= i < |alts| ==> alts[i].name != "")
    && (forall i, j :: 0 <= i < j < |alts| ==> alts[i].name != alts[j].name)
  }

  /** The values of a type that can be stored: integers fit the 64-bit integers of configurations
      and no map has the key that the writer uses for itself. */
  predicate WellTyped(t: Type, v: Value)
    decreases t
  {
    match t
    case TBool => v.VBool?
    case TInt(w, s) => v.VInt? && InRange(w, s, v.i) && v.i <= INT64_MAX
    case TReal => v.VReal?
    case TStr => v.VStr?
    case TList(e) => v.VList? && forall i :: 0 <= i < |v.xs| ==> WellTyped(e, v.xs[i])
    case TMap(e) => v.VMap? && "@tmp" !in v.m && forall k :: k in v.m ==> WellTyped(e, v.m[k])
    case TObject(_, fs) =>
      v.VObject? && |v.fields| == |fs| && NamesOk(fs)
      && forall i :: 0 <= i < |fs| ==> FieldOk(fs[i], v.fields[i])
  }

  predicate FieldOk(f: Field, fv: FieldValue)
    decreases f
  {
    match f.kind
    case Plain(t) => fv.Held? && WellTyped(t, fv.v)
    case Optional(t) => fv.Absent? || (fv.Held? && WellTyped(t, fv.v))
    case Variant(alts, opt) =>
      AltsOk(alts) && ((opt && fv.Absent?) || (fv.Chosen? && fv.index < |alts| && WellTyped(alts[fv.index].t, fv.v)))
  }

  // -- what a value looks like as a configuration value -------------------------------------------------

  function ObjectBase(ty: string): map<string, CV> {
    if ty == "" then map[] else map["@type" := CStr(ty)]
  }

  /** A dictionary with one more entry, and the tag of a variant if there is one. */
  function Entry(d: map<string, CV>, name: string, x: CV, ty: string): map<string, CV> {
    if ty == "" then d[name := x] else d[name := x][TagKey(name) := CStr(ty)]
  }

  /** Scalars and maps get a tag beside them; objects keep it inside; lists have none. */
  function Tag(t: Type, ty: string): string {
    if IsScalar(t) || t.TMap? then ty else ""
  }

  /** `ty` is the name of the alternative in a variant field, and empty elsewhere. */
  function Rep(ty: string, t: Type, v: Value): CV
    decreases t
  {
    match (t, v)
    case (TBool, VBool(b)) => CBool(b)
    case (TInt(_, _), VInt(i)) => CInt(i)
    case (TReal, VReal(r)) => CReal(r)
    case (TStr, VStr(s)) => CStr(s)
    case (TList(e), VList(xs)) => CList(RepList(t, xs))
    case (TMap(e), VMap(m)) => CDict(map k | k in m :: Rep("", e, m[k]))
    case (TObject(_, fs), VObject(fvs)) =>
      if |fvs| == |fs| then CDict(RepFields(ObjectBase(ty), t, fvs, |fs|)) else CBool(false)
    case _ => CBool(false)
  }

  function RepList(t: Type, xs: seq<Value>): (r: seq<CV>)
    requires t.TList?
    ensures |r| == |xs|
    ensures forall i :: 0 <= i < |xs| ==> r[i] == Rep("", t.elem, xs[i])
    decreases t, |xs|
  {
    if xs == [] then [] else RepList(t, xs[..|xs| - 1]) + [Rep("", t.elem, xs[|xs| - 1])]
  }

  /** The dictionary after the first `n` fields. */
  function RepFields(base: map<string, CV>, t: Type, fvs: seq<FieldValue>, n: nat): map<string, CV>
    requires t.TObject? && n <= |fvs| == |t.fields|
    decreases t, n
  {
    if n == 0 then base else AddField(RepFields(base, t, fvs, n - 1), t.fields[n - 1], fvs[n - 1])
  }

  function AddField(d: map<string, CV>, f: Field, fv: FieldValue): map<string, CV>
    decreases f
  {
    match (f.kind, fv)
    case (Plain(t), Held(v)) => d[f.name := Rep("", t, v)]
    case (Optional(t), Held(v)) => d[f.name := Rep("", t, v)]
    case (Variant(alts, _), Chosen(i, v)) =>
      if i < |alts| then Entry(d, f.name, Rep(alts[i].name, alts[i].t, v), Tag(alts[i].t, alts[i].name)) else d
    case _ => d
  }

  // -- which fields can be looked up in it ----------------------------------------------------------------

  function KeysOf(f: Field): set<string> {
    if f.kind.Variant? then {f.name, TagKey(f.name)} else {f.name}
  }

  lemma AddsItsKeys(d: map<string, CV>, f: Field, fv: FieldValue, k: string)
    requires k !in KeysOf(f)
    ensures k in AddField(d, f, fv) <==> k in d
    ensures k in d ==> AddField(d, f, fv)[k] == d[k]
  {
    hide Rep, Tag;
  }

  /** Keys of no field but possibly of the base stay as they are. */
  lemma {:induction false} FieldsKeepOthers(base: map<string, CV>, t: Type, fvs: seq<FieldValue>, from: nat, n: nat, k: string)
    requires t.TObject? && from <= n <= |fvs| == |t.fields|
    requires forall i :: from <= i < n ==> k !in KeysOf(t.fields[i])
    ensures var d, e := RepFields(base, t, fvs, from), RepFields(base, t, fvs, n);
      (k in e <==> k in d) && (k in d ==> e[k] == d[k])
    decreases n
  {
    if from < n {
      FieldsKeepOthers(base, t, fvs, from, n - 1, k);
      AddsItsKeys(RepFields(base, t, fvs, n - 1), t.fields[n - 1], fvs[n - 1], k);
    }
  }

  lemma TagsDiffer(a: string, b: string)
    requires a != b
    ensures TagKey(a) != TagKey(b)
  {
    assert TagKey(a)[1..|TagKey(a)| - 5] == a && TagKey(b)[1..|TagKey(b)| - 5] == b;
  }

  lemma KeysAreDisjoint(fs: seq<Field>, i: nat, j: nat)
    requires NamesOk(fs) && i < |fs| && j < |fs| && i != j
    ensures KeysOf(fs[i]) !! KeysOf(fs[j]) && "@type" !in KeysOf(fs[i])
  {
    TagsDiffer(fs[i].name, fs[j].name);
    TagIsNotType(fs[i]);
  }

  lemma TagIsNotType(f: Field)
    requires f.name != "@type"
    ensures "@type" !in KeysOf(f)
  {
    assert |TagKey(f.name)| == |f.name| + 6;
  }

  /** No field finds its keys taken by the fields before it. */
  lemma FieldIsNew(ty: string, t: Type, fvs: seq<FieldValue>, i: nat)
    requires t.TObject? && i < |fvs| == |t.fields| && NamesOk(t.fields)
    ensures KeysOf(t.fields[i]) !! RepFields(ObjectBase(ty), t, fvs, i).Keys
  {
    forall k | k in KeysOf(t.fields[i])
      ensures k !in RepFields(ObjectBase(ty), t, fvs, i)
    {
      forall j | 0 <= j < i
        ensures k !in KeysOf(t.fields[j])
      {
        KeysAreDisjoint(t.fields, i, j);
      }
      TagIsNotType(t.fields[i]);
      FieldsKeepOthers(ObjectBase(ty), t, fvs, 0, i, k);
    }
  }

  /** In the finished dictionary the keys of a field are as that field alone left them. */
  lemma FieldLookup(base: map<string, CV>, t: Type, fvs: seq<FieldValue>, i: nat, k: string)
    requires t.TObject? && i < |fvs| == |t.fields| && NamesOk(t.fields) && k in KeysOf(t.fields[i]) && k !in base
    ensures var d, e := AddField(map[], t.fields[i], fvs[i]), RepFields(base, t, fvs, |t.fields|);
      (k in e <==> k in d) && (k in d ==> e[k] == d[k])
  {
    var fs := t.fields;
    forall j | 0 <= j < |fs| && j != i
      ensures k !in KeysOf(fs[j])
    {
      KeysAreDisjoint(fs, i, j);
    }
    FieldsKeepOthers(base, t, fvs, 0, i, k);
    FieldsKeepOthers(base, t, fvs, i + 1, |fs|, k);
    AddFieldLocal(RepFields(base, t, fvs, i), fs[i], fvs[i], k);
  }

  /** The entries of an object, by name: each field that is there has one, and the name of the
      alternative is beside it if that is a scalar or a map; an object in a variant field has it
      inside, under "@type". */
  lemma ObjectEntries(ty: string, t: Type, fvs: seq<FieldValue>, i: nat)
    requires t.TObject? && i < |fvs| == |t.fields| && NamesOk(t.fields) && FieldOk(t.fields[i], fvs[i])
    ensures var name, fv, d := t.fields[i].name, fvs[i], RepFields(ObjectBase(ty), t, fvs, |fvs|);
      && Rep(ty, t, VObject(fvs)) == CDict(d)
      && (name in d <==> !fv.Absent?)
      && (fv.Held? ==> d[name] == Rep("", t.fields[i].kind.t, fv.v))
      && (fv.Chosen? ==> HasChosen(d, name, t.fields[i].kind.alts[fv.index], fv.v))
      && ("@type" in d <==> ty != "") && (ty != "" ==> d["@type"] == CStr(ty))
  {
    var f := t.fields[i];
    TagIsNotType(f);
    FieldLookup(ObjectBase(ty), t, fvs, i, f.name);
    if f.kind.Variant? {
      FieldLookup(ObjectBase(ty), t, fvs, i, TagKey(f.name));
      assert |TagKey(f.name)| == |f.name| + 6;
    }
    forall j | 0 <= j < |fvs|
      ensures "@type" !in KeysOf(t.fields[j])
    {
      TagIsNotType(t.fields[j]);
    }
    FieldsKeepOthers(ObjectBase(ty), t, fvs, 0, |fvs|, "@type");
    hide RepFields, KeysOf, NamesOk, WellTyped;
  }

  predicate HasChosen(d: map<string, CV>, name: string, alt: Alt, v: Value) {
    && name in d && d[name] == Rep(alt.name, alt.t, v)
    && ("@" + name + "-type" in d <==> !alt.t.TList? && !alt.t.TObject?)
    && ("@" + name + "-type" in d ==> d["@" + name + "-type"] == CStr(alt.name))
  }

  lemma AddFieldLocal(d: map<string, CV>, f: Field, fv: FieldValue, k: string)
    requires k !in d
    ensures var a, b := AddField(d, f, fv), AddField(map[], f, fv);
      (k in a <==> k in b) && (k in b ==> a[k] == b[k])
  {
    hide Rep, Tag;
  }
}
