/** The writer: a stack of pointers into the value under construction.  Saving a value of any
    nesting fills one slot with its representation and leaves the stack as it found it. */
module ConfigWriter {
  import opened BinaryFormat
  import opened ConfigValues

  datatype Frame =
    | FVal(p: Path)                                  // config_value*
    | FDict(p: Path)                                 // settings*
    | FAbsent
    | FPresent(p: Path, name: string, ty: string)    // a field of the dictionary at p
    | FList(p: Path)

  /** What the source takes for granted: a pointer is valid and its type tells the truth. */
  predicate Points(root: CV, f: Frame) {
    match f
    case FVal(p) => Reaches(root, p)
    case FDict(p) => Reaches(root, p) && Get(root, p).CDict?
    case FAbsent => true
    case FPresent(p, _, _) => Reaches(root, p) && Get(root, p).CDict?
    case FList(p) => Reaches(root, p) && Get(root, p).CList?
  }

  /** The frame stands for a place where a value may go. */
  predicate IsSlot(root: CV, f: Frame) {
    Points(root, f) && (f.FVal? || f.FList? || (f.FPresent? && f.name !in Get(root, f.p).d))
  }

  /** A slot where also the tag of a variant field, if any, is still missing. */
  predicate IsFree(root: CV, f: Frame) {
    IsSlot(root, f) && (f.FPresent? && f.ty != "" ==> TagKey(f.name) !in Get(root, f.p).d)
  }

  function TypeOf(f: Frame): string {
    if f.FPresent? then f.ty else ""
  }

  function Filled(root: CV, f: Frame, x: CV, tag: string): CV
    requires IsSlot(root, f)
  {
    match f
    case FVal(p) => Put(root, p, x)
    case FPresent(p, name, _) => Put(root, p, CDict(Entry(Get(root, p).d, name, x, tag)))
    case FList(p) => Put(root, p, CList(Get(root, p).xs + [x]))
  }

  /** What a failure leaves: the entry without its tag if only the tag was taken already. */
  function Refused(root: CV, st: seq<Frame>, x: CV): CV {
    if st != [] && IsSlot(root, st[|st| - 1]) then Filled(root, st[|st| - 1], x, "") else root
  }

  /** Where the slot's value is, once it is there. */
  function Place(root: CV, f: Frame): Path
    requires IsSlot(root, f)
  {
    match f
    case FVal(p) => p
    case FPresent(p, name, _) => p + [Key(name)]
    case FList(p) => p + [Idx(|Get(root, p).xs|)]
  }

  /** The stack below the frames that belong to the slot's value: a pointer to the root is morphed,
      the others stay. */
  function Base(st: seq<Frame>): seq<Frame>
    requires st != []
  {
    if st[|st| - 1].FVal? then st[..|st| - 1] else st
  }

  /** The stack after a value of the type was saved. */
  function After(st: seq<Frame>, t: Type): seq<Frame>
    requires st != []
  {
    var top := st[|st| - 1];
    if IsScalar(t) || !top.FVal? then st
    else if t.TMap? then Base(st) + [FDict(top.p)]
    else Base(st)
  }

  /** Changing the slot's value afterwards is the same as filling in the other value. */
  lemma FilledThenPut(root: CV, f: Frame, a: CV, b: CV, tag: string)
    requires IsSlot(root, f) && (f.FPresent? ==> TagKey(f.name) != f.name)
    ensures var r, p := Filled(root, f, a, tag), Place(root, f);
      Reaches(r, p) && Get(r, p) == a && Put(r, p, b) == Filled(root, f, b, tag)
  {
    match f
    case FVal(p) =>
      GetPut(root, p, a);
      PutPut(root, p, a, b);
    case FPresent(p, _, _) => FieldFilledThenPut(root, f, a, b, tag);
    case FList(p) => ElementFilledThenPut(root, p, a, b);
  }

  lemma FieldFilledThenPut(root: CV, f: Frame, a: CV, b: CV, tag: string)
    requires IsSlot(root, f) && f.FPresent? && TagKey(f.name) != f.name
    ensures var r, p := Filled(root, f, a, tag), Place(root, f);
      Reaches(r, p) && Get(r, p) == a && Put(r, p, b) == Filled(root, f, b, tag)
  {
    var p, name, d := f.p, f.name, Get(root, f.p).d;
    var c := CDict(Entry(d, name, a, tag));
    EntryUpdated(d, name, a, b, tag);
    hide Get, Put, Reaches, Entry;
    GetPut(root, p, c);
    PutPut(root, p, c, CDict(Entry(d, name, b, tag)));
    PutChild(Filled(root, f, a, tag), p, Key(name), b);
  }

  lemma EntryUpdated(d: map<string, CV>, name: string, a: CV, b: CV, tag: string)
    requires TagKey(name) != name
    ensures var e := Entry(d, name, a, tag);
      name in e && e[name] == a && e[name := b] == Entry(d, name, b, tag)
  {
  }

  lemma ElementFilledThenPut(root: CV, p: Path, a: CV, b: CV)
    requires Reaches(root, p) && Get(root, p).CList?
    ensures var r, at := Put(root, p, CList(Get(root, p).xs + [a])), p + [Idx(|Get(root, p).xs|)];
      Reaches(r, at) && Get(r, at) == a && Put(r, at, b) == Put(root, p, CList(Get(root, p).xs + [b]))
  {
    var xs := Get(root, p).xs;
    var c := CList(xs + [a]);
    GetPut(root, p, c);
    PutPut(root, p, c, CList(xs + [b]));
    assert WithChild(c, Idx(|xs|), b) == CList(xs + [b]);
    hide Get, Put, Reaches;
    PutChild(Put(root, p, c), p, Idx(|xs|), b);
  }

  lemma TagIsOther(name: string)
    ensures TagKey(name) != name
  {
    assert |TagKey(name)| == |name| + 6;
  }

  class ConfigValueWriter {
    var root: CV
    var st: seq<Frame>

    ghost predicate Valid()
      reads this
    {
      st != [] ==> Points(root, st[|st| - 1])
    }

    constructor (dst: CV)
      ensures Valid() && root == dst && st == [FVal([])]
    {
      root, st := dst, [FVal([])];
    }

    /** The common part of the operations that put something into a slot: an entry of a field must
        be new, in a list the value goes to the end, and the root is overwritten. */
    method Emplace(x: CV) returns (ok: bool, at: Path)
      requires Valid()
      modifies this`root
      ensures ok <==> st != [] && IsSlot(old(root), st[|st| - 1])
      ensures ok ==> root == Filled(old(root), st[|st| - 1], x, "") && at == Place(old(root), st[|st| - 1])
      ensures !ok ==> root == old(root)
    {
      if st == [] {
        return false, [];
      }
      match st[|st| - 1]
      case FVal(p) =>
        root := Put(root, p, x);
        return true, p;
      case FDict(_) => return false, [];
      case FAbsent => return false, [];
      case FPresent(p, name, _) =>
        var parent := Get(root, p).d;
        if name in parent {
          return false, [];
        }
        root := Put(root, p, CDict(parent[name := x]));
        return true, p + [Key(name)];
      case FList(p) =>
        var ls := Get(root, p).xs;
        root := Put(root, p, CList(ls + [x]));
        return true, p + [Idx(|ls|)];
    }

    /** Stores the alternative of a variant field beside its value. */
    method PutTag() returns (ok: bool)
      requires st != [] && Points(root, st[|st| - 1])
      modifies this`root
      ensures var f := st[|st| - 1];
        if f.FPresent? && f.ty != "" then
          && (ok <==> TagKey(f.name) !in Get(old(root), f.p).d)
          && (ok ==> root == Put(old(root), f.p, CDict(Get(old(root), f.p).d[TagKey(f.name) := CStr(f.ty)])))
          && (!ok ==> root == old(root))
        else ok && root == old(root)
    {
      var f := st[|st| - 1];
      if f.FPresent? && f.ty != "" {
        var parent := Get(root, f.p).d;
        if TagKey(f.name) in parent {
          return false;
        }
        root := Put(root, f.p, CDict(parent[TagKey(f.name) := CStr(f.ty)]));
      }
      return true;
    }

    /** Both: the entry is made before the tag is found to exist, so that a failure leaves it. */
    method EmplaceTagged(x: CV) returns (ok: bool, at: Path)
      requires Valid()
      modifies this`root
      ensures ok <==> st != [] && IsFree(old(root), st[|st| - 1])
      ensures ok ==> root == Filled(old(root), st[|st| - 1], x, TypeOf(st[|st| - 1]))
      ensures ok ==> at == Place(old(root), st[|st| - 1])
      ensures !ok ==> root == Refused(old(root), st, x)
    {
      ok, at := Emplace(x);
      if ok {
        var f := st[|st| - 1];
        if f.FPresent? {
          ghost var d := Get(old(root), f.p).d;
          TagIsOther(f.name);
          GetPut(old(root), f.p, CDict(d[f.name := x]));
          PutPut(old(root), f.p, CDict(d[f.name := x]), CDict(Entry(d, f.name, x, f.ty)));
          ok := PutTag();
        }
      }
    }

    method Push(x: CV) returns (ok: bool)
      requires Valid()
      modifies this`root
      ensures ok <==> st != [] && IsFree(old(root), st[|st| - 1])
      ensures ok ==> root == Filled(old(root), st[|st| - 1], x, TypeOf(st[|st| - 1]))
      ensures !ok ==> root == Refused(old(root), st, x)
    {
      var at: Path;
      ok, at := EmplaceTagged(x);
    }

    /** Only 64-bit unsigned integers may be too large, from two to the power of 63 on. */
    method IntValue(w: Width, signed: bool, i: int) returns (ok: bool)
      requires Valid() && InRange(w, signed, i)
      modifies this`root
      ensures ok <==> i < 0x8000_0000_0000_0000 && st != [] && IsFree(old(root), st[|st| - 1])
      ensures ok ==> root == Filled(old(root), st[|st| - 1], CInt(i), TypeOf(st[|st| - 1]))
      ensures !ok ==> root == if i < 0x8000_0000_0000_0000 then Refused(old(root), st, CInt(i)) else old(root)
    {
      if w.W8? && !signed && i > INT64_MAX {
        return false;
      }
      ok := Push(CInt(i));
    }

    method BeginObject() returns (ok: bool)
      requires Valid()
      modifies this
      ensures ok <==> old(st) != [] && IsSlot(old(root), old(st)[|old(st)| - 1])
      ensures ok ==>
        var f := old(st)[|old(st)| - 1];
        && root == Filled(old(root), f, CDict(ObjectBase(TypeOf(f))), "")
        && st == Base(old(st)) + [FDict(Place(old(root), f))]
      ensures !ok ==> root == old(root) && st == old(st)
    {
      var ty := if st == [] then "" else TypeOf(st[|st| - 1]);
      var at: Path;
      ok, at := Emplace(CDict(ObjectBase(ty)));
      if ok {
        st := Base(st) + [FDict(at)];
      }
    }

    method EndObject() returns (ok: bool)
      modifies this`st
      ensures ok <==> old(st) != [] && old(st)[|old(st)| - 1].FDict?
      ensures st == if ok then old(st)[..|old(st)| - 1] else old(st)
    {
      ok := st != [] && st[|st| - 1].FDict?;
      if ok {
        st := st[..|st| - 1];
      }
    }

    method BeginField(name: string, isPresent: bool) returns (ok: bool)
      modifies this`st
      ensures ok <==> old(st) != [] && old(st)[|old(st)| - 1].FDict?
      ensures !ok ==> st == old(st)
      ensures ok ==>
        st == old(st) + [if isPresent then FPresent(old(st)[|old(st)| - 1].p, name, "") else FAbsent]
    {
      ok := st != [] && st[|st| - 1].FDict?;
      if ok {
        st := st + [if isPresent then FPresent(st[|st| - 1].p, name, "") else FAbsent];
      }
    }

    /** A variant field remembers the name of its alternative, which must exist. */
    method BeginVariantField(name: string, isPresent: bool, types: seq<string>, index: nat) returns (ok: bool)
      modifies this`st
      ensures ok <==> old(st) != [] && old(st)[|old(st)| - 1].FDict? && (isPresent ==> index < |types| && types[index] != "")
      ensures !ok ==> st == old(st)
      ensures ok ==>
        st == old(st) + [if isPresent then FPresent(old(st)[|old(st)| - 1].p, name, types[index]) else FAbsent]
    {
      if !isPresent {
        ok := BeginField(name, false);
        return;
      }
      ok := st != [] && st[|st| - 1].FDict? && index < |types| && types[index] != "";
      if ok {
        st := st + [FPresent(st[|st| - 1].p, name, types[index])];
      }
    }

    method EndField() returns (ok: bool)
      modifies this`st
      ensures ok <==> old(st) != [] && (old(st)[|old(st)| - 1].FPresent? || old(st)[|old(st)| - 1].FAbsent?)
      ensures st == if ok then old(st)[..|old(st)| - 1] else old(st)
    {
      ok := st != [] && (st[|st| - 1].FPresent? || st[|st| - 1].FAbsent?);
      if ok {
        st := st[..|st| - 1];
      }
    }

    method BeginSequence() returns (ok: bool)
      requires Valid()
      modifies this
      ensures ok <==> old(st) != [] && IsSlot(old(root), old(st)[|old(st)| - 1])
      ensures ok ==>
        var f := old(st)[|old(st)| - 1];
        && root == Filled(old(root), f, CList([]), "")
        && st == Base(old(st)) + [FList(Place(old(root), f))]
      ensures !ok ==> root == old(root) && st == old(st)
    {
      var at: Path;
      ok, at := Emplace(CList([]));
      if ok {
        st := Base(st) + [FList(at)];
      }
    }

    method EndSequence() returns (ok: bool)
      modifies this`st
      ensures ok <==> old(st) != [] && old(st)[|old(st)| - 1].FList?
      ensures st == if ok then old(st)[..|old(st)| - 1] else old(st)
    {
      ok := st != [] && st[|st| - 1].FList?;
      if ok {
        st := st[..|st| - 1];
      }
    }

    /** At the root this morphs the pointer and pushes it once more. */
    method BeginAssociativeArray() returns (ok: bool)
      requires Valid()
      modifies this
      ensures ok <==> old(st) != [] && IsFree(old(root), old(st)[|old(st)| - 1])
      ensures ok ==>
        var f := old(st)[|old(st)| - 1];
        && root == Filled(old(root), f, CDict(map[]), TypeOf(f))
        && st == (if f.FVal? then Base(old(st)) + [FDict(f.p)] else old(st)) + [FDict(Place(old(root), f))]
      ensures !ok ==> st == old(st) && root == Refused(old(root), st, CDict(map[]))
    {
      var at: Path;
      ok, at := EmplaceTagged(CDict(map[]));
      if ok {
        var f := st[|st| - 1];
        if f.FVal? {
          st := Base(st) + [FDict(f.p)];
        }
        st := st + [FDict(at)];
      }
    }

    method BeginKeyValuePair() returns (ok: bool)
      requires Valid()
      modifies this
      ensures ok <==> old(st) != [] && old(st)[|old(st)| - 1].FDict? && "@tmp" !in Get(old(root), old(st)[|old(st)| - 1].p).d
      ensures ok ==>
        var p := old(st)[|old(st)| - 1].p;
        && root == Put(old(root), p, CDict(Get(old(root), p).d["@tmp" := CList([])]))
        && st == old(st) + [FList(p + [Key("@tmp")])]
      ensures !ok ==> root == old(root) && st == old(st)
    {
      if st == [] || !st[|st| - 1].FDict? {
        return false;
      }
      var p := st[|st| - 1].p;
      var d := Get(root, p).d;
      if "@tmp" in d {
        return false;
      }
      root := Put(root, p, CDict(d["@tmp" := CList([])]));
      st := st + [FList(p + [Key("@tmp")])];
      return true;
    }

    /** Turns the temporary list into an entry of the dictionary below it.  A key that is not a
        string is first rendered as one. */
    method EndKeyValuePair(render: CV -> string) returns (ok: bool)
      requires Valid()
      requires |st| >= 2 && st[|st| - 1].FList? && st[|st| - 2].FDict? ==>
        Points(root, st[|st| - 2]) && st[|st| - 1].p == st[|st| - 2].p + [Key("@tmp")]
      modifies this
      ensures var n := |old(st)|;
        ok ==>
          && n >= 2 && old(st)[n - 1].FList? && old(st)[n - 2].FDict?
          && |Get(old(root), old(st)[n - 1].p).xs| == 2
          && st == old(st)[..n - 1]
          && var p, tmp := old(st)[n - 2].p, Get(old(root), old(st)[n - 1].p).xs;
             var d, key := Get(old(root), p).d - {"@tmp"}, KeyText(tmp[0], render);
             key !in d && root == Put(old(root), p, CDict(d[key := tmp[1]]))
      ensures var n := |old(st)|;
        n >= 2 && old(st)[n - 1].FList? && old(st)[n - 2].FDict? && |Get(old(root), old(st)[n - 1].p).xs| == 2
        && KeyText(Get(old(root), old(st)[n - 1].p).xs[0], render) !in Get(old(root), old(st)[n - 2].p).d - {"@tmp"}
        ==> ok
      ensures var n := |old(st)|;
        if n == 0 || !old(st)[n - 1].FList? || |Get(old(root), old(st)[n - 1].p).xs| != 2 then st == old(st)
        else st == old(st)[..n - 1]
      ensures !ok ==>
        var n := |old(st)|;
        root ==
          if st == old(st) || n < 2 || !old(st)[n - 2].FDict? then old(root)
          else Put(old(root), old(st)[n - 2].p, CDict(Get(old(root), old(st)[n - 2].p).d - {"@tmp"}))
    {
      if st == [] || !st[|st| - 1].FList? {
        return false;
      }
      var tmp := Get(root, st[|st| - 1].p).xs;
      if |tmp| != 2 {
        return false;
      }
      st := st[..|st| - 1];
      if st == [] || !st[|st| - 1].FDict? {
        return false;
      }
      var p := st[|st| - 1].p;
      var d := Get(root, p).d - {"@tmp"};
      var key := KeyText(tmp[0], render);
      ghost var before := root;
      root := Put(root, p, CDict(d));
      if key in d {
        return false;
      }
      GetPut(before, p, CDict(d));
      PutPut(before, p, CDict(d), CDict(d[key := tmp[1]]));
      root := Put(root, p, CDict(d[key := tmp[1]]));
      return true;
    }

    // -- saving whole values ------------------------------------------------------------------------

    /** Saves any value into any free slot: the slot holds its representation, nothing else in the
        value under construction changes, and the stack returns to its depth. */
    method Save(t: Type, v: Value) returns (ok: bool)
      requires st != [] && IsFree(root, st[|st| - 1]) && WellTyped(t, v)
      modifies this
      ensures ok && st == After(old(st), t)
      ensures var f := old(st)[|old(st)| - 1];
        root == Filled(old(root), f, Rep(TypeOf(f), t, v), Tag(t, TypeOf(f)))
      decreases t
    {
      match t
      case TList(_) => ok := SaveList(t, v);
      case TMap(_) => ok := SaveMap(t, v);
      case TObject(_, _) => ok := SaveObject(t, v);
      case TInt(w, s) => ok := IntValue(w, s, v.i);
      case _ => ok := Push(Rep("", t, v));
    }

    method SaveObject(t: Type, v: Value) returns (ok: bool)
      requires st != [] && IsFree(root, st[|st| - 1]) && t.TObject? && WellTyped(t, v)
      modifies this
      ensures ok && st == After(old(st), t)
      ensures var f := old(st)[|old(st)| - 1];
        root == Filled(old(root), f, Rep(TypeOf(f), t, v), "")
      decreases t, 1
    {
      ghost var r0, f := root, st[|st| - 1];
      ghost var base, q := ObjectBase(TypeOf(f)), Place(r0, f);
      assert Valid() && forall i :: 0 <= i < |t.fields| ==> FieldOk(t.fields[i], v.fields[i]);
      hide Filled, Place, IsFree, IsSlot, AddField, FieldOk, KeysOf, NamesOk, WellTyped, Get, Put, Reaches, Points;
      ok := BeginObject();
      ghost var below := After(old(st), t);
      assert st == below + [FDict(q)];
      ok := SaveFields(t, v.fields, r0, f, below);
      ok := EndObject();
    }

    method SaveFields(t: Type, fvs: seq<FieldValue>, ghost r0: CV, ghost f: Frame, ghost below: seq<Frame>) returns (ok: bool)
      requires t.TObject? && |fvs| == |t.fields| && NamesOk(t.fields)
      requires forall i :: 0 <= i < |fvs| ==> FieldOk(t.fields[i], fvs[i])
      requires IsSlot(r0, f) && st == below + [FDict(Place(r0, f))]
      requires root == Filled(r0, f, CDict(RepFields(ObjectBase(TypeOf(f)), t, fvs, 0)), "")
      modifies this
      ensures ok && st == old(st)
      ensures root == Filled(r0, f, CDict(RepFields(ObjectBase(TypeOf(f)), t, fvs, |fvs|)), "")
      decreases t, 0
    {
      hide Filled, Place, IsSlot, AddField, FieldOk, KeysOf, NamesOk, WellTyped, Get, Put, Reaches, Points, RepFields;
      ok := true;
      for i := 0 to |fvs|
        invariant ok && st == old(st)
        invariant root == Filled(r0, f, CDict(RepFields(ObjectBase(TypeOf(f)), t, fvs, i)), "")
      {
        ObjectStep(r0, f, t, fvs, i);
        ok := SaveField(t.fields[i], fvs[i]);
      }
    }

    method SaveField(f: Field, fv: FieldValue) returns (ok: bool)
      requires st != [] && st[|st| - 1].FDict? && Points(root, st[|st| - 1]) && FieldOk(f, fv)
      requires KeysOf(f) !! Get(root, st[|st| - 1].p).d.Keys
      modifies this
      ensures ok && st == old(st)
      ensures var p := st[|st| - 1].p;
        root == Put(old(root), p, CDict(AddField(Get(old(root), p).d, f, fv)))
      decreases f
    {
      ghost var p := st[|st| - 1].p;
      match fv {
        case Absent =>
          PutGet(root, p);
          ok := BeginField(f.name, false);
        case Held(v) =>
          ok := BeginField(f.name, true);
          hide Put, WellTyped;
          ok := Save(f.kind.t, v);
        case Chosen(i, v) =>
          var alt := f.kind.alts[i];
          ok := BeginVariantField(f.name, true, TypeNames(f.kind.alts), i);
          hide Put, WellTyped;
          ok := Save(alt.t, v);
      }
      assert st[..|st| - 1] == old(st);
      ok := EndField();
    }

    method SaveList(t: Type, v: Value) returns (ok: bool)
      requires st != [] && IsFree(root, st[|st| - 1]) && t.TList? && WellTyped(t, v)
      modifies this
      ensures ok && st == After(old(st), t)
      ensures var f := old(st)[|old(st)| - 1];
        root == Filled(old(root), f, Rep(TypeOf(f), t, v), "")
      decreases t, 1
    {
      ghost var r0, f := root, st[|st| - 1];
      ghost var q := Place(r0, f);
      assert forall i :: 0 <= i < |v.xs| ==> WellTyped(t.elem, v.xs[i]);
      assert RepList(t, []) == [];
      assert Rep(TypeOf(f), t, v) == CList(RepList(t, v.xs));
      assert Valid();
      hide Filled, Place, IsFree, IsSlot, Rep, RepList, WellTyped, Get, Put, Reaches, Points;
      ok := BeginSequence();
      ghost var below := After(old(st), t);
      assert st == below + [FList(q)];
      ok := SaveElems(t, v.xs, r0, f, below);
      ok := EndSequence();
    }

    method SaveElems(t: Type, xs: seq<Value>, ghost r0: CV, ghost f: Frame, ghost below: seq<Frame>) returns (ok: bool)
      requires t.TList? && forall i :: 0 <= i < |xs| ==> WellTyped(t.elem, xs[i])
      requires IsSlot(r0, f) && st == below + [FList(Place(r0, f))]
      requires root == Filled(r0, f, CList(RepList(t, [])), "")
      modifies this
      ensures ok && st == old(st) && root == Filled(r0, f, CList(RepList(t, xs)), "")
      decreases t, 0
    {
      ghost var q := Place(r0, f);
      assert xs[..|xs|] == xs && xs[..0] == [];
      hide Filled, Place, IsSlot, Rep, RepList, Get, Put, Reaches, Points, WellTyped;
      ok := true;
      for i := 0 to |xs|
        invariant ok && st == old(st)
        invariant root == Filled(r0, f, CList(RepList(t, xs[..i])), "")
      {
        ListStep(r0, f, t, xs, i);
        AfterInner(below, FList(q), t.elem);
        ok := Save(t.elem, xs[i]);
      }
    }

    method SaveMap(t: Type, v: Value) returns (ok: bool)
      requires st != [] && IsFree(root, st[|st| - 1]) && t.TMap? && WellTyped(t, v)
      modifies this
      ensures ok && st == After(old(st), t)
      ensures var f := old(st)[|old(st)| - 1];
        root == Filled(old(root), f, Rep(TypeOf(f), t, v), TypeOf(f))
      decreases t, 2
    {
      ghost var r0, f := root, st[|st| - 1];
      ghost var q, ty := Place(r0, f), TypeOf(f);
      RepKeysEnds(ty, t, v);
      assert Valid() && forall k :: k in v.m ==> WellTyped(t.value, v.m[k]);
      hide Filled, Place, IsFree, IsSlot, Rep, RepKeys, Get, Put, Reaches, Points, WellTyped;
      ok := BeginAssociativeArray();
      ghost var below := After(old(st), t);
      assert st == below + [FDict(q)];
      ok := SaveEntries(t, v.m, r0, f, below);
      ok := EndObject();
    }

    method SaveEntries(t: Type, m: map<string, Value>, ghost r0: CV, ghost f: Frame, ghost below: seq<Frame>) returns (ok: bool)
      requires t.TMap? && "@tmp" !in m && (forall k :: k in m ==> WellTyped(t.value, m[k]))
      requires IsSlot(r0, f) && st == below + [FDict(Place(r0, f))]
      requires root == Filled(r0, f, CDict(RepKeys(t, m, m.Keys)), TypeOf(f))
      modifies this
      ensures ok && st == old(st) && root == Filled(r0, f, CDict(RepKeys(t, m, {})), TypeOf(f))
      decreases t, 1
    {
      hide Filled, Place, IsSlot, Rep, RepKeys, Get, Put, Reaches, Points, WellTyped;
      ok := true;
      var keys := m.Keys;
      while keys != {}
        invariant ok && keys <= m.Keys && st == old(st)
        invariant root == Filled(r0, f, CDict(RepKeys(t, m, keys)), TypeOf(f))
        decreases |keys|
      {
        var k :| k in keys;
        MapStep(r0, f, t, m, keys, k);
        ok := SavePair(t, k, m[k]);
        keys := keys - {k};
      }
    }

    /** One key-value pair, in whatever order the map is traversed. */
    method SavePair(t: Type, k: string, v: Value) returns (ok: bool)
      requires t.TMap? && WellTyped(t.value, v) && k != "@tmp"
      requires st != [] && st[|st| - 1].FDict? && Points(root, st[|st| - 1])
      requires k !in Get(root, st[|st| - 1].p).d && "@tmp" !in Get(root, st[|st| - 1].p).d
      modifies this
      ensures ok && st == old(st)
      ensures var p := st[|st| - 1].p;
        root == Put(old(root), p, CDict(Get(old(root), p).d[k := Rep("", t.value, v)]))
      decreases t, 0
    {
      ghost var r0, p := root, st[|st| - 1].p;
      ghost var x := Rep("", t.value, v);
      PairSteps(r0, p, k, x);
      assert Valid();
      hide *;
      ok := BeginKeyValuePair();
      ok := Push(CStr(k));
      ok := Save(t.value, v);
      ok := EndKeyValuePair(_ => "");
    }
  }

  /** The states that saving a key-value pair goes through. */
  lemma PairSteps(root: CV, p: Path, k: string, x: CV)
    requires Points(root, FDict(p)) && k !in Get(root, p).d && "@tmp" !in Get(root, p).d
    ensures var d, f := Get(root, p).d, FList(p + [Key("@tmp")]);
      var r1 := Put(root, p, CDict(d["@tmp" := CList([])]));
      var r2 := Put(root, p, CDict(d["@tmp" := CList([CStr(k)])]));
      var r3 := Put(root, p, CDict(d["@tmp" := CList([CStr(k), x])]));
      && Points(r1, f) && IsFree(r1, f) && Filled(r1, f, CStr(k), "") == r2
      && IsFree(r2, f) && Filled(r2, f, x, "") == r3
      && Points(r3, FDict(p)) && Points(r3, f) && Get(r3, f.p) == CList([CStr(k), x])
      && Get(r3, p).d - {"@tmp"} == d
      && Put(r3, p, CDict(d[k := x])) == Put(root, p, CDict(d[k := x]))
  {
    var d := Get(root, p).d;
    assert [] + [CStr(k)] == [CStr(k)] && [CStr(k)] + [x] == [CStr(k), x];
    TmpGrows(root, p, d, [], CStr(k));
    TmpGrows(root, p, d, [CStr(k)], x);
    TmpGrows(root, p, d, [CStr(k), x], x);
    var c := CDict(d["@tmp" := CList([CStr(k), x])]);
    GetPut(root, p, c);
    PutPut(root, p, c, CDict(d[k := x]));
    assert c.d - {"@tmp"} == d;
  }

  /** At a pointer to a value nothing is left of it on the stack, except after a map and a scalar. */
  lemma AfterPointer(below: seq<Frame>, p: Path, t: Type)
    ensures After(below + [FVal(p)], t) ==
      below + if t.TMap? then [FDict(p)] else if t.TList? || t.TObject? then [] else [FVal(p)]
  {
  }

  lemma AfterInner(below: seq<Frame>, f: Frame, t: Type)
    requires !f.FVal?
    ensures After(below + [f], t) == below + [f]
  {
  }

  /** One more element of a list that fills a slot. */
  lemma ListStep(root: CV, f: Frame, t: Type, xs: seq<Value>, i: nat)
    requires IsSlot(root, f) && t.TList? && i < |xs|
    ensures var r, g := Filled(root, f, CList(RepList(t, xs[..i])), ""), FList(Place(root, f));
      && IsFree(r, g)
      && Filled(r, g, Rep("", t.elem, xs[i]), "") == Filled(root, f, CList(RepList(t, xs[..i + 1])), "")
  {
    var ls, x := RepList(t, xs[..i]), Rep("", t.elem, xs[i]);
    assert xs[..i + 1][..i] == xs[..i];
    assert RepList(t, xs[..i + 1]) == ls + [x];
    TagIsOther(if f.FPresent? then f.name else "");
    FilledThenPut(root, f, CList(ls), CList(ls + [x]), "");
    hide RepList, Rep;
  }

  /** One more field of an object that fills a slot. */
  lemma ObjectStep(root: CV, f: Frame, t: Type, fvs: seq<FieldValue>, i: nat)
    requires IsSlot(root, f) && t.TObject? && i < |fvs| == |t.fields| && NamesOk(t.fields)
    ensures var base := ObjectBase(TypeOf(f));
      var d, e := RepFields(base, t, fvs, i), RepFields(base, t, fvs, i + 1);
      var r, g := Filled(root, f, CDict(d), ""), FDict(Place(root, f));
      && Points(r, g) && Get(r, g.p) == CDict(d) && KeysOf(t.fields[i]) !! d.Keys
      && e == AddField(d, t.fields[i], fvs[i])
      && Put(r, g.p, CDict(e)) == Filled(root, f, CDict(e), "")
  {
    var base := ObjectBase(TypeOf(f));
    TagIsOther(if f.FPresent? then f.name else "");
    FilledThenPut(root, f, CDict(RepFields(base, t, fvs, i)), CDict(RepFields(base, t, fvs, i + 1)), "");
    FieldIsNew(TypeOf(f), t, fvs, i);
  }

  /** One more entry of a map that fills a slot. */
  lemma MapStep(root: CV, f: Frame, t: Type, m: map<string, Value>, left: set<string>, k: string)
    requires IsSlot(root, f) && t.TMap? && k in left && left <= m.Keys && "@tmp" !in m
    ensures var d, e := RepKeys(t, m, left), RepKeys(t, m, left - {k});
      var r, g := Filled(root, f, CDict(d), TypeOf(f)), FDict(Place(root, f));
      && Points(r, g) && Get(r, g.p) == CDict(d) && k !in d && "@tmp" !in d
      && e == d[k := Rep("", t.value, m[k])]
      && Put(r, g.p, CDict(e)) == Filled(root, f, CDict(e), TypeOf(f))
  {
    RepKeysStep(t, m, left, k);
    TagIsOther(if f.FPresent? then f.name else "");
    FilledThenPut(root, f, CDict(RepKeys(t, m, left)), CDict(RepKeys(t, m, left - {k})), TypeOf(f));
  }

  /** The representation of a map without the keys that are left to do. */
  function RepKeys(t: Type, m: map<string, Value>, left: set<string>): map<string, CV>
    requires t.TMap?
  {
    map k | k in m && k !in left :: Rep("", t.value, m[k])
  }

  lemma RepKeysEnds(ty: string, t: Type, v: Value)
    requires t.TMap? && v.VMap?
    ensures RepKeys(t, v.m, v.m.Keys) == map[] && Rep(ty, t, v) == CDict(RepKeys(t, v.m, {}))
  {
  }

  lemma RepKeysStep(t: Type, m: map<string, Value>, left: set<string>, k: string)
    requires t.TMap? && k in left && left <= m.Keys
    ensures var d := RepKeys(t, m, left);
      k !in d && d.Keys <= m.Keys && RepKeys(t, m, left - {k}) == d[k := Rep("", t.value, m[k])]
  {
  }

  /** Appending to the temporary list of a key-value pair. */
  lemma TmpGrows(root: CV, p: Path, d: map<string, CV>, xs: seq<CV>, x: CV)
    requires Reaches(root, p)
    ensures var r := Put(root, p, CDict(d["@tmp" := CList(xs)]));
      var f := FList(p + [Key("@tmp")]);
      && Points(r, f) && IsFree(r, f) && Get(r, f.p) == CList(xs)
      && Filled(r, f, x, "") == Put(root, p, CDict(d["@tmp" := CList(xs + [x])]))
  {
    var c, e := CDict(d["@tmp" := CList(xs)]), CDict(d["@tmp" := CList(xs + [x])]);
    GetPut(root, p, c);
    PutChild(Put(root, p, c), p, Key("@tmp"), CList(xs + [x]));
    assert WithChild(c, Key("@tmp"), CList(xs + [x])) == e;
    PutPut(root, p, c, e);
  }

  function KeyText(x: CV, render: CV -> string): string {
    if x.CStr? then x.s else render(x)
  }
}
