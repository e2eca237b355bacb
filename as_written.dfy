/**
 * The engine exactly as tags.go writes it, where it differs from the corrected
 * engine of Synth in two places:
 *  - the seen guard keys a struct by "PkgPath.Name" (SeenKey), so every unnamed
 *    struct shares the key "." and two distinct types with the same package and
 *    name share one key;
 *  - the pointer, array, slice and map branches drop the element's hasIface
 *    (ElemResult, MapResult), so a lenient cache entry can serve a strict call.
 * The two lemmas at the end exhibit an input for each.
 */
module AsWritten {
  import opened Types
  import opened Rules
  import Reference
  import Synth

  datatype State = State(cache: map<Synth.Key, Res>, seen: set<(string, string)>)

  /** The seen-set key of a struct type: its package path and name; every unnamed struct has the same one. */
  function SeenKey(t: Type): (k: (string, string))
    requires t.Struct?
    ensures t.pkg == "" && t.name == "" ==> k == ("", "")
  {
    (t.pkg, t.name)
  }

  /** Pointer, array, slice as written: the result never carries hasIface. */
  function ElemResult(t: Type, r: Res): (res: Res)
    requires HasElemOnly(t)
    ensures !res.hasIface
    ensures res.changed == r.changed
    ensures !res.changed ==> res.t == t
    ensures res.changed ==> res.t == WithElem(t, r.t)
  {
    if !r.changed then Res(t, false, false) else Res(WithElem(t, r.t), true, false)
  }

  /** Map as written: the result never carries hasIface. */
  function MapResult(t: Type, rk: Res, re: Res): (res: Res)
    requires t.Map?
    ensures !res.hasIface
    ensures res.changed == (rk.changed || re.changed)
    ensures !res.changed ==> res.t == t
    ensures res.changed ==> res.t == Map(rk.t, re.t)
  {
    if !rk.changed && !re.changed then Res(t, false, false) else Res(Map(rk.t, re.t), true, false)
  }

  function GetType(f: TagFn, st: State, t: Type, m: MakerId, any: bool): (run: Run<State, Res>)
    decreases t, 3, 0
    ensures st.seen <= run.st.seen && st.cache.Keys <= run.st.cache.Keys
    ensures (t, m) in st.cache && !Synth.Stale(st.cache[(t, m)], any) ==> run == Run(Ok(st.cache[(t, m)]), st)
    ensures run.out.Ok? ==> (t, m) in run.st.cache && run.st.cache[(t, m)] == run.out.value
  {
    var key := (t, m);
    if key in st.cache && !Synth.Stale(st.cache[key], any) then Run(Ok(st.cache[key]), st)
    else
      var run := MakeType(f, st, t, m, any);
      match run.out
      case Err(_) => run
      case Ok(res) => Run(Ok(res), run.st.(cache := run.st.cache[key := res]))
  }

  function MakeType(f: TagFn, st: State, t: Type, m: MakerId, any: bool): (run: Run<State, Res>)
    decreases t, 2, 0
    ensures st.seen <= run.st.seen && st.cache.Keys <= run.st.cache.Keys
    ensures t.Struct? && SeenKey(t) in st.seen ==> run == Run(Ok(Res(t, false, false)), st)
    ensures t.Struct? ==> SeenKey(t) in run.st.seen
  {
    if t.Struct? then
      if SeenKey(t) in st.seen then Run(Ok(Res(t, false, false)), st)
      else MakeStructType(f, st.(seen := st.seen + {SeenKey(t)}), t, m, any)
    else if HasElemOnly(t) then
      var run := GetType(f, st, t.elem, m, any);
      match run.out
      case Err(e) => Run(Err(e), run.st)
      case Ok(r) => Run(Ok(ElemResult(t, r)), run.st)
    else if t.Map? then
      var runKey := GetType(f, st, t.key, m, any);
      match runKey.out
      case Err(e) => Run(Err(e), runKey.st)
      case Ok(rk) =>
        var runElem := GetType(f, runKey.st, t.elem, m, any);
        match runElem.out
        case Err(e) => Run(Err(e), runElem.st)
        case Ok(re) => Run(Ok(MapResult(t, rk, re)), runElem.st)
    else Run(LeafRule(t, any), st)
  }

  function MakeStructType(f: TagFn, st: State, t: Type, m: MakerId, any: bool): (run: Run<State, Res>)
    requires t.Struct?
    decreases t, 1, 0
    ensures st.seen <= run.st.seen && st.cache.Keys <= run.st.cache.Keys
    ensures |t.fields| == 0 ==> run == Run(Ok(Res(t, false, false)), st)
  {
    if |t.fields| == 0 then Run(Ok(Res(t, false, false)), st)
    else
      var run := MakeFields(f, st, t, m, any, 0, NoFields);
      match run.out
      case Err(e) => Run(Err(e), run.st)
      case Ok(acc) => Run(Finish(t, acc), run.st)
  }

  function MakeFields(f: TagFn, st: State, t: Type, m: MakerId, any: bool, i: nat, acc: Acc): (run: Run<State, Acc>)
    requires t.Struct? && i <= |t.fields|
    decreases t, 0, |t.fields| - i
    ensures st.seen <= run.st.seen && st.cache.Keys <= run.st.cache.Keys
  {
    if i == |t.fields| then Run(Ok(acc), st)
    else
      var fld := t.fields[i];
      if |fld.name| == 0 then Run(Err(EmptyFieldName(t)), st)
      else if !IsExported(fld.name) then MakeFields(f, st, t, m, any, i + 1, PrivateStep(acc, fld))
      else
        var run := GetType(f, st, fld.typ, m, any);
        match run.out
        case Err(e) => Run(Err(e), run.st)
        case Ok(r) => MakeFields(f, run.st, t, m, any, i + 1, ExportedStep(f, m, t, i, acc, fld, r))
  }

  // ---------------------------------------------------------------------------
  // Counterexamples

  const Int: Type := Basic("int", 8)

  /** A maker that tags every field `json`. */
  function JsonTags(m: MakerId, owner: Type, i: nat): string {
    "json"
  }

  const Empty: State := State(map[], {})

  /**
   * type S struct { A struct{ X int }; B struct{ Y int } } in package p: both field types are unnamed
   * structs with seen key ("", ""), so once A has been entered, B is taken for a
   * struct already being processed and is returned unchanged (and cached so).
   * The converted S keeps B's inner field untagged, which is not a retagging of S.
   */
  lemma AnonymousStructsShareSeenKey()
    ensures var a := Struct("", "", [Field("X", Int, "")]);
            var b := Struct("", "", [Field("Y", Int, "")]);
            var s := Struct("p", "S", [Field("A", a, ""), Field("B", b, "")]);
            var a' := Struct("", "", [Field("X", Int, "json")]);
            var s' := Struct("", "", [Field("A", a', "json"), Field("B", b, "json")]);
            && a != b && SeenKey(a) == SeenKey(b)
            && GetType(JsonTags, Empty, s, 0, false).out == Ok(Res(s', true, false))
            && !Reference.Retagged(JsonTags, 0, s, s')
  {
    var f: TagFn := JsonTags;
    var a := Struct("", "", [Field("X", Int, "")]);
    var b := Struct("", "", [Field("Y", Int, "")]);
    var s := Struct("p", "S", [Field("A", a, ""), Field("B", b, "")]);
    var a' := Struct("", "", [Field("X", Int, "json")]);
    var s' := Struct("", "", [Field("A", a', "json"), Field("B", b, "json")]);
    var rInt := Res(Int, false, false);
    var rA := Res(a', true, false);
    var rB := Res(b, false, false);

    // Entering s, then a.
    var st1 := State(map[], {("p", "S")});
    var st2 := State(map[], {("p", "S"), ("", "")});
    assert GetType(f, st2, Int, 0, false) == Run(Ok(rInt), st2.(cache := map[(Int, 0) := rInt]));
    var st3 := st2.(cache := map[(Int, 0) := rInt]);
    var accA := ExportedStep(f, 0, a, 0, NoFields, a.fields[0], rInt);
    assert accA == Acc([Field("X", Int, "json")], true, false, false);
    assert MakeFields(f, st3, a, 0, false, 1, accA) == Run(Ok(accA), st3);
    assert MakeFields(f, st2, a, 0, false, 0, NoFields) == Run(Ok(accA), st3);
    assert a.fields[1..] == [] && a'.fields[1..] == [];
    assert FieldsSize(a.fields) == Size(Int) + FieldsSize(a.fields[1..]);
    assert FieldsSize([]) == 0;
    assert Size(Int) == 8;
    assert Size(a) == 8 == Size(a');
    assert Finish(a, accA) == Ok(rA);
    assert MakeStructType(f, st2, a, 0, false) == Run(Ok(rA), st3);
    assert st1.(seen := st1.seen + {SeenKey(a)}) == st2;
    assert MakeType(f, st1, a, 0, false) == Run(Ok(rA), st3);
    var st4 := st3.(cache := st3.cache[(a, 0) := rA]);
    assert GetType(f, st1, a, 0, false) == Run(Ok(rA), st4);

    // b has the key of a, which is already in the seen set.
    assert (b, 0) !in st4.cache;
    assert MakeType(f, st4, b, 0, false) == Run(Ok(rB), st4);
    var st5 := st4.(cache := st4.cache[(b, 0) := rB]);
    assert GetType(f, st4, b, 0, false) == Run(Ok(rB), st5);

    var acc1 := ExportedStep(f, 0, s, 0, NoFields, s.fields[0], rA);
    var acc2 := ExportedStep(f, 0, s, 1, acc1, s.fields[1], rB);
    assert acc2.fields == s'.fields && acc2.changed && !acc2.hasPrivate && !acc2.hasIface;
    assert MakeFields(f, st5, s, 0, false, 2, acc2) == Run(Ok(acc2), st5);
    assert MakeFields(f, st4, s, 0, false, 1, acc1) == Run(Ok(acc2), st5);
    assert MakeFields(f, st1, s, 0, false, 0, NoFields) == Run(Ok(acc2), st5);
    assert s.fields[1..] == [s.fields[1]] && s'.fields[1..] == [s'.fields[1]];
    assert b.fields[1..] == [] && s.fields[1..][1..] == [] && s'.fields[1..][1..] == [];
    assert FieldsSize(b.fields) == Size(Int) + FieldsSize(b.fields[1..]);
    assert Size(b) == 8;
    assert FieldsSize(s.fields[1..]) == Size(b) + FieldsSize(s.fields[1..][1..]);
    assert FieldsSize(s'.fields[1..]) == Size(b) + FieldsSize(s'.fields[1..][1..]);
    assert FieldsSize(s.fields) == Size(a) + FieldsSize(s.fields[1..]);
    assert FieldsSize(s'.fields) == Size(a') + FieldsSize(s'.fields[1..]);
    assert Size(s') == Size(s) == 16;
    assert Finish(s, acc2) == Ok(Res(s', true, false));
    assert MakeStructType(f, st1, s, 0, false).out == Ok(Res(s', true, false));
    assert Empty.(seen := Empty.seen + {SeenKey(s)}) == st1;
    assert MakeType(f, Empty, s, 0, false).out == Ok(Res(s', true, false));

    // Field B of s' is b itself, whose exported field Y lacks the maker's tag.
    assert !Reference.FieldRetagged(f, 0, s, 1, s'.fields[1]) by {
      assert !Reference.FieldRetagged(f, 0, b, 0, b.fields[0]);
      assert !Reference.Retagged(f, 0, b, b);
    }
  }

  /**
   * struct T { F []interface{} }: lenient conversion stores T's result with hasIface
   * unset, because the slice branch dropped it; a later strict conversion then reuses
   * that entry and succeeds, whereas a strict conversion on an empty cache panics, and
   * the structural rewrite rejects T in strict mode.
   */
  lemma LenientEntryServesStrictCall()
    ensures var t := Struct("p", "T", [Field("F", Slice(Interface("")), "")]);
            var lenient := GetType(JsonTags, Empty, t, 0, true);
            && lenient.out.Ok?
            && GetType(JsonTags, lenient.st, t, 0, false).out == lenient.out
            && GetType(JsonTags, Empty, t, 0, false).out.Err?
            && Reference.Rewrite(JsonTags, t, 0, false).Err?
  {
    var f: TagFn := JsonTags;
    var iface := Interface("");
    var sl := Slice(iface);
    var t := Struct("p", "T", [Field("F", sl, "")]);
    var t' := Struct("", "", [Field("F", sl, "json")]);
    var st1 := State(map[], {("p", "T")});

    // Lenient: the interface is kept, and its flag is lost at the slice.
    var rI := Res(iface, false, true);
    var rS := Res(sl, false, false);
    assert MakeType(f, st1, iface, 0, true) == Run(Ok(rI), st1);
    var st2 := st1.(cache := map[(iface, 0) := rI]);
    assert GetType(f, st1, iface, 0, true) == Run(Ok(rI), st2);
    assert MakeType(f, st1, sl, 0, true) == Run(Ok(rS), st2);
    var st3 := st2.(cache := st2.cache[(sl, 0) := rS]);
    assert GetType(f, st1, sl, 0, true) == Run(Ok(rS), st3);
    var acc := ExportedStep(f, 0, t, 0, NoFields, t.fields[0], rS);
    assert acc == Acc(t'.fields, true, false, false);
    assert MakeFields(f, st3, t, 0, true, 1, acc) == Run(Ok(acc), st3);
    assert MakeFields(f, st1, t, 0, true, 0, NoFields) == Run(Ok(acc), st3);
    assert t.fields[1..] == [] && t'.fields[1..] == [];
    assert FieldsSize([]) == 0;
    assert FieldsSize(t.fields) == Size(sl) + FieldsSize(t.fields[1..]);
    assert FieldsSize(t'.fields) == Size(sl) + FieldsSize(t'.fields[1..]);
    assert Size(t') == Size(t) == 24;
    assert Finish(t, acc) == Ok(Res(t', true, false));
    assert MakeStructType(f, st1, t, 0, true) == Run(Ok(Res(t', true, false)), st3);
    assert Empty.(seen := Empty.seen + {SeenKey(t)}) == st1;
    assert MakeType(f, Empty, t, 0, true) == Run(Ok(Res(t', true, false)), st3);
    var lenient := GetType(f, Empty, t, 0, true);
    assert lenient.out == Ok(Res(t', true, false));
    assert lenient.st.cache[(t, 0)] == Res(t', true, false);

    // Strict on an empty cache: the interface is rejected.
    assert MakeType(f, st1, iface, 0, false).out.Err?;
    assert GetType(f, st1, sl, 0, false).out.Err?;
    assert MakeFields(f, st1, t, 0, false, 0, NoFields).out.Err?;

    // The structural rewrite rejects T in strict mode.
    assert Reference.Reaches(t, IsInterface) by {
      assert Reference.Reaches(sl, IsInterface);
      assert ExportedField(t.fields[0]);
    }
    Reference.StrictRejectsInterfaces(f, t, 0);
  }
}
