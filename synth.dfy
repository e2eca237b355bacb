/**
 * The corrected engine of tags.go as functions over an explicit state: the memo cache
 * (keyed by type and maker) and the set of struct types entered during the
 * current conversion.  Each function returns its outcome together with the
 * state it leaves, also when it panics: cache entries written before a panic
 * stay.  It departs from tags.go in two places, both recorded as findings and
 * exhibited on the code as written in AsWritten: the seen set holds the struct
 * types themselves rather than "PkgPath.Name" (tags.go:111), and the pointer,
 * array, slice and map results carry the element's hasIface (tags.go:117-141).
 * The methods of Retag.Engine are proved to compute exactly these.
 */
module Synth {
  import opened Types
  import opened Rules

  type Key = (Type, MakerId)

  datatype State = State(cache: map<Key, Res>, seen: set<Type>)

  /** A stored entry computed leniently while keeping an interface must not serve a strict call. */
  function Stale(r: Res, any: bool): (b: bool)
    ensures any ==> !b
    ensures !any ==> (b <==> r.hasIface)
  {
    r.hasIface && !any
  }

  /** getType: reuse the stored result for (t, m) unless missing or stale; otherwise compute and store it. */
  function GetType(f: TagFn, st: State, t: Type, m: MakerId, any: bool): (run: Run<State, Res>)
    decreases t, 3, 0
    ensures st.seen <= run.st.seen && st.cache.Keys <= run.st.cache.Keys
    ensures (t, m) in st.cache && !Stale(st.cache[(t, m)], any) ==> run == Run(Ok(st.cache[(t, m)]), st)
    ensures run.out.Ok? ==> (t, m) in run.st.cache && run.st.cache[(t, m)] == run.out.value
  {
    var key := (t, m);
    if key in st.cache && !Stale(st.cache[key], any) then Run(Ok(st.cache[key]), st)
    else
      var run := MakeType(f, st, t, m, any);
      match run.out
      case Err(_) => run
      case Ok(res) => Run(Ok(res), run.st.(cache := run.st.cache[key := res]))
  }

  /** makeType: dispatch on the kind; a struct already entered in this conversion is not entered again. */
  function MakeType(f: TagFn, st: State, t: Type, m: MakerId, any: bool): (run: Run<State, Res>)
    decreases t, 2, 0
    ensures st.seen <= run.st.seen && st.cache.Keys <= run.st.cache.Keys
    ensures t.Struct? && t in st.seen ==> run == Run(Ok(Res(t, false, false)), st)
    ensures t.Struct? ==> t in run.st.seen
  {
    if t.Struct? then
      if t in st.seen then Run(Ok(Res(t, false, false)), st)
      else MakeStructType(f, st.(seen := st.seen + {t}), t, m, any)
    else if HasElemOnly(t) then
      var run := GetType(f, st, t.elem, m, any);
      match run.out
      case Err(e) => Run(Err(e), run.st)
      case Ok(r) => Run(Ok(ElemRule(t, r)), run.st)
    else if t.Map? then
      var runKey := GetType(f, st, t.key, m, any);
      match runKey.out
      case Err(e) => Run(Err(e), runKey.st)
      case Ok(rk) =>
        var runElem := GetType(f, runKey.st, t.elem, m, any);
        match runElem.out
        case Err(e) => Run(Err(e), runElem.st)
        case Ok(re) => Run(Ok(MapRule(t, rk, re)), runElem.st)
    else Run(LeafRule(t, any), st)
  }

  /** makeStructType: a struct without fields is kept; otherwise run the field loop and finish. */
  function MakeStructType(f: TagFn, st: State, t: Type, m: MakerId, any: bool): (run: Run<State, Res>)
    requires t.Struct?
    decreases t, 1, 0
    ensures st.seen <= run.st.seen && st.cache.Keys <= run.st.cache.Keys
    ensures |t.fields| == 0 ==> run == Run(Ok(Res(t, false, false)), st)
  {
    if |t.fields| == 0 then Run(Ok(Res(t, false, false)), st)
    else
      var run := MakeFields(f, st, t, m, any, 0, NoFields);
      match run.out
      case Err(e) => Run(Err(e), run.st)
      case Ok(acc) => Run(Finish(t, acc), run.st)
  }

  /** The field loop of makeStructType from index i on, with what the earlier iterations gathered. */
  function MakeFields(f: TagFn, st: State, t: Type, m: MakerId, any: bool, i: nat, acc: Acc): (run: Run<State, Acc>)
    requires t.Struct? && i <= |t.fields|
    decreases t, 0, |t.fields| - i
    ensures st.seen <= run.st.seen && st.cache.Keys <= run.st.cache.Keys
  {
    if i == |t.fields| then Run(Ok(acc), st)
    else
      var fld := t.fields[i];
      if |fld.name| == 0 then Run(Err(EmptyFieldName(t)), st)
      else if !IsExported(fld.name) then MakeFields(f, st, t, m, any, i + 1, PrivateStep(acc, fld))
      else
        var run := GetType(f, st, fld.typ, m, any);
        match run.out
        case Err(e) => Run(Err(e), run.st)
        case Ok(r) => MakeFields(f, run.st, t, m, any, i + 1, ExportedStep(f, m, t, i, acc, fld, r))
  }

  /**
   * convert: resolve the pointee of the pointer argument with a fresh seen set; the
   * result is the pointer type over the resolved type.
   */
  function Convert(f: TagFn, st: State, p: Type, m: MakerId, any: bool): (run: Run<State, Type>)
    ensures !p.Ptr? ==> run == Run(Err(NotPointer(p)), st)
    ensures st.cache.Keys <= run.st.cache.Keys
    ensures run.out.Ok? ==> run.out.value.Ptr? && (p.elem, m) in run.st.cache
                            && run.st.cache[(p.elem, m)].t == run.out.value.elem
  {
    if !p.Ptr? then Run(Err(NotPointer(p)), st)
    else
      var run := GetType(f, st.(seen := {}), p.elem, m, any);
      match run.out
      case Err(e) => Run(Err(e), run.st)
      case Ok(r) => Run(Ok(Ptr(r.t)), run.st)
  }
}
