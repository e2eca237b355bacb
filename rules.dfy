/**
 * The per-kind branches of makeType and the steps of makeStructType's field
 * loop, apart from the recursive calls: given the results the recursive calls
 * produced, what result (or panic) each branch returns.  The stateful engine
 * (Synth), its imperative form (Retag) and the stateless reference (Reference)
 * all use these, so each branch is defined once.
 */
module Rules {
  import opened Types

  /** The kinds rebuilt only when their element changes. */
  predicate HasElemOnly(t: Type) {
    t.Ptr? || t.Array? || t.Slice?
  }

  /** The kinds makeType handles without a recursive call. */
  predicate IsLeaf(t: Type) {
    !t.Struct? && !HasElemOnly(t) && !t.Map?
  }

  /** The same pointer, array (of the same length) or slice type over another element. */
  function WithElem(t: Type, e: Type): (w: Type)
    requires HasElemOnly(t)
    ensures HasElemOnly(w) && w.elem == e
    ensures (w.Ptr? <==> t.Ptr?) && (w.Array? <==> t.Array?) && (w.Slice? <==> t.Slice?)
    ensures w.Array? ==> w.len == t.len
  {
    match t
    case Ptr(_) => Ptr(e)
    case Array(n, _) => Array(n, e)
    case Slice(_) => Slice(e)
  }

  /**
   * Pointer, array, slice: the original type when the element is unchanged,
   * otherwise the wrapper over the new element.  The element's hasIface is
   * carried up (the source drops it here; see AsWritten.ElemResult).
   */
  function ElemRule(t: Type, r: Res): (res: Res)
    requires HasElemOnly(t)
    ensures res.changed == r.changed && res.hasIface == r.hasIface
    ensures !res.changed ==> res.t == t
    ensures res.changed ==> res.t == WithElem(t, r.t)
  {
    if !r.changed then Res(t, false, r.hasIface)
    else Res(WithElem(t, r.t), true, r.hasIface)
  }

  /** Map: unchanged iff key and value are; the flags of both are carried up (see AsWritten.MapResult). */
  function MapRule(t: Type, rk: Res, re: Res): (res: Res)
    requires t.Map?
    ensures res.changed <==> rk.changed || re.changed
    ensures res.hasIface <==> rk.hasIface || re.hasIface
    ensures !res.changed ==> res.t == t
    ensures res.changed ==> res.t == Map(rk.t, re.t)
  {
    if !rk.changed && !re.changed then Res(t, false, rk.hasIface || re.hasIface)
    else Res(Map(rk.t, re.t), true, rk.hasIface || re.hasIface)
  }

  predicate IsInterface(t: Type) {
    t.Interface?
  }

  /** The kinds rejected in both modes. */
  predicate IsUnsupported(t: Type) {
    t.Chan? || t.Func? || t.UnsafePointer?
  }

  /** Interface (lenient only), unsupported kinds, and the passed-through kinds. */
  function LeafRule(t: Type, any: bool): (r: Outcome<Res>)
    requires IsLeaf(t)
    ensures r.Ok? <==> !IsUnsupported(t) && (IsInterface(t) ==> any)
    ensures r.Ok? ==> r.value == Res(t, false, IsInterface(t))
    ensures r.Err? ==> r.error == Unsupported(t)
  {
    match t
    case Interface(_) => if any then Ok(Res(t, false, true)) else Err(Unsupported(t))
    case Chan(_) => Err(Unsupported(t))
    case Func => Err(Unsupported(t))
    case UnsafePointer => Err(Unsupported(t))
    case Basic(_, _) => Ok(Res(t, false, false))
  }

  /** What makeStructType's loop has gathered so far. */
  datatype Acc = Acc(fields: seq<Field>, changed: bool, hasPrivate: bool, hasIface: bool)

  const NoFields: Acc := Acc([], false, false, false)

  /** An unexported field is copied as it is; it marks the struct as having a private field. */
  function PrivateStep(acc: Acc, fld: Field): (next: Acc)
    ensures next.fields == acc.fields + [fld] && next.hasPrivate
    ensures next.changed == acc.changed && next.hasIface == acc.hasIface
  {
    Acc(acc.fields + [fld], acc.changed, true, acc.hasIface)
  }

  /**
   * An exported field i of `owner` takes the type its recursive result r gives and
   * the tag the maker makes; the struct changes if either differs.
   */
  function ExportedStep(f: TagFn, m: MakerId, owner: Type, i: nat, acc: Acc, fld: Field, r: Res): (next: Acc)
    ensures next.fields == acc.fields + [Field(fld.name, r.t, f(m, owner, i))]
    ensures next.changed <==> acc.changed || fld != Field(fld.name, r.t, f(m, owner, i))
    ensures next.hasPrivate == acc.hasPrivate
    ensures next.hasIface <==> acc.hasIface || r.hasIface
  {
    var newTag := f(m, owner, i);
    Acc(acc.fields + [Field(fld.name, r.t, newTag)],
        acc.changed || fld.typ != r.t || fld.tag != newTag,
        acc.hasPrivate,
        acc.hasIface || r.hasIface)
  }

  /** The struct reflect.StructOf builds from the gathered fields: unnamed, in no package. */
  function Rebuilt(acc: Acc): Type {
    Struct("", "", acc.fields)
  }

  /** compareStructTypes: the rebuilt struct must have the source's size; a struct always passes against itself. */
  function CompareStructTypes(source: Type, result: Type): (ok: bool)
    ensures ok <==> Size(result) == Size(source)
    ensures source == result ==> ok
  {
    Size(source) == Size(result)
  }

  /**
   * What makeStructType returns once the loop has run over every field: the original
   * struct when nothing changed; otherwise a panic for a private field or a size
   * difference, or the rebuilt unnamed struct.
   */
  function Finish(t: Type, acc: Acc): (r: Outcome<Res>)
    ensures r.Ok? <==> !acc.changed || (!acc.hasPrivate && Size(Rebuilt(acc)) == Size(t))
    ensures r.Ok? ==> r.value.changed == acc.changed && r.value.hasIface == acc.hasIface
    ensures r.Ok? ==> r.value.t == if acc.changed then Rebuilt(acc) else t
    ensures r.Err? ==> r.error == if acc.hasPrivate then PrivateFields(t) else SizeMismatch(t)
  {
    if !acc.changed then Ok(Res(t, false, acc.hasIface))
    else if acc.hasPrivate then Err(PrivateFields(t))
    else if !CompareStructTypes(t, Rebuilt(acc)) then Err(SizeMismatch(t))
    else Ok(Res(Rebuilt(acc), true, acc.hasIface))
  }
}
