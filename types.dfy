/**
 * Type descriptors as the retag engine sees them (the fragment of Go's
 * reflect.Type that the engine inspects), results and errors.
 */
module Types {

  /** A type description: its kind, and recursively its element, key and field types. */
  datatype Type =
    | Basic(name: string, size: nat)                        // bool, numbers, string, named scalars
    | Struct(pkg: string, name: string, fields: seq<Field>) // PkgPath, Name, fields in order
    | Ptr(elem: Type)
    | Array(len: nat, elem: Type)
    | Slice(elem: Type)
    | Map(key: Type, elem: Type)
    | Interface(name: string)
    | Chan(elem: Type)
    | Func
    | UnsafePointer

  /** A struct field: name, type and tag (offset, index and embedding are implied by the order). */
  datatype Field = Field(name: string, typ: Type, tag: string)

  /** A tag maker is identified by a comparable id; the tags it makes are given by one fixed policy. */
  type MakerId = nat

  /** The tag policy: MakeTag(maker, structType, fieldIndex); a total function, hence pure. */
  type TagFn = (MakerId, Type, nat) -> string

  /** The lowercase ASCII letters and the underscore: the first characters of unexported names. */
  const Unexported: string := "abcdefghijklmnopqrstuvwxyz_"

  /**
   * A field is exported unless its name starts with a lowercase ASCII letter or '_'.
   * The source tests the first byte of the UTF-8 name; a non-ASCII first character has a
   * lead byte of at least 0xC2, so testing the first character gives the same answer.
   */
  function IsExported(name: string): (b: bool)
    requires |name| > 0
    ensures b <==> name[0] !in Unexported
  {
    var c := name[0];
    assert 'a' <= c <= 'z' ==> Unexported[c as int - 'a' as int] == c by {
      if 'a' <= c <= 'z' { LowerAt(c as int - 'a' as int); }
    }
    !('a' <= c && c <= 'z') && c != '_'
  }

  lemma LowerAt(k: int)
    requires 0 <= k < 26
    ensures Unexported[k] == (k + 'a' as int) as char
  {
    assert |Unexported| == 27;
  }

  /** A field whose name is non-empty and exported: the only fields the engine rewrites. */
  predicate ExportedField(fld: Field) {
    |fld.name| > 0 && IsExported(fld.name)
  }

  /** Abstract byte size of a type; depends on the shape only, never on names or tags. */
  function Size(t: Type): nat {
    match t
    case Basic(_, n) => n
    case Struct(_, _, fs) => FieldsSize(fs)
    case Ptr(_) => 8
    case Array(n, e) => n * Size(e)
    case Slice(_) => 24
    case Map(_, _) => 8
    case Interface(_) => 16
    case Chan(_) => 8
    case Func => 8
    case UnsafePointer => 8
  }

  function FieldsSize(fs: seq<Field>): nat {
    if fs == [] then 0 else Size(fs[0].typ) + FieldsSize(fs[1..])
  }

  /** Nesting height of a type; every component type is strictly lower than its owner. */
  function Height(t: Type): nat {
    match t
    case Struct(_, _, fs) => 1 + FieldsHeight(fs)
    case Ptr(e) => 1 + Height(e)
    case Array(_, e) => 1 + Height(e)
    case Slice(e) => 1 + Height(e)
    case Chan(e) => 1 + Height(e)
    case Map(k, e) => 1 + (if Height(k) < Height(e) then Height(e) else Height(k))
    case _ => 0
  }

  function FieldsHeight(fs: seq<Field>): (h: nat)
    ensures forall i :: 0 <= i < |fs| ==> Height(fs[i].typ) <= h
  {
    if fs == [] then 0
    else
      var rest := FieldsHeight(fs[1..]);
      assert forall i :: 1 <= i < |fs| ==> fs[i] == fs[1..][i - 1];
      if Height(fs[0].typ) < rest then rest else Height(fs[0].typ)
  }

  /** The outcome of a step that can panic: a value, or the panic as an error. */
  datatype Outcome<T> = Ok(value: T) | Err(error: Error)

  datatype Error =
    | Unsupported(t: Type)     // chan, func, unsafe pointer; interface in strict mode
    | PrivateFields(t: Type)   // a struct with unexported fields would have to change
    | SizeMismatch(t: Type)    // the rebuilt struct's size differs from the source's
    | EmptyFieldName(t: Type)  // name[0] of an empty field name is out of range
    | NotPointer(t: Type)      // convert was given something other than a pointer

  /** The engine's result record: the type to use, whether it differs, whether an interface was kept. */
  datatype Res = Res(t: Type, changed: bool, hasIface: bool)

  /** A computation's outcome together with the state it leaves behind (also after a panic). */
  datatype Run<S, T> = Run(out: Outcome<T>, st: S)
}
