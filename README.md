# retag: verified model of the type-rewriting engine

`retag` takes a pointer to a Go struct and a tag maker. The maker is a policy that
computes the tag of field `i` of a struct type. `retag` returns a pointer to the
same memory, typed by a struct of the same shape in which every exported field
carries the maker's tag. The engine behind this lives in `tags.go`:

- `makeType` dispatches on the kind of a type:
  - a struct is guarded by a per-conversion `seen` set;
  - a pointer, array or slice is rebuilt only when its element changed;
  - a map is rebuilt only when its key or value changed;
  - an interface is allowed only in the lenient `ConvertAny` mode;
  - channels, functions and unsafe pointers are rejected;
  - every other kind passes through unchanged.
- `makeStructType` walks the fields in order and retags the exported ones. It
  tracks the flags `changed`, `hasPrivate` and `hasIface`. It fails when a
  struct with an unexported field would change, and when the rebuilt struct's
  size differs from the original's.
- `getType` memoises results per (type, maker). A strict call does not reuse
  a stored result that carries `hasIface`. `tags.go` sets that flag only for
  an interface reached directly or through struct fields, not through a
  pointer, array, slice or map (see Findings).
- `convert`, `Convert` and `ConvertAny` resolve the pointee type of the
  pointer argument.

The model has seven modules:

- `Types` holds the type descriptors (`Type`, `Field`), `IsExported`, an
  abstract `Size`, and the `Res` record (`t`, `changed`, `hasIface`). A panic
  is an `Err` outcome.
- `Rules` holds the per-kind results of `makeType`, one step of the field loop,
  and the end of `makeStructType` together with `compareStructTypes`.
- `Synth` is the corrected engine as functions threading an explicit state:
  the cache and the seen set. It departs from `tags.go` in the two places that
  Findings records:
  - the seen set holds the struct types themselves, not `PkgPath.Name`;
  - pointer, array, slice and map results carry the element's `hasIface`.
- `Retag.Engine` is the same corrected engine in its own imperative form. It
  is a class with the cache and the seen set as fields, and a `while` loop
  over the fields. Each method is proved to compute exactly what its `Synth` function computes.
- `Reference` is the structural rewrite, the same recursion with neither cache
  nor seen set. Lemmas give it a meaning:
  - a success is a retagging (`Retagged`) of the same size;
  - `changed` holds exactly when the type differs;
  - strict mode agrees with lenient mode except where an interface is reached;
  - unsupported kinds are rejected wherever they are reached;
  - a rewrite fails only where it reaches a rejected kind, or a struct with an
    unexported or unnamed field.
- `Agreement` proves that memoisation is transparent. From a sound cache
  (every entry is the rewrite of its key), `getType` returns the structural
  rewrite and leaves a sound cache. Hence every conversion from the empty cache
  returns the rewrite. Repeating a conversion returns the same result, and
  after a success it leaves the cache as it was.
- `AsWritten` is the engine exactly as `tags.go` writes it, keeping the two
  places where the code departs from what it evidently intends (see Findings),
  with an input that shows each.

The maker is a `MakerId` (a natural number). It is interpreted by a fixed tag
policy `TagFn`, a function of (maker, struct type, field index), because the
source requires `MakeTag` to be pure.

Apart from the two corrections above, where the documentation and the code
disagree the model follows the code:

- The Go documentation says that `Convert` panics unless its argument is a
  pointer to a struct. `convert` (tags.go:65-71) does not check this: it
  resolves the element type of any pointer. The model does the same and
  returns `NotPointer` only for a non-pointer argument.
- `isExported` indexes `name[0]`, so an empty field name panics. The model's
  field loop returns `EmptyFieldName` in that case.

## Model

| member | source | states |
|---|---|---|
| Types.IsExported | tags.go:205-208 | a non-empty name is exported exactly when its first character is neither a lowercase ASCII letter nor `_` |
| Rules.WithElem | tags.go:122-134 | the rebuilt pointer, array or slice has the same kind over the new element, and an array keeps its length |
| Rules.ElemRule | tags.go:117-134 | corrected: `changed` and `hasIface` are the element's. An unchanged element gives back the original type; a changed one gives the same wrapper over the new element |
| Rules.MapRule | tags.go:135-141 | corrected: the map is changed exactly when its key or value is, and carries `hasIface` when either does. Unchanged, it is the original type; changed, it is the map over the new key and value |
| Rules.LeafRule | tags.go:142-154 | succeeds exactly on a kind that is not a channel, function or unsafe pointer, and not an interface in strict mode. A success is the unchanged original, with `hasIface` set exactly for an interface. A failure names the type as unsupported |
| Rules.PrivateStep | tags.go:184-193 | an unexported field is copied as it is, marks the struct as having a private field, and leaves `changed` and `hasIface` alone |
| Rules.ExportedStep | tags.go:168-183 | an exported field gets the resolved type and the maker's tag for (struct, index). The struct is changed when this field differs. `hasIface` takes in the field's |
| Rules.CompareStructTypes | tags.go:210-223 | the check passes exactly when both types have the same size; a struct always passes against itself |
| Rules.Finish | tags.go:195-202 | an unchanged struct comes back as the original. A changed one panics when it has a private field, then when the sizes differ; otherwise it is the rebuilt unnamed struct. Flags are carried from the loop |
| Synth.Stale | tags.go:99 | a lenient call reuses every stored entry; a strict call refuses exactly those carrying `hasIface` |
| Synth.GetType | tags.go:92-106 | a usable stored entry is returned with the state untouched. An entry is not usable when it is missing, or when it carries `hasIface` and the call is strict. On success the cache holds the result under (type, maker). The seen set and the cache keys only grow |
| Synth.MakeType | tags.go:108-116 | a struct already in the seen set comes back unchanged with the state untouched. Every struct visited ends up in the seen set, and the set only grows |
| Synth.MakeStructType | tags.go:158-161 | a struct without fields comes back unchanged with the state untouched |
| Synth.MakeFields | tags.go:166-194 | the field loop only adds to the seen set and to the cache keys |
| Synth.Convert | tags.go:65-71 | a non-pointer argument is an error, with the state untouched. On success the result is a pointer over the stored entry of the pointee |
| Reference.Rewrite | tags.go:108-203 | the structural rewrite without cache or seen set; an unchanged success is the original type (its meaning is given by the lemmas below) |
| Reference.RewriteFields | tags.go:165-194 | the loop emits one field per input field; `changed`, `hasPrivate` and `hasIface` never go back to false |
| Reference.RetaggedSize | tags.go:200-201 | a retagged type has the size of the original, so the size check of compareStructTypes never fires |
| Reference.RewriteRetags | tags.go:108-203 | on success the result is a retagging: same kinds, array lengths and field names; exported fields carry the maker's tag; unexported fields are unchanged. It has the original's size, and `changed` holds exactly when it differs from the original. A failure is never a size mismatch |
| Reference.RewriteFieldsRetag | tags.go:166-196 | each emitted field keeps its name. An exported field gets the resolved type and the maker's tag; an unexported field is copied. `changed` holds exactly when some emitted field differs |
| Reference.ModeAgreement | tags.go:142-146 | strict succeeds exactly when lenient succeeds without `hasIface`, and then both give the same result |
| Reference.ModeAgreementFields | tags.go:166-177 | the same agreement for the field loop |
| Reference.RejectedWhereReached | tags.go:142-151 | if an exported field, element, key or value reaches a kind that the mode rejects, the whole rewrite fails |
| Reference.RejectedFieldWhereReached | tags.go:166-171 | rejection through one exported field makes the field loop fail |
| Reference.UnsupportedKindsRejected | tags.go:147-151 | reaching a channel, function or unsafe pointer fails in both modes |
| Reference.IfaceFlag | tags.go:142-145 | a lenient success carries `hasIface` exactly when an interface is reached |
| Reference.IfaceFlagFields | tags.go:175-177 | the loop's `hasIface` is set exactly when an exported field reaches an interface |
| Reference.StrictRejectsInterfaces | tags.go:142-151 | strict succeeds exactly when lenient succeeds and no interface is reached |
| Reference.FailsOnlyWhereBlocked | tags.go:142-151 | the converse of RejectedWhereReached: a failure reaches an unsupported kind, an interface in strict mode, or a struct with an unexported or unnamed field. The size check never fires |
| Reference.FailsOnlyWhereBlockedFields | tags.go:166-201 | the same for the field loop; a private field is recorded only when the struct has one |
| Agreement.StrictStorable | tags.go:99-103 | a successful rewrite from either mode can be stored and reused by that mode |
| Agreement.GetTypeAgrees | tags.go:92-106 | from a sound cache and a seen set that cuts nothing short, getType returns the structural rewrite and leaves the cache sound |
| Agreement.MakeTypeAgrees | tags.go:108-156 | the same for makeType, on a miss |
| Agreement.MakeStructTypeAgrees | tags.go:158-203 | the same for makeStructType |
| Agreement.MakeFieldsAgrees | tags.go:166-194 | the same for the field loop, from any index |
| Agreement.ConvertAgrees | tags.go:65-71 | from a sound cache (the empty one included), convert returns the pointer to the rewritten pointee and leaves the cache sound. The pointee is retagged and keeps its size; the pointer differs from the argument exactly when `changed`. A failure is `NotPointer` or reaches what FailsOnlyWhereBlocked names |
| Agreement.RepeatConvert | tags.go:95-104 | converting the same pointer type again with the same maker and mode returns the same result. After a success the cache is left as it was |
| Retag.Engine.constructor | tags.go:85-90 | the cache starts empty and sound |
| Retag.Engine.GetType | tags.go:92-106 | the method computes Synth.GetType on the object's cache and seen set |
| Retag.Engine.MakeType | tags.go:108-156 | the method computes Synth.MakeType on the object's state |
| Retag.Engine.MakeStructType | tags.go:158-203 | the loop computes Synth.MakeStructType on the object's state |
| Retag.Engine.ConvertWith | tags.go:65-71 | the method computes Synth.Convert. From a sound cache it returns the structural rewrite and keeps the cache sound |
| Retag.Engine.Convert | tags.go:55-57 | strict conversion, with the same guarantees |
| Retag.Engine.ConvertAny | tags.go:61-63 | lenient conversion, with the same guarantees |
| AsWritten.SeenKey | tags.go:111 | as written: the seen key is (package path, name), so every unnamed struct gets the same key |
| AsWritten.ElemResult | tags.go:117-134 | as written: the pointer, array and slice results follow the element's `changed`, give back the original type when unchanged and the wrapper over the new element otherwise, but never carry `hasIface` |
| AsWritten.MapResult | tags.go:135-141 | as written: the map result is changed exactly when the key or value changed. It is the original type when unchanged and the map over the new key and value otherwise, and never carries `hasIface` |
| AsWritten.GetType | tags.go:92-106 | as written: a usable stored entry is returned with the state untouched; on success the result is stored under (type, maker); the seen set and the cache keys only grow |
| AsWritten.MakeType | tags.go:108-156 | as written: a struct whose (package path, name) is already in the seen set comes back unchanged with the state untouched; every struct visited leaves its key in the seen set |
| AsWritten.MakeStructType | tags.go:158-203 | as written: a struct without fields comes back unchanged with the state untouched; the seen set and the cache keys only grow |
| AsWritten.MakeFields | tags.go:166-194 | as written: the field loop only adds to the seen set and to the cache keys |
| AsWritten.AnonymousStructsShareSeenKey | tags.go:110-116 | two distinct unnamed structs share the seen key. Converting a struct that holds both leaves the second one untagged, which is not a retagging |
| AsWritten.LenientEntryServesStrictCall | tags.go:99-104 | after a lenient conversion of a struct with a `[]interface{}` field, a strict conversion succeeds from the cache. The same strict conversion on an empty cache fails, and so does the strict rewrite |

## Left out

- Building real runtime types (`reflect.StructOf`, `PtrTo`, `ArrayOf`, `SliceOf`, `MapOf`) is modelled by the datatype constructors; a rebuilt struct is unnamed (`Struct("", "", fields)`), as `StructOf` makes it.
- Real byte sizes, alignment and padding are not modelled: `Size` is an abstract sum of the field sizes, with fixed sizes for pointers, slices, maps and interfaces.
- The unsafe reinterpretation of the argument's memory in `convert` (`reflect.NewAt`, tags.go:69-70) is memory aliasing and is not modelled. The conversions return the result type.
- The `sync.RWMutex` around the cache and the accepted race between concurrent misses are concurrency; the cache is sequential state.
- `init`'s Go version check and the go1.7 stripping of unexported field names (tags.go:186-191, 225-234) depend on the runtime version. In any case, a changed struct with an unexported field fails.
- Cyclic types cannot be built from a finite datatype and are not modelled. A cycle made only of named pointer, slice or map types (`type L []L`, `type M map[string]M`, reached through an exported field) does recurse forever, as the comment at tags.go:41-43 says; only structs enter the seen set, and nothing is cached before `makeType` returns (tags.go:100-102). A cycle through a named struct (`type T struct{ Next *T }`) does not. The inner occurrence of `T` finds its key in the seen set and comes back unchanged (tags.go:112-113). `getType` caches that result (tags.go:102), and the outer call then overwrites the entry. The rebuilt struct's `Next` still points to the original `T`. In the corrected engine the seen guard never cuts a finite type short, as `Agreement.GetTypeAgrees` shows.
- `fmt.Sprintf` and the panic texts are not modelled: panics are `Err` outcomes naming the offending type, and the seen key is a pair.
- The `finishedProcessing` field of `result` (tags.go:82) is never read or written by the code and is not modelled.
- `convert` on a slice, map, channel or array value: `Elem()` and `Pointer()` accept some of these, but the model treats every non-pointer argument as an error.
- Panics inside `reflect.MapOf` on non-comparable key types, and `StructOf`'s limit on promoted methods, live in the runtime and are not modelled.
- Named non-struct types (a named slice, say) are modelled by their structure; a rebuilt one loses its name just as `SliceOf` loses it.
- A field's `Offset`, `PkgPath`, `Index` and `Anonymous` flag are not modelled; the name, type and tag are.
- The maker's comparability (a non-comparable maker panics as a map key) is not modelled: a maker is a number.

## Findings

| source | as written | input that shows it | evidently intended | confidence | as-written member | corrected member |
|---|---|---|---|---|---|---|
| tags.go:111-115 | the seen set is keyed by `PkgPath.Name`, so every unnamed struct has the key `.` and two distinct types with the same name in one package collide | `type S struct { A struct{ X int }; B struct{ Y int } }` (a named struct) with a maker tagging every field `json`: B is taken as already being processed and keeps the empty tag on Y | the guard stops only at a struct already entered on this conversion, so every reachable struct is retagged | high; not executed | AsWritten.AnonymousStructsShareSeenKey | Synth.MakeType (seen keyed by the type itself), proved by Agreement.GetTypeAgrees and Reference.RewriteRetags |
| tags.go:117-141 | the pointer, array, slice and map branches return results without the element's `hasIface`, so a lenient entry for a struct holding `[]interface{}` is stored without the flag | `ConvertAny` then `Convert` on `struct { F []interface{} }`: the strict call is served from the cache and succeeds, whereas on an empty cache it panics | a strict conversion never returns a type that still holds an interface, whatever was converted before | high; not executed | AsWritten.LenientEntryServesStrictCall | Rules.ElemRule and Rules.MapRule (propagating `hasIface`), proved by Agreement.ConvertAgrees (every reachable cache stays sound) with Reference.StrictRejectsInterfaces |
