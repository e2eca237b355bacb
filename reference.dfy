/**
 * The structural rewrite that the engine memoises: the same recursion as
 * makeType and makeStructType with no cache and no seen set.  Its meaning is
 * stated by lemmas: a successful rewrite retags the type (Retagged), keeps its
 * size, reports `changed` exactly when the type differs, and rejects exactly
 * what the two modes forbid.
 */
module Reference {
  import opened Types
  import opened Rules

  function Rewrite(f: TagFn, t: Type, m: MakerId, any: bool): (r: Outcome<Res>)
    decreases t, 1, 0
    ensures r.Ok? && !r.value.changed ==> r.value.t == t
  {
    if t.Struct? then
      if |t.fields| == 0 then Ok(Res(t, false, false))
      else
        match RewriteFields(f, t, m, any, 0, NoFields)
        case Err(e) => Err(e)
        case Ok(acc) => Finish(t, acc)
    else if HasElemOnly(t) then
      match Rewrite(f, t.elem, m, any)
      case Err(e) => Err(e)
      case Ok(r) => Ok(ElemRule(t, r))
    else if t.Map? then
      match Rewrite(f, t.key, m, any)
      case Err(e) => Err(e)
      case Ok(rk) =>
        match Rewrite(f, t.elem, m, any)
        case Err(e) => Err(e)
        case Ok(re) => Ok(MapRule(t, rk, re))
    else LeafRule(t, any)
  }

  /** The field loop from index i on; the flags it gathers only ever go from false to true. */
  function RewriteFields(f: TagFn, t: Type, m: MakerId, any: bool, i: nat, acc: Acc): (r: Outcome<Acc>)
    requires t.Struct? && i <= |t.fields|
    decreases t, 0, |t.fields| - i
    ensures r.Ok? ==> |r.value.fields| == |acc.fields| + |t.fields| - i
    ensures r.Ok? ==> (acc.changed ==> r.value.changed) && (acc.hasPrivate ==> r.value.hasPrivate)
                      && (acc.hasIface ==> r.value.hasIface)
  {
    if i == |t.fields| then Ok(acc)
    else
      var fld := t.fields[i];
      if |fld.name| == 0 then Err(EmptyFieldName(t))
      else if !IsExported(fld.name) then RewriteFields(f, t, m, any, i + 1, PrivateStep(acc, fld))
      else
        match Rewrite(f, fld.typ, m, any)
        case Err(e) => Err(e)
        case Ok(r) => RewriteFields(f, t, m, any, i + 1, ExportedStep(f, m, t, i, acc, fld, r))
  }

  // ---------------------------------------------------------------------------
  // What a successful rewrite produces

  /**
   * u is t with every exported field of every struct reachable through exported
   * fields, elements, keys and values carrying the maker's tag: same kinds, same
   * array lengths, same field names in the same order, unexported fields untouched,
   * and a struct is either kept as it is or rebuilt unnamed without private fields.
   */
  ghost predicate Retagged(f: TagFn, m: MakerId, t: Type, u: Type)
    decreases t, 1
  {
    match t
    case Struct(_, _, fs) =>
      && u.Struct? && |u.fields| == |fs|
      && (u == t || (u.pkg == "" && u.name == "" && forall i :: 0 <= i < |fs| ==> ExportedField(fs[i])))
      && forall i :: 0 <= i < |fs| ==> FieldRetagged(f, m, t, i, u.fields[i])
    case Ptr(e) => u.Ptr? && Retagged(f, m, e, u.elem)
    case Array(n, e) => u.Array? && u.len == n && Retagged(f, m, e, u.elem)
    case Slice(e) => u.Slice? && Retagged(f, m, e, u.elem)
    case Map(k, e) => u.Map? && Retagged(f, m, k, u.key) && Retagged(f, m, e, u.elem)
    case _ => u == t
  }

  /** Field i of `owner` became g: same name; exported fields retagged, others copied. */
  ghost predicate FieldRetagged(f: TagFn, m: MakerId, owner: Type, i: nat, g: Field)
    requires owner.Struct? && i < |owner.fields|
    decreases owner, 0
  {
    var fld := owner.fields[i];
    && g.name == fld.name
    && if ExportedField(fld) then g.tag == f(m, owner, i) && Retagged(f, m, fld.typ, g.typ)
       else g == fld
  }

  lemma {:induction false} RetaggedSize(f: TagFn, m: MakerId, t: Type, u: Type)
    requires Retagged(f, m, t, u)
    ensures Size(u) == Size(t)
    decreases t
  {
    match t
    case Struct(_, _, fs) =>
      forall i | 0 <= i < |fs| ensures Size(u.fields[i].typ) == Size(fs[i].typ) {
        assert FieldRetagged(f, m, t, i, u.fields[i]);
        if ExportedField(fs[i]) {
          RetaggedSize(f, m, fs[i].typ, u.fields[i].typ);
        }
      }
      FieldsSizePointwise(fs, u.fields);
    case Ptr(e) =>
    case Array(n, e) => RetaggedSize(f, m, e, u.elem);
    case Slice(e) =>
    case Map(k, e) =>
    case _ =>
  }

  lemma {:induction false} FieldsSizePointwise(a: seq<Field>, b: seq<Field>)
    requires |a| == |b| && forall i :: 0 <= i < |a| ==> Size(a[i].typ) == Size(b[i].typ)
    ensures FieldsSize(a) == FieldsSize(b)
  {
    if a != [] {
      assert forall i :: 0 <= i < |a| - 1 ==> a[1..][i] == a[i + 1] && b[1..][i] == b[i + 1];
      FieldsSizePointwise(a[1..], b[1..]);
    }
  }

  /** Two sequences of equal length extended by one element are equal iff both parts are. */
  lemma AppendEq<T>(a: seq<T>, b: seq<T>, x: T, y: T)
    requires |a| == |b|
    ensures (a + [x] == b + [y]) <==> (a == b && x == y)
  {
    if a + [x] == b + [y] {
      assert (a + [x])[..|a|] == a && (b + [y])[..|b|] == b;
      assert (a + [x])[|a|] == x && (b + [y])[|b|] == y;
    }
  }

  /** The loop invariant of makeStructType's field loop after i fields. */
  ghost predicate FieldsInv(f: TagFn, m: MakerId, t: Type, i: nat, acc: Acc)
    requires t.Struct? && i <= |t.fields|
  {
    && |acc.fields| == i
    && (forall j :: 0 <= j < i ==> FieldRetagged(f, m, t, j, acc.fields[j]))
    && (acc.changed <==> acc.fields != t.fields[..i])
    && (!acc.hasPrivate ==> forall j :: 0 <= j < i ==> ExportedField(t.fields[j]))
  }

  /**
   * A successful rewrite is a retagging that reports `changed` exactly when the
   * type differs; and the size check never fires (compareStructTypes is only a guard).
   */
  lemma {:induction false} RewriteRetags(f: TagFn, t: Type, m: MakerId, any: bool)
    decreases t, 1
    ensures match Rewrite(f, t, m, any)
            case Ok(r) => Retagged(f, m, t, r.t) && (r.changed <==> r.t != t) && Size(r.t) == Size(t)
            case Err(e) => !e.SizeMismatch?
  {
    if t.Struct? {
      if |t.fields| > 0 {
        RewriteFieldsRetag(f, t, m, any, 0, NoFields);
        match RewriteFields(f, t, m, any, 0, NoFields)
        case Err(e) =>
        case Ok(acc) =>
          assert t.fields[..|t.fields|] == t.fields;
          if !acc.changed {
            assert forall j :: 0 <= j < |t.fields| ==> FieldRetagged(f, m, t, j, t.fields[j]);
          } else if !acc.hasPrivate {
            var u := Rebuilt(acc);
            assert Retagged(f, m, t, u);
            RetaggedSize(f, m, t, u);
          }
      }
    } else if HasElemOnly(t) {
      RewriteRetags(f, t.elem, m, any);
    } else if t.Map? {
      RewriteRetags(f, t.key, m, any);
      RewriteRetags(f, t.elem, m, any);
    }
    match Rewrite(f, t, m, any)
    case Ok(r) => if Retagged(f, m, t, r.t) { RetaggedSize(f, m, t, r.t); }
    case Err(_) =>
  }

  /** An unexported field keeps the loop invariant. */
  lemma PrivateStepKeeps(f: TagFn, m: MakerId, t: Type, i: nat, acc: Acc)
    requires t.Struct? && i < |t.fields| && FieldsInv(f, m, t, i, acc) && !ExportedField(t.fields[i])
    ensures FieldsInv(f, m, t, i + 1, PrivateStep(acc, t.fields[i]))
  {
    var fld := t.fields[i];
    assert t.fields[..i + 1] == t.fields[..i] + [fld];
    AppendEq(acc.fields, t.fields[..i], fld, fld);
    assert FieldRetagged(f, m, t, i, fld);
  }

  /** An exported field whose type was rewritten to a retagging keeps the loop invariant. */
  lemma ExportedStepKeeps(f: TagFn, m: MakerId, t: Type, i: nat, acc: Acc, r: Res)
    requires t.Struct? && i < |t.fields| && FieldsInv(f, m, t, i, acc) && ExportedField(t.fields[i])
    requires Retagged(f, m, t.fields[i].typ, r.t)
    ensures FieldsInv(f, m, t, i + 1, ExportedStep(f, m, t, i, acc, t.fields[i], r))
  {
    var fld := t.fields[i];
    var g := Field(fld.name, r.t, f(m, t, i));
    assert t.fields[..i + 1] == t.fields[..i] + [fld];
    AppendEq(acc.fields, t.fields[..i], g, fld);
    assert FieldRetagged(f, m, t, i, g);
  }

  lemma {:induction false} RewriteFieldsRetag(f: TagFn, t: Type, m: MakerId, any: bool, i: nat, acc: Acc)
    requires t.Struct? && i <= |t.fields| && FieldsInv(f, m, t, i, acc)
    decreases t, 0, |t.fields| - i
    ensures match RewriteFields(f, t, m, any, i, acc)
            case Ok(a) => FieldsInv(f, m, t, |t.fields|, a)
            case Err(e) => !e.SizeMismatch?
  {
    if i < |t.fields| {
      var fld := t.fields[i];
      if |fld.name| > 0 {
        if !IsExported(fld.name) {
          PrivateStepKeeps(f, m, t, i, acc);
          RewriteFieldsRetag(f, t, m, any, i + 1, PrivateStep(acc, fld));
        } else {
          RewriteRetags(f, fld.typ, m, any);
          match Rewrite(f, fld.typ, m, any)
          case Err(e) =>
          case Ok(r) =>
            ExportedStepKeeps(f, m, t, i, acc, r);
            RewriteFieldsRetag(f, t, m, any, i + 1, ExportedStep(f, m, t, i, acc, fld, r));
        }
      }
    }
  }

  // ---------------------------------------------------------------------------
  // Lenient and strict mode

  /**
   * The strict rewrite succeeds exactly when the lenient one does without keeping an
   * interface, and then both agree.  This is what makes a lenient cache entry with
   * hasIface unset reusable by a strict call, and one with hasIface set not.
   */
  lemma {:induction false} ModeAgreement(f: TagFn, t: Type, m: MakerId)
    decreases t, 1
    ensures Rewrite(f, t, m, false).Ok? <==>
            Rewrite(f, t, m, true).Ok? && !Rewrite(f, t, m, true).value.hasIface
    ensures Rewrite(f, t, m, false).Ok? ==> Rewrite(f, t, m, false) == Rewrite(f, t, m, true)
  {
    if t.Struct? {
      if |t.fields| > 0 {
        ModeAgreementFields(f, t, m, 0, NoFields);
      }
    } else if HasElemOnly(t) {
      ModeAgreement(f, t.elem, m);
    } else if t.Map? {
      ModeAgreement(f, t.key, m);
      ModeAgreement(f, t.elem, m);
    }
  }

  lemma {:induction false} ModeAgreementFields(f: TagFn, t: Type, m: MakerId, i: nat, acc: Acc)
    requires t.Struct? && i <= |t.fields| && !acc.hasIface
    decreases t, 0, |t.fields| - i
    ensures RewriteFields(f, t, m, false, i, acc).Ok? <==>
            RewriteFields(f, t, m, true, i, acc).Ok? && !RewriteFields(f, t, m, true, i, acc).value.hasIface
    ensures RewriteFields(f, t, m, false, i, acc).Ok? ==>
            RewriteFields(f, t, m, false, i, acc) == RewriteFields(f, t, m, true, i, acc)
  {
    if i < |t.fields| {
      var fld := t.fields[i];
      if |fld.name| > 0 {
        if !IsExported(fld.name) {
          ModeAgreementFields(f, t, m, i + 1, PrivateStep(acc, fld));
        } else {
          ModeAgreement(f, fld.typ, m);
          match Rewrite(f, fld.typ, m, true)
          case Err(_) =>
          case Ok(r) =>
            if !r.hasIface {
              ModeAgreementFields(f, t, m, i + 1, ExportedStep(f, m, t, i, acc, fld, r));
            }
        }
      }
    }
  }

  /** Type positions the engine visits: exported fields, elements, keys and values. */
  ghost predicate Reaches(t: Type, target: Type -> bool)
    decreases t
  {
    || target(t)
    || match t
       case Struct(_, _, fs) =>
         exists i :: 0 <= i < |fs| && ExportedField(fs[i]) && Reaches(fs[i].typ, target)
       case Ptr(e) => Reaches(e, target)
       case Array(_, e) => Reaches(e, target)
       case Slice(e) => Reaches(e, target)
       case Map(k, e) => Reaches(k, target) || Reaches(e, target)
       case _ => false
  }

  /** Reaching a kind that the current mode rejects makes the whole rewrite fail. */
  lemma {:induction false} RejectedWhereReached(f: TagFn, t: Type, m: MakerId, any: bool, target: Type -> bool)
    requires forall u :: target(u) ==> IsLeaf(u) && LeafRule(u, any).Err?
    requires Reaches(t, target)
    decreases t, 1
    ensures Rewrite(f, t, m, any).Err?
  {
    if t.Struct? {
      var j :| 0 <= j < |t.fields| && ExportedField(t.fields[j]) && Reaches(t.fields[j].typ, target);
      RejectedFieldWhereReached(f, t, m, any, target, 0, NoFields, j);
    } else if HasElemOnly(t) {
      RejectedWhereReached(f, t.elem, m, any, target);
    } else if t.Map? {
      if Rewrite(f, t.key, m, any).Ok? {
        if Reaches(t.key, target) {
          RejectedWhereReached(f, t.key, m, any, target);
        } else {
          RejectedWhereReached(f, t.elem, m, any, target);
        }
      }
    }
  }

  lemma {:induction false} RejectedFieldWhereReached(f: TagFn, t: Type, m: MakerId, any: bool,
                                                     target: Type -> bool, i: nat, acc: Acc, j: nat)
    requires forall u :: target(u) ==> IsLeaf(u) && LeafRule(u, any).Err?
    requires t.Struct? && i <= j < |t.fields| && ExportedField(t.fields[j])
    requires Reaches(t.fields[j].typ, target)
    decreases t, 0, |t.fields| - i
    ensures RewriteFields(f, t, m, any, i, acc).Err?
  {
    var fld := t.fields[i];
    if |fld.name| > 0 {
      if !IsExported(fld.name) {
        RejectedFieldWhereReached(f, t, m, any, target, i + 1, PrivateStep(acc, fld), j);
      } else if i == j {
        RejectedWhereReached(f, fld.typ, m, any, target);
      } else {
        match Rewrite(f, fld.typ, m, any)
        case Err(_) =>
        case Ok(r) =>
          RejectedFieldWhereReached(f, t, m, any, target, i + 1, ExportedStep(f, m, t, i, acc, fld, r), j);
      }
    }
  }

  /** A chan, func or unsafe pointer anywhere the engine looks is rejected in both modes. */
  lemma UnsupportedKindsRejected(f: TagFn, t: Type, m: MakerId, any: bool)
    requires Reaches(t, IsUnsupported)
    ensures Rewrite(f, t, m, any).Err?
  {
    RejectedWhereReached(f, t, m, any, IsUnsupported);
  }

  /**
   * What tags.go panics on in a mode: an unsupported kind, an interface when strict,
   * or a struct with an unexported or unnamed field (which panics once it changes).
   */
  predicate Blocking(u: Type, any: bool) {
    || IsUnsupported(u)
    || (IsInterface(u) && !any)
    || (u.Struct? && exists i :: 0 <= i < |u.fields| && !ExportedField(u.fields[i]))
  }

  function BlockedIn(any: bool): Type -> bool {
    u => Blocking(u, any)
  }

  /**
   * The converse of RejectedWhereReached: a rewrite fails only where it reaches
   * something the mode rejects or a struct with an unexported or unnamed field.
   */
  lemma {:induction false} FailsOnlyWhereBlocked(f: TagFn, t: Type, m: MakerId, any: bool)
    decreases t, 1
    ensures Rewrite(f, t, m, any).Err? ==> Reaches(t, BlockedIn(any))
  {
    if t.Struct? {
      if |t.fields| > 0 {
        RewriteRetags(f, t, m, any);
        FailsOnlyWhereBlockedFields(f, t, m, any, 0, NoFields);
      }
    } else if HasElemOnly(t) {
      FailsOnlyWhereBlocked(f, t.elem, m, any);
    } else if t.Map? {
      FailsOnlyWhereBlocked(f, t.key, m, any);
      FailsOnlyWhereBlocked(f, t.elem, m, any);
    }
  }

  lemma {:induction false} FailsOnlyWhereBlockedFields(f: TagFn, t: Type, m: MakerId, any: bool, i: nat, acc: Acc)
    requires t.Struct? && i <= |t.fields|
    requires acc.hasPrivate ==> Blocking(t, any)
    decreases t, 0, |t.fields| - i
    ensures match RewriteFields(f, t, m, any, i, acc)
            case Ok(a) => a.hasPrivate ==> Blocking(t, any)
            case Err(_) => Reaches(t, BlockedIn(any))
  {
    if i < |t.fields| {
      var fld := t.fields[i];
      if |fld.name| == 0 {
        assert !ExportedField(t.fields[i]);
      } else if !IsExported(fld.name) {
        assert !ExportedField(t.fields[i]);
        FailsOnlyWhereBlockedFields(f, t, m, any, i + 1, PrivateStep(acc, fld));
      } else {
        FailsOnlyWhereBlocked(f, fld.typ, m, any);
        match Rewrite(f, fld.typ, m, any)
        case Err(_) =>
          assert ExportedField(t.fields[i]) && Reaches(t.fields[i].typ, BlockedIn(any));
        case Ok(r) =>
          FailsOnlyWhereBlockedFields(f, t, m, any, i + 1, ExportedStep(f, m, t, i, acc, fld, r));
      }
    }
  }

  /** The lenient result keeps hasIface exactly when an interface is reached. */
  lemma {:induction false} IfaceFlag(f: TagFn, t: Type, m: MakerId)
    decreases t, 1
    ensures Rewrite(f, t, m, true).Ok? ==>
            (Rewrite(f, t, m, true).value.hasIface <==> Reaches(t, IsInterface))
  {
    if t.Struct? {
      if |t.fields| > 0 {
        IfaceFlagFields(f, t, m, 0, NoFields);
      }
    } else if HasElemOnly(t) {
      IfaceFlag(f, t.elem, m);
    } else if t.Map? {
      IfaceFlag(f, t.key, m);
      IfaceFlag(f, t.elem, m);
    }
  }

  lemma {:induction false} IfaceFlagFields(f: TagFn, t: Type, m: MakerId, i: nat, acc: Acc)
    requires t.Struct? && i <= |t.fields|
    decreases t, 0, |t.fields| - i
    ensures RewriteFields(f, t, m, true, i, acc).Ok? ==>
            (RewriteFields(f, t, m, true, i, acc).value.hasIface <==>
             acc.hasIface ||
             exists j :: i <= j < |t.fields| && ExportedField(t.fields[j]) && Reaches(t.fields[j].typ, IsInterface))
  {
    if i < |t.fields| {
      var fld := t.fields[i];
      if |fld.name| > 0 {
        if !IsExported(fld.name) {
          IfaceFlagFields(f, t, m, i + 1, PrivateStep(acc, fld));
        } else {
          IfaceFlag(f, fld.typ, m);
          match Rewrite(f, fld.typ, m, true)
          case Err(_) =>
          case Ok(r) =>
            IfaceFlagFields(f, t, m, i + 1, ExportedStep(f, m, t, i, acc, fld, r));
        }
      }
    }
  }

  /**
   * Strict conversion succeeds exactly when lenient conversion does and no interface is
   * reached, and an interface anywhere the engine looks makes strict conversion fail.
   */
  lemma StrictRejectsInterfaces(f: TagFn, t: Type, m: MakerId)
    ensures Rewrite(f, t, m, false).Ok? <==> Rewrite(f, t, m, true).Ok? && !Reaches(t, IsInterface)
  {
    ModeAgreement(f, t, m);
    IfaceFlag(f, t, m);
  }
}
