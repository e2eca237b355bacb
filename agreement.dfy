/**
 * Memoisation is transparent: starting from a sound cache, getType returns
 * exactly the structural rewrite, leaves a sound cache, and the seen guard never
 * cuts a struct short.  A cache is sound when every entry is the lenient rewrite
 * of its key; the empty cache is sound, and every conversion keeps it so.
 */
module Agreement {
  import opened Types
  import opened Rules
  import Synth
  import opened Reference

  type Cache = map<Synth.Key, Res>

  ghost predicate Sound(f: TagFn, cache: Cache) {
    forall k | k in cache :: Rewrite(f, k.0, k.1, true) == Ok(cache[k])
  }

  /** The entry for (s, m) exists and may serve a call in this mode. */
  ghost predicate UsableAt(cache: Cache, s: Type, m: MakerId, any: bool) {
    (s, m) in cache && !Synth.Stale(cache[(s, m)], any)
  }

  /** Every struct entered so far is either stored for reuse or strictly encloses t. */
  ghost predicate SeenOk(st: Synth.State, t: Type, m: MakerId, any: bool) {
    forall s | s in st.seen :: UsableAt(st.cache, s, m, any) || Height(t) < Height(s)
  }

  lemma FieldLower(t: Type, i: nat)
    requires t.Struct? && i < |t.fields|
    ensures Height(t.fields[i].typ) < Height(t)
  {
  }

  /** Sound caches that grow agree on shared keys, so usable entries stay usable. */
  lemma SoundGrowth(f: TagFn, c1: Cache, c2: Cache, m: MakerId, any: bool)
    requires Sound(f, c1) && Sound(f, c2) && c1.Keys <= c2.Keys
    ensures forall s :: UsableAt(c1, s, m, any) ==> UsableAt(c2, s, m, any)
  {
    forall s | UsableAt(c1, s, m, any) ensures UsableAt(c2, s, m, any) {
      assert Ok(c1[(s, m)]) == Rewrite(f, s, m, true) == Ok(c2[(s, m)]);
    }
  }

  /** A strict rewrite that succeeds is also the lenient one and keeps no interface. */
  lemma StrictStorable(f: TagFn, t: Type, m: MakerId, any: bool)
    requires Rewrite(f, t, m, any).Ok?
    ensures Rewrite(f, t, m, true) == Rewrite(f, t, m, any)
    ensures !Synth.Stale(Rewrite(f, t, m, any).value, any)
  {
    ModeAgreement(f, t, m);
  }

  lemma {:induction false} GetTypeAgrees(f: TagFn, st: Synth.State, t: Type, m: MakerId, any: bool)
    requires Sound(f, st.cache) && SeenOk(st, t, m, any)
    decreases t, 3, 0
    ensures var run := Synth.GetType(f, st, t, m, any);
            && run.out == Rewrite(f, t, m, any)
            && Sound(f, run.st.cache)
            && (run.out.Ok? ==> forall s | s in run.st.seen :: s in st.seen || UsableAt(run.st.cache, s, m, any))
  {
    var key := (t, m);
    if key in st.cache && !Synth.Stale(st.cache[key], any) {
      assert Rewrite(f, t, m, true) == Ok(st.cache[key]);
      ModeAgreement(f, t, m);
    } else {
      MakeTypeAgrees(f, st, t, m, any);
      var run := Synth.MakeType(f, st, t, m, any);
      if run.out.Ok? {
        StrictStorable(f, t, m, any);
        var c := run.st.cache[key := run.out.value];
        assert Sound(f, c);
        assert UsableAt(c, t, m, any);
        forall s | s in run.st.seen && UsableAt(run.st.cache, s, m, any) ensures UsableAt(c, s, m, any) {
          if s != t { assert (s, m) != key; }
        }
      }
    }
  }

  lemma {:induction false} MakeTypeAgrees(f: TagFn, st: Synth.State, t: Type, m: MakerId, any: bool)
    requires Sound(f, st.cache) && SeenOk(st, t, m, any) && !UsableAt(st.cache, t, m, any)
    decreases t, 2, 0
    ensures var run := Synth.MakeType(f, st, t, m, any);
            && run.out == Rewrite(f, t, m, any)
            && Sound(f, run.st.cache)
            && (run.out.Ok? ==> forall s | s in run.st.seen ::
                                  s in st.seen || s == t || UsableAt(run.st.cache, s, m, any))
  {
    if t.Struct? {
      assert t !in st.seen;
      var st1 := st.(seen := st.seen + {t});
      MakeStructTypeAgrees(f, st1, t, m, any);
    } else if HasElemOnly(t) {
      GetTypeAgrees(f, st, t.elem, m, any);
    } else if t.Map? {
      GetTypeAgrees(f, st, t.key, m, any);
      var runKey := Synth.GetType(f, st, t.key, m, any);
      if runKey.out.Ok? {
        SoundGrowth(f, st.cache, runKey.st.cache, m, any);
        assert SeenOk(runKey.st, t.elem, m, any);
        GetTypeAgrees(f, runKey.st, t.elem, m, any);
        var runElem := Synth.GetType(f, runKey.st, t.elem, m, any);
        SoundGrowth(f, runKey.st.cache, runElem.st.cache, m, any);
      }
    }
  }

  lemma {:induction false} MakeStructTypeAgrees(f: TagFn, st: Synth.State, t: Type, m: MakerId, any: bool)
    requires t.Struct? && Sound(f, st.cache)
    requires forall s | s in st.seen :: UsableAt(st.cache, s, m, any) || s == t || Height(t) < Height(s)
    decreases t, 1, 0
    ensures var run := Synth.MakeStructType(f, st, t, m, any);
            && run.out == Rewrite(f, t, m, any)
            && Sound(f, run.st.cache)
            && (run.out.Ok? ==> forall s | s in run.st.seen :: s in st.seen || UsableAt(run.st.cache, s, m, any))
  {
    if |t.fields| > 0 {
      MakeFieldsAgrees(f, st, t, m, any, 0, NoFields);
    }
  }

  lemma {:induction false} MakeFieldsAgrees(f: TagFn, st: Synth.State, t: Type, m: MakerId, any: bool, i: nat, acc: Acc)
    requires t.Struct? && i <= |t.fields| && Sound(f, st.cache)
    requires forall s | s in st.seen :: UsableAt(st.cache, s, m, any) || s == t || Height(t) < Height(s)
    decreases t, 0, |t.fields| - i
    ensures var run := Synth.MakeFields(f, st, t, m, any, i, acc);
            && run.out == RewriteFields(f, t, m, any, i, acc)
            && Sound(f, run.st.cache)
            && (run.out.Ok? ==> forall s | s in run.st.seen :: s in st.seen || UsableAt(run.st.cache, s, m, any))
  {
    if i < |t.fields| {
      var fld := t.fields[i];
      if |fld.name| > 0 {
        if !IsExported(fld.name) {
          MakeFieldsAgrees(f, st, t, m, any, i + 1, PrivateStep(acc, fld));
        } else {
          FieldLower(t, i);
          assert SeenOk(st, fld.typ, m, any);
          GetTypeAgrees(f, st, fld.typ, m, any);
          var run := Synth.GetType(f, st, fld.typ, m, any);
          if run.out.Ok? {
            SoundGrowth(f, st.cache, run.st.cache, m, any);
            var next := ExportedStep(f, m, t, i, acc, fld, run.out.value);
            MakeFieldsAgrees(f, run.st, t, m, any, i + 1, next);
            var last := Synth.MakeFields(f, run.st, t, m, any, i + 1, next);
            SoundGrowth(f, run.st.cache, last.st.cache, m, any);
          }
        }
      }
    }
  }

  // ---------------------------------------------------------------------------
  // Conversions

  /** What convert returns, stated on the structural rewrite. */
  function Expected(f: TagFn, p: Type, m: MakerId, any: bool): Outcome<Type> {
    if !p.Ptr? then Err(NotPointer(p))
    else
      match Rewrite(f, p.elem, m, any)
      case Err(e) => Err(e)
      case Ok(r) => Ok(Ptr(r.t))
  }

  /**
   * From a sound cache (the empty one included), convert returns the pointer to the
   * retagged pointee, of the same size, the original pointer type itself when nothing
   * changes, and leaves the cache sound; it fails only where the pointee reaches
   * something the mode rejects or a struct with an unexported or unnamed field.
   */
  lemma ConvertAgrees(f: TagFn, st: Synth.State, p: Type, m: MakerId, any: bool)
    requires Sound(f, st.cache)
    ensures var run := Synth.Convert(f, st, p, m, any);
            && run.out == Expected(f, p, m, any)
            && Sound(f, run.st.cache)
    ensures p.Ptr? && Rewrite(f, p.elem, m, any).Ok? ==>
            var r := Rewrite(f, p.elem, m, any).value;
            && Retagged(f, m, p.elem, r.t) && Size(r.t) == Size(p.elem)
            && (r.changed <==> Ptr(r.t) != p)
    ensures p.Ptr? && Rewrite(f, p.elem, m, any).Err? ==> Reaches(p.elem, BlockedIn(any))
  {
    if p.Ptr? {
      GetTypeAgrees(f, st.(seen := {}), p.elem, m, any);
      RewriteRetags(f, p.elem, m, any);
      FailsOnlyWhereBlocked(f, p.elem, m, any);
    }
  }

  /**
   * Converting the same pointer type again with the same maker and mode returns the
   * same type and leaves the cache as it was: the second call is a cache hit.
   */
  lemma RepeatConvert(f: TagFn, st: Synth.State, p: Type, m: MakerId, any: bool)
    requires Sound(f, st.cache)
    ensures var first := Synth.Convert(f, st, p, m, any);
            var second := Synth.Convert(f, first.st, p, m, any);
            second.out == first.out && (first.out.Ok? ==> second.st.cache == first.st.cache)
  {
    ConvertAgrees(f, st, p, m, any);
    var first := Synth.Convert(f, st, p, m, any);
    ConvertAgrees(f, first.st, p, m, any);
    if first.out.Ok? {
      var r := Rewrite(f, p.elem, m, any);
      StrictStorable(f, p.elem, m, any);
      assert first.st.cache[(p.elem, m)] == r.value;
    }
  }
}
