/**
 * The corrected engine of tags.go (see Synth for its two departures from the
 * code) in its own imperative form: one object holds the process-wide memo cache (the source's global `cache.m`) and the seen set of
 * the conversion in progress (the `seen` map that convert creates and makeType
 * updates).  Every method is proved to compute exactly what the functions of
 * Synth compute, and the public conversions are proved to return the
 * structural rewrite of Reference while keeping the cache sound.
 */
module Retag {
  import opened Types
  import opened Rules
  import Synth
  import Reference
  import Agreement

  class Engine {
    /** The tag policy that every maker id is interpreted by. */
    const makeTag: TagFn
    var cache: map<Synth.Key, Res>
    var seen: set<Type>

    ghost function State(): Synth.State
      reads this
    {
      Synth.State(cache, seen)
    }

    /** Every stored entry is the lenient rewrite of its key. */
    ghost predicate Valid()
      reads this
    {
      Agreement.Sound(makeTag, cache)
    }

    constructor (makeTag: TagFn)
      ensures this.makeTag == makeTag && cache == map[] && seen == {}
      ensures Valid()
    {
      this.makeTag := makeTag;
      cache := map[];
      seen := {};
    }

    method GetType(t: Type, m: MakerId, any: bool) returns (res: Outcome<Res>)
      modifies this
      decreases t, 3, 0
      ensures Run(res, State()) == Synth.GetType(makeTag, old(State()), t, m, any)
    {
      var key := (t, m);
      if key in cache && !Synth.Stale(cache[key], any) {
        return Ok(cache[key]);
      }
      res := MakeType(t, m, any);
      if res.Ok? {
        cache := cache[key := res.value];
      }
    }

    method MakeType(t: Type, m: MakerId, any: bool) returns (res: Outcome<Res>)
      modifies this
      decreases t, 2, 0
      ensures Run(res, State()) == Synth.MakeType(makeTag, old(State()), t, m, any)
    {
      if t.Struct? {
        if t in seen {
          return Ok(Res(t, false, false));
        }
        seen := seen + {t};
        res := MakeStructType(t, m, any);
      } else if HasElemOnly(t) {
        var r := GetType(t.elem, m, any);
        if r.Err? { return Err(r.error); }
        res := Ok(ElemRule(t, r.value));
      } else if t.Map? {
        var rk := GetType(t.key, m, any);
        if rk.Err? { return Err(rk.error); }
        var re := GetType(t.elem, m, any);
        if re.Err? { return Err(re.error); }
        res := Ok(MapRule(t, rk.value, re.value));
      } else {
        res := LeafRule(t, any);
      }
    }

    method MakeStructType(t: Type, m: MakerId, any: bool) returns (res: Outcome<Res>)
      requires t.Struct?
      modifies this
      decreases t, 1, 0
      ensures Run(res, State()) == Synth.MakeStructType(makeTag, old(State()), t, m, any)
    {
      if |t.fields| == 0 {
        return Ok(Res(t, false, false));
      }
      var changed, hasPrivate, hasIface := false, false, false;
      var fields: seq<Field> := [];
      var i := 0;
      while i < |t.fields|
        invariant 0 <= i <= |t.fields|
        invariant Synth.MakeFields(makeTag, old(State()), t, m, any, 0, NoFields)
               == Synth.MakeFields(makeTag, State(), t, m, any, i, Acc(fields, changed, hasPrivate, hasIface))
      {
        var strField := t.fields[i];
        if |strField.name| == 0 {
          return Err(EmptyFieldName(t));
        }
        if IsExported(strField.name) {
          var oldType := strField.typ;
          var resolved := GetType(oldType, m, any);
          if resolved.Err? { return Err(resolved.error); }
          if oldType != resolved.value.t { changed := true; }
          if resolved.value.hasIface { hasIface := true; }
          var oldTag := strField.tag;
          var newTag := makeTag(m, t, i);
          if oldTag != newTag { changed := true; }
          strField := Field(strField.name, resolved.value.t, newTag);
        } else {
          hasPrivate := true;
        }
        fields := fields + [strField];
        i := i + 1;
      }
      if !changed {
        return Ok(Res(t, false, hasIface));
      } else if hasPrivate {
        return Err(PrivateFields(t));
      }
      var newType := Struct("", "", fields);
      if !CompareStructTypes(t, newType) {
        return Err(SizeMismatch(t));
      }
      res := Ok(Res(newType, true, hasIface));
    }

    /** convert: resolve the pointee with a fresh seen set and return the pointer type over the result. */
    method ConvertWith(p: Type, m: MakerId, any: bool) returns (res: Outcome<Type>)
      modifies this
      ensures Run(res, State()) == Synth.Convert(makeTag, old(State()), p, m, any)
      ensures old(Valid()) ==> Valid() && res == Agreement.Expected(makeTag, p, m, any)
    {
      ghost var st0 := State();
      if !p.Ptr? {
        return Err(NotPointer(p));
      }
      seen := {};
      var r := GetType(p.elem, m, any);
      if r.Err? {
        res := Err(r.error);
      } else {
        res := Ok(Ptr(r.value.t));
      }
      if Agreement.Sound(makeTag, st0.cache) {
        Agreement.ConvertAgrees(makeTag, st0, p, m, any);
      }
    }

    /** Convert: strict mode, every interface reached is an error. */
    method Convert(p: Type, m: MakerId) returns (res: Outcome<Type>)
      modifies this
      ensures Run(res, State()) == Synth.Convert(makeTag, old(State()), p, m, false)
      ensures old(Valid()) ==> Valid() && res == Agreement.Expected(makeTag, p, m, false)
    {
      res := ConvertWith(p, m, false);
    }

    /** ConvertAny: lenient mode, interfaces are kept as they are. */
    method ConvertAny(p: Type, m: MakerId) returns (res: Outcome<Type>)
      modifies this
      ensures Run(res, State()) == Synth.Convert(makeTag, old(State()), p, m, true)
      ensures old(Valid()) ==> Valid() && res == Agreement.Expected(makeTag, p, m, true)
    {
      res := ConvertWith(p, m, true);
    }
  }
}
