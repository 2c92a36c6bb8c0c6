/**
 * The dictionary manager: the registries and the plan cache it updates in
 * place, and the walk over records and slices as methods, each proved to
 * do what the corresponding function of the Engine module describes.
 */
module Dict {
  import opened Wrappers
  import opened Strings
  import opened Values
  import opened Errors
  import opened DbParser
  import opened CachedLookup
  import opened Backends
  import opened Enum
  import opened Plan
  import opened Unwrapper
  import opened Partition
  import opened Engine

  class DictManager {
    var dicts: map<string, Table>
    var translators: Registry
    var unwrappers: seq<UnWrapFn>
    /** configCache, keyed by the record's type name. */
    var configCache: map<string, seq<FieldPlan>>
    /** The shared enum registry the enum bindings consult. */
    const enums: EnumTranslator
    /** The managers behind the `db`, `dictTable` and `dictTableTwo` bindings. */
    const db: CachedLookup.Manager<DbQuery>
    const dictTable: CachedLookup.Manager<TableQuery>
    const dictTableTwo: CachedLookup.Manager<TableQuery>

    /** The three lookup managers are separate objects, each with its own "not registered" message. */
    ghost predicate Valid() {
      && dictTable != dictTableTwo
      && db.missing == DbMissing && dictTable.missing == TableMissing && dictTableTwo.missing == TableTwoMissing
    }

    /** Everything the walk reads or updates, as one value. */
    ghost function Current(): Env
      reads this, enums, db, dictTable, dictTableTwo
    {
      Env(dicts, translators, configCache, enums.enumMap, db.Snapshot(), dictTable.Snapshot(), dictTableTwo.Snapshot())
    }

    constructor (enums: EnumTranslator, db: CachedLookup.Manager<DbQuery>,
                 dictTable: CachedLookup.Manager<TableQuery>, dictTableTwo: CachedLookup.Manager<TableQuery>)
      requires dictTable != dictTableTwo
      requires db.missing == DbMissing && dictTable.missing == TableMissing && dictTableTwo.missing == TableTwoMissing
      ensures Valid()
      ensures dicts == map[] && translators == map[] && unwrappers == [] && configCache == map[]
      ensures this.enums == enums && this.db == db && this.dictTable == dictTable && this.dictTableTwo == dictTableTwo
    {
      dicts := map[];
      translators := map[];
      unwrappers := [];
      configCache := map[];
      this.enums := enums;
      this.db := db;
      this.dictTable := dictTable;
      this.dictTableTwo := dictTableTwo;
    }

    /** RegisterDict: the dictionary replaces any earlier one of that name. */
    method RegisterDict(name: string, dict: Table)
      modifies this
      ensures Current() == old(Current()).(dicts := old(dicts)[name := dict])
      ensures unwrappers == old(unwrappers)
    {
      dicts := dicts[name := dict];
    }

    /** GetDict: the dictionary registered under the name, if any. */
    function GetDict(name: string): (r: Option<Table>)
      reads this
      ensures r.Some? <==> name in dicts
      ensures r.Some? ==> r.value == dicts[name]
    {
      if name in dicts then Some(dicts[name]) else None
    }

    /** RegisterTranslator: seen only by types planned afterwards. */
    method RegisterTranslator(tagName: string, f: Option<CustomFn>)
      modifies this
      ensures Current() == old(Current()).(translators := old(translators)[tagName := f])
      ensures unwrappers == old(unwrappers)
    {
      translators := translators[tagName := f];
    }

    /** RegisterUnWrapper: appended after the earlier ones. */
    method RegisterUnWrapper(u: UnWrapFn)
      modifies this
      ensures unwrappers == old(unwrappers) + [u]
      ensures Current() == old(Current())
    {
      unwrappers := unwrappers + [u];
    }

    /** tryUnwrap: the unwrappers in registration order, up to the first that yields a payload. */
    method TryUnwrap(v: Value) returns (r: Option<Value>)
      ensures r == FirstUnwrap(unwrappers, v)
    {
      var k := 0;
      while k < |unwrappers|
        invariant 0 <= k <= |unwrappers|
        invariant FirstUnwrap(unwrappers[k..], v) == FirstUnwrap(unwrappers, v)
        decreases |unwrappers| - k
      {
        var res := unwrappers[k](v);
        if res.Success? && res.value.Some? {
          return res.value;
        }
        assert unwrappers[k..][1..] == unwrappers[k + 1..];
        k := k + 1;
      }
      return None;
    }

    /** getOrCreateConfig: the cached plan, or the plan built field by field and cached. */
    method GetOrCreateConfig(t: string, fs: seq<Field>) returns (plan: seq<FieldPlan>)
      modifies this
      ensures (plan, Current()) == GetPlan(old(Current()), t, fs)
      ensures unwrappers == old(unwrappers)
    {
      if t in configCache {
        return configCache[t];
      }
      plan := [];
      ghost var cs := Candidates(translators, fs);
      for i := 0 to |fs|
        invariant plan == Keep(cs[..i])
      {
        var fieldCfg := Choose(translators, fs[i], i);
        assert cs[..i + 1][..i] == cs[..i] && cs[i] == fieldCfg;
        if fieldCfg.binding.Some? || fieldCfg.tag != "" {
          plan := plan + [fieldCfg];
        }
      }
      assert cs[..|fs|] == cs;
      configCache := configCache[t := plan];
    }

    /** The label-writing loop shared by both tag paths. */
    method SetTarget(fs: seq<Field>, target: string, text: string) returns (gs: seq<Field>)
      ensures gs == WriteTarget(fs, target, text)
    {
      var j := 0;
      while j < |fs|
        invariant 0 <= j <= |fs|
        invariant forall k :: 0 <= k < j ==> !Writable(fs[k], target)
        decreases |fs| - j
      {
        if (fs[j].name == target || EqualFold(fs[j].name, target)) && fs[j].exported && fs[j].value.Str? {
          return fs[j := fs[j].(value := Str(text))];
        }
        j := j + 1;
      }
      return fs;
    }

    /** translateField: the legacy `dict` tag. */
    method TranslateField(fp: FieldPlan, fs: seq<Field>, i: nat) returns (gs: seq<Field>)
      requires i < |fs|
      ensures gs == Legacy(dicts, fp, fs, i)
    {
      var tagParts := Split(fp.tag, ',');
      var dictName := tagParts[0];
      if dictName !in dicts {
        return fs;
      }
      var dict := dicts[dictName];
      if !fs[i].value.Str? {
        return fs;
      }
      var sourceValue := fs[i].value.s;
      if sourceValue == "" {
        return fs;
      }
      var translated := if sourceValue in dict then dict[sourceValue] else "";
      if translated == "" {
        return fs;
      }
      var dictFieldTag := TagGet(fs[i], "dictField");
      if dictFieldTag == "" {
        return fs;
      }
      gs := SetTarget(fs, dictFieldTag, translated);
    }

    /** The bound translator's call: only the lookup managers change. */
    method Call(b: Binding, v: Value, name: string, tag: string) returns (r: Result<string, Error>)
      requires Valid()
      modifies db, dictTable, dictTableTwo
      ensures (r, Current()) == Apply(old(Current()), b, v, name, tag)
    {
      match b
      case Custom(f) =>
        r := f(v, name, tag);
      case Db(c) =>
        r := db.Lookup(DbCacheKey(c, v), DbQuery(c.table, c.keyField, c.valueField, v));
      case DictTable(dt) =>
        r := dictTable.Lookup(TableCacheKey(dt, v), TableQuery(dt, Render(v)));
      case DictTableTwo(dt) =>
        r := dictTableTwo.Lookup(TableCacheKey(dt, v), TableQuery(dt, Render(v)));
      case EnumBinding =>
        r := enums.Translate(v, name, tag);
    }

    /** translateFieldWithTranslator. */
    method TranslateFieldWithTranslator(b: Binding, fp: FieldPlan, fs: seq<Field>, i: nat)
      returns (out: seq<Field>, err: Option<Error>)
      requires Valid() && i < |fs|
      modifies db, dictTable, dictTableTwo
      ensures Walked(Current(), out, err) == ViaTranslator(old(Current()), b, fp, fs, i)
    {
      var translated := Call(b, fs[i].value, fs[i].name, fp.tag);
      if translated.Failure? {
        return fs, Some(translated.error);
      }
      if translated.value == "" {
        return fs, None;
      }
      if fp.target == "" {
        return fs, None;
      }
      out := SetTarget(fs, fp.target, translated.value);
      err := None;
    }

    /** The tag part of a field: its configuration, if planned, picks the path. */
    method TranslateTag(plan: seq<FieldPlan>, fs: seq<Field>, i: nat) returns (out: seq<Field>, err: Option<Error>)
      requires Valid() && i < |fs|
      modifies db, dictTable, dictTableTwo
      ensures Walked(Current(), out, err) == TagStep(old(Current()), plan, fs, i)
    {
      var fieldCfg := FindPlan(plan, i);
      if fieldCfg.None? {
        return fs, None;
      }
      var c := fieldCfg.value;
      if c.binding.Some? {
        out, err := TranslateFieldWithTranslator(c.binding.value, c, fs, i);
      } else if c.tag != "" {
        out := TranslateField(c, fs, i);
        err := None;
      } else {
        out, err := fs, None;
      }
    }

    /** The nested values of a field: a record, a non-nil pointer to a record, a slice. */
    method TranslateNested(v: Value) returns (out: Value, err: Option<Error>)
      requires Valid()
      modifies this, db, dictTable, dictTableTwo
      ensures Walked(Current(), out, err) == Descend(old(Current()), v)
      ensures unwrappers == old(unwrappers)
      decreases Size(v), 0, 0
    {
      match v
      case Struct(t, gs) =>
        var o, e := TranslateStruct(t, gs);
        return Struct(t, o), e;
      case Ptr(Some(Struct(t, gs))) =>
        assert Size(v) == 2 + FieldsSize(gs);
        var o, e := TranslateStruct(t, gs);
        return Ptr(Some(Struct(t, o))), e;
      case Slice(es) =>
        var o, e := TranslateSlice(es, 0, |es|);
        return Slice(o), e;
      case _ =>
        return v, None;
    }

    /** One iteration of translateStruct's field loop. */
    method TranslateFieldAt(plan: seq<FieldPlan>, fs: seq<Field>, i: nat) returns (out: seq<Field>, err: Option<Error>)
      requires Valid() && i < |fs|
      modifies this, db, dictTable, dictTableTwo
      ensures Walked(Current(), out, err) == FieldStep(old(Current()), plan, fs, i)
      ensures unwrappers == old(unwrappers)
      decreases FieldsSize(fs), 1, 0
    {
      if !fs[i].exported {
        return fs, None;
      }
      FieldSizeBound(fs, i);
      var nested, e := TranslateNested(fs[i].value);
      var fs1 := fs[i := fs[i].(value := nested)];
      if e.Some? {
        return fs1, e;
      }
      out, err := TranslateTag(plan, fs1, i);
    }

    /** translateStruct: the plan, then the fields in declaration order up to the first failure. */
    method TranslateStruct(t: string, fs: seq<Field>) returns (out: seq<Field>, err: Option<Error>)
      requires Valid()
      modifies this, db, dictTable, dictTableTwo
      ensures Walked(Current(), out, err) == WalkStruct(old(Current()), t, fs)
      ensures unwrappers == old(unwrappers)
      decreases FieldsSize(fs), 3, 0
    {
      var plan := GetOrCreateConfig(t, fs);
      ghost var goal := WalkFields(Current(), plan, fs, 0);
      var cur := fs;
      var i := 0;
      while i < |cur|
        invariant 0 <= i <= |cur| && |cur| == |fs| && FieldsSize(cur) == FieldsSize(fs)
        invariant WalkFields(Current(), plan, cur, i) == goal
        invariant unwrappers == old(unwrappers)
        decreases |cur| - i
      {
        var next, e := TranslateFieldAt(plan, cur, i);
        if e.Some? {
          return next, e;
        }
        SameFieldsSize(cur, next);
        cur, i := next, i + 1;
      }
      return cur, None;
    }

    /** One element of a slice walk: records and non-nil pointers to records. */
    method TranslateElem(es: seq<Value>, i: nat) returns (out: seq<Value>, err: Option<Error>)
      requires Valid() && i < |es|
      modifies this, db, dictTable, dictTableTwo
      ensures Walked(Current(), out, err) == ElemStep(old(Current()), es, i)
      ensures unwrappers == old(unwrappers)
      decreases ElemsSize(es), 1, 0
    {
      ElemSizeBound(es, i);
      match es[i]
      case Struct(t, gs) =>
        var o, e := TranslateStruct(t, gs);
        return es[i := Struct(t, o)], e;
      case Ptr(Some(Struct(t, gs))) =>
        var o, e := TranslateStruct(t, gs);
        return es[i := Ptr(Some(Struct(t, o)))], e;
      case _ =>
        return es, None;
    }

    /** translateSlice over the indices [lo, hi), in order, up to the first failure. */
    method TranslateSlice(es: seq<Value>, lo: nat, hi: nat) returns (out: seq<Value>, err: Option<Error>)
      requires Valid() && lo <= hi <= |es|
      modifies this, db, dictTable, dictTableTwo
      ensures Walked(Current(), out, err) == WalkElems(old(Current()), es, lo, hi)
      ensures unwrappers == old(unwrappers)
      decreases ElemsSize(es), 2, hi - lo
    {
      ghost var goal := WalkElems(Current(), es, lo, hi);
      var cur := es;
      var j := lo;
      while j < hi
        invariant lo <= j <= hi && |cur| == |es| && ElemsSize(cur) == ElemsSize(es)
        invariant WalkElems(Current(), cur, j, hi) == goal
        invariant unwrappers == old(unwrappers)
        decreases hi - j
      {
        var next, e := TranslateElem(cur, j);
        if e.Some? {
          return next, e;
        }
        SameElemsSize(cur, next);
        cur, j := next, j + 1;
      }
      return cur, None;
    }

    /** Translate: unwrap, then walk a pointer to a slice or to a record. */
    method Translate(v: Value) returns (out: Value, err: Option<Error>)
      requires Valid()
      modifies this, db, dictTable, dictTableTwo
      ensures Walked(Current(), out, err) == Translation(old(Current()), old(unwrappers), v)
      ensures unwrappers == old(unwrappers)
    {
      var w := v;
      var unwrapped := TryUnwrap(v);
      if unwrapped.Some? {
        w := unwrapped.value;
      }
      match w
      case Ptr(Some(Slice(es))) =>
        var o, e := TranslateSlice(es, 0, |es|);
        return Ptr(Some(Slice(o))), e;
      case Ptr(Some(Struct(t, fs))) =>
        var o, e := TranslateStruct(t, fs);
        return Ptr(Some(Struct(t, o))), e;
      case Ptr(_) =>
        return w, Some(NotStruct);
      case _ =>
        return w, Some(NotPointer);
    }

    /**
     * One worker of batchTranslateParallel: it walks its own chunk and stops
     * at that chunk's first failure.
     */
    method TranslateChunk(cur: seq<Value>, chunks: seq<Chunk>, k: nat) returns (next: seq<Value>, e: Option<Error>)
      requires Valid() && ChunksFit(chunks, |cur|) && k < |chunks|
      modifies this, db, dictTable, dictTableTwo
      ensures |next| == |cur| && ChunksFit(chunks, |next|)
      ensures var rest := WalkChunks(Current(), next, chunks, k + 1);
        WalkChunks(old(Current()), cur, chunks, k)
        == Chunked(rest.env, rest.out, (if e.Some? then [e.value] else []) + rest.errs)
      ensures unwrappers == old(unwrappers)
    {
      ghost var before := Current();
      next, e := TranslateSlice(cur, chunks[k].start, chunks[k].end);
      WalkChunksStep(before, cur, chunks, k, Walked(Current(), next, e));
    }

    /**
     * batchTranslateParallel with the workers run one after another: each
     * chunk stops at its own first failure and the other chunks go on; the
     * error returned is one of the failures.
     */
    method BatchTranslateParallel(es: seq<Value>) returns (out: seq<Value>, err: Option<Error>)
      requires Valid() && |es| >= 1
      modifies this, db, dictTable, dictTableTwo
      ensures var p := ParallelTranslation(old(Current()), es);
        && Current() == p.env && out == p.out
        && (p.errs == [] ==> err.None?) && (err.Some? ==> err.value in p.errs)
      ensures unwrappers == old(unwrappers)
    {
      var chunks := Partition.Partition(|es|);
      ChunksOfSlice(|es|);
      ghost var goal := WalkChunks(Current(), es, chunks, 0);
      var cur := es;
      err := None;
      for k := 0 to |chunks|
        invariant ChunksFit(chunks, |cur|) && |cur| == |es|
        invariant WalkChunks(Current(), cur, chunks, k).env == goal.env
        invariant WalkChunks(Current(), cur, chunks, k).out == goal.out
        invariant err.None? ==> WalkChunks(Current(), cur, chunks, k).errs == goal.errs
        invariant err.Some? ==> err.value in goal.errs
        invariant unwrappers == old(unwrappers)
      {
        var next, e := TranslateChunk(cur, chunks, k);
        if err.None? && e.Some? {
          err := e;
        }
        cur := next;
      }
      out := cur;
    }

    /** BatchTranslate: the entry checks, then the sequential walk or the worker pool. */
    method BatchTranslate(v: Value, parallel: bool) returns (out: Value, err: Option<Error>)
      requires Valid()
      modifies this, db, dictTable, dictTableTwo
      ensures var b := BatchTranslation(old(Current()), v, parallel);
        Current() == b.env && out == b.out && Reports(b, err)
      ensures unwrappers == old(unwrappers)
    {
      if !v.Ptr? {
        return v, Some(NotPointer);
      }
      if !(v.target.Some? && v.target.value.Slice?) {
        return v, Some(NotSlice);
      }
      var es := v.target.value.elems;
      if |es| == 0 {
        return v, None;
      }
      if !parallel || |es| < MinParallelLength {
        var o, e := TranslateSlice(es, 0, |es|);
        return Ptr(Some(Slice(o))), e;
      }
      var o, e := BatchTranslateParallel(es);
      return Ptr(Some(Slice(o))), e;
    }

    /**
     * TranslateBatch: nil options mean parallel; the worker pool from the
     * configured threshold on, with the empty slice kept off it.
     */
    method TranslateBatch(v: Value, parallel: Option<bool>, threshold: int) returns (out: Value, err: Option<Error>)
      requires Valid()
      modifies this, db, dictTable, dictTableTwo
      ensures var b := OptimizedBatch(old(Current()), v, parallel, threshold);
        Current() == b.env && out == b.out && Reports(b, err)
      ensures unwrappers == old(unwrappers)
    {
      if !v.Ptr? {
        return v, Some(NotPointer);
      }
      if !(v.target.Some? && v.target.value.Slice?) {
        return v, Some(NotSlice);
      }
      var es := v.target.value.elems;
      var par := parallel.None? || parallel.value;
      if par && |es| >= threshold && |es| >= 1 {
        var o, e := BatchTranslateParallel(es);
        return Ptr(Some(Slice(o))), e;
      }
      var o, e := TranslateSlice(es, 0, |es|);
      return Ptr(Some(Slice(o))), e;
    }
  }
}
