/**
 * The translation walk as pure functions over an explicit environment:
 * the registries, the per-type plan cache and the three lookup caches.
 * These functions specify the methods of the dictionary manager; the
 * properties of the walk are proved about them.
 */
module Engine {
  import opened Wrappers
  import opened Strings
  import opened Values
  import opened Errors
  import opened DbParser
  import opened CachedLookup
  import opened Backends
  import opened Enum
  import opened Plan
  import opened Unwrapper
  import opened Partition

  /** Everything a translation reads or updates. */
  datatype Env = Env(
    dicts: map<string, Table>,
    translators: Registry,
    plans: map<string, seq<FieldPlan>>,
    enums: map<string, Table>,
    db: State<DbQuery>,
    table: State<TableQuery>,
    tableTwo: State<TableQuery>)

  /**
   * The outcome of a walk: the environment after it, the walked value
   * with every write made before a failure, and the failure, if any.
   */
  datatype Walked<T> = Walked(env: Env, out: T, err: Option<Error>)

  /** A walk leaves the registries alone and never replaces a cached plan. */
  ghost predicate Grows(a: Env, b: Env) {
    && b.dicts == a.dicts && b.translators == a.translators && b.enums == a.enums
    && (forall t :: t in a.plans ==> t in b.plans && b.plans[t] == a.plans[t])
  }

  /** getOrCreateConfig: the cached plan of the type, or a new one built and cached. */
  function GetPlan(env: Env, t: string, fs: seq<Field>): (r: (seq<FieldPlan>, Env))
    ensures Grows(env, r.1) && t in r.1.plans && r.1.plans[t] == r.0
    ensures r.1 == env.(plans := r.1.plans)
  {
    if t in env.plans then (env.plans[t], env)
    else
      var p := BuildPlan(env.translators, fs);
      (p, env.(plans := env.plans[t := p]))
  }

  /** A planned type keeps its plan: later registrations of translators do not reach it. */
  lemma PlannedTypeIgnoresTranslators(env: Env, t: string, fs: seq<Field>, tr: Registry)
    requires t in env.plans
    ensures GetPlan(env.(translators := tr), t, fs).0 == GetPlan(env, t, fs).0
  {
  }

  /** The plan is built at the first walk of a type and reused for every later one. */
  lemma PlanBuiltOnce(env: Env, t: string, fs: seq<Field>, gs: seq<Field>)
    ensures var (p, env1) := GetPlan(env, t, fs);
      GetPlan(env1, t, gs) == (p, env1)
      && (t !in env.plans ==> p == BuildPlan(env.translators, fs))
  {
  }

  /** Calling the translator a field is bound to; only the lookup caches change. */
  function Apply(env: Env, b: Binding, v: Value, name: string, tag: string): (r: (Result<string, Error>, Env))
    ensures r.1 == env.(db := r.1.db, table := r.1.table, tableTwo := r.1.tableTwo)
  {
    match b
    case Custom(f) => (f(v, name, tag), env)
    case Db(c) =>
      var (x, s) := DbTranslate(env.db, c, v);
      (x, env.(db := s))
    case DictTable(dt) =>
      var (x, s) := TableTranslate(env.table, dt, v, TableMissing);
      (x, env.(table := s))
    case DictTableTwo(dt) =>
      var (x, s) := TableTranslate(env.tableTwo, dt, v, TableTwoMissing);
      (x, env.(tableTwo := s))
    case EnumBinding => (TranslateWith(env.enums, v, tag), env)
  }

  /** Enum tables are read when the field is translated, not when the plan is built. */
  lemma EnumTablesReadAtCallTime(env: Env, enums: map<string, Table>, v: Value, name: string, tag: string)
    ensures Apply(env.(enums := enums), EnumBinding, v, name, tag).0 == TranslateWith(enums, v, tag)
  {
  }

  /** A field the label may be written to: matching name (exactly or up to case), settable, a string. */
  predicate Writable(f: Field, target: string) {
    (f.name == target || EqualFold(f.name, target)) && f.exported && f.value.Str?
  }

  /** A field no label is ever written to: it cannot be set, or it is not a string. */
  predicate NeverWritten(f: Field) {
    !f.exported || !f.value.Str?
  }

  /** The first field, from index j on, the label may be written to. */
  function TargetFrom(fs: seq<Field>, target: string, j: nat): (r: Option<nat>)
    requires j <= |fs|
    ensures r.Some? ==>
      j <= r.value < |fs| && Writable(fs[r.value], target) && forall k :: j <= k < r.value ==> !Writable(fs[k], target)
    ensures r.None? ==> forall k :: j <= k < |fs| ==> !Writable(fs[k], target)
    decreases |fs| - j
  {
    if j == |fs| then None
    else if Writable(fs[j], target) then Some(j)
    else TargetFrom(fs, target, j + 1)
  }

  /** Writing the label into the target: only the first writable match changes, and only its text. */
  function WriteTarget(fs: seq<Field>, target: string, text: string): (gs: seq<Field>)
    ensures SameFields(fs, gs)
    ensures forall k :: 0 <= k < |fs| && NeverWritten(fs[k]) ==> gs[k] == fs[k]
    ensures TargetFrom(fs, target, 0).None? ==> gs == fs
    ensures TargetFrom(fs, target, 0).Some? ==>
      var j := TargetFrom(fs, target, 0).value;
      gs == fs[j := fs[j].(value := Str(text))]
  {
    match TargetFrom(fs, target, 0)
    case None => SameFieldsRefl(fs); fs
    case Some(j) =>
      SameFieldsUpdate(fs, j, Str(text));
      fs[j := fs[j].(value := Str(text))]
  }

  /** The legacy `dict` tag: a silent no-op unless dictionary, source, label and target all exist. */
  function Legacy(dicts: map<string, Table>, fp: FieldPlan, fs: seq<Field>, i: nat): (gs: seq<Field>)
    requires i < |fs|
    ensures SameFields(fs, gs)
    ensures forall k :: 0 <= k < |fs| && NeverWritten(fs[k]) ==> gs[k] == fs[k]
  {
    var dictName := TranslatorName(fp.tag);
    var source := fs[i].value;
    var target := TagGet(fs[i], "dictField");
    if dictName !in dicts || !source.Str? || source.s == "" then SameFieldsRefl(fs); fs
    else
      var text := if source.s in dicts[dictName] then dicts[dictName][source.s] else "";
      if text == "" || target == "" then SameFieldsRefl(fs); fs
      else WriteTarget(fs, target, text)
  }

  /**
   * The legacy path changes nothing unless the dictionary named before the
   * first comma exists, the source is a non-empty string with a non-empty
   * label and `dictField` is set; then it writes exactly that label.
   */
  lemma LegacyWrites(dicts: map<string, Table>, fp: FieldPlan, fs: seq<Field>, i: nat)
    requires i < |fs|
    ensures var name := Split(fp.tag, ',')[0]; var v := fs[i].value; var target := TagGet(fs[i], "dictField");
      if name in dicts && v.Str? && v.s != "" && v.s in dicts[name] && dicts[name][v.s] != "" && target != ""
      then Legacy(dicts, fp, fs, i) == WriteTarget(fs, target, dicts[name][v.s])
      else Legacy(dicts, fp, fs, i) == fs
  {
  }

  /** A legacy tag "name,options" names the dictionary "name". */
  lemma LegacyNameIsFirstPart(name: string, options: string)
    requires ',' !in name
    ensures TranslatorName(name + "," + options) == name
  {
    SplitAtSeparator(name, ',', options);
  }

  /** The translator path: a failure aborts, an empty label or target writes nothing. */
  function ViaTranslator(env: Env, b: Binding, fp: FieldPlan, fs: seq<Field>, i: nat): (r: Walked<seq<Field>>)
    requires i < |fs|
    ensures SameFields(fs, r.out) && Grows(env, r.env)
    ensures r.err.Some? ==> r.out == fs
    ensures forall k :: 0 <= k < |fs| && NeverWritten(fs[k]) ==> r.out[k] == fs[k]
  {
    var (res, env1) := Apply(env, b, fs[i].value, fs[i].name, fp.tag);
    if res.Failure? then SameFieldsRefl(fs); Walked(env1, fs, Some(res.error))
    else if res.value == "" || fp.target == "" then SameFieldsRefl(fs); Walked(env1, fs, None)
    else Walked(env1, WriteTarget(fs, fp.target, res.value), None)
  }

  /**
   * The translator receives the field's current value, its name and the
   * tag text; its label, if non-empty, lands in the first writable target
   * and no other field changes.
   */
  lemma TranslatorWrites(env: Env, b: Binding, fp: FieldPlan, fs: seq<Field>, i: nat)
    requires i < |fs|
    ensures var (res, _) := Apply(env, b, fs[i].value, fs[i].name, fp.tag);
      var r := ViaTranslator(env, b, fp, fs, i);
      && (res.Failure? ==> r.err == Some(res.error))
      && (res.Success? ==> r.err.None?)
      && (res.Failure? || res.value == "" || fp.target == "" ==> r.out == fs)
      && (res.Success? && res.value != "" && fp.target != "" ==>
            r.out == WriteTarget(fs, fp.target, res.value) && r.err.None?)
  {
  }

  /** The tag part of a field's step, driven by the field's plan entry. */
  function TagStep(env: Env, plan: seq<FieldPlan>, fs: seq<Field>, i: nat): (r: Walked<seq<Field>>)
    requires i < |fs|
    ensures SameFields(fs, r.out) && Grows(env, r.env)
    ensures r.err.Some? ==> r.out == fs
    ensures forall k :: 0 <= k < |fs| && NeverWritten(fs[k]) ==> r.out[k] == fs[k]
  {
    match FindPlan(plan, i)
    case None => SameFieldsRefl(fs); Walked(env, fs, None)
    case Some(fp) =>
      if fp.binding.Some? then ViaTranslator(env, fp.binding.value, fp, fs, i)
      else if fp.tag != "" then Walked(env, Legacy(env.dicts, fp, fs, i), None)
      else SameFieldsRefl(fs); Walked(env, fs, None)
  }

  /** Descending into a field's value: records, non-nil pointers to records, and slices. */
  function Descend(env: Env, v: Value): (r: Walked<Value>)
    ensures SameShape(v, r.out) && Grows(env, r.env)
    decreases Size(v), 0, 0
  {
    match v
    case Struct(t, gs) =>
      var w := WalkStruct(env, t, gs);
      Walked(w.env, Struct(t, w.out), w.err)
    case Ptr(Some(Struct(t, gs))) =>
      assert Size(v) == 2 + FieldsSize(gs);
      var w := WalkStruct(env, t, gs);
      Walked(w.env, Ptr(Some(Struct(t, w.out))), w.err)
    case Slice(es) =>
      var w := WalkElems(env, es, 0, |es|);
      Walked(w.env, Slice(w.out), w.err)
    case _ => SameShapeRefl(v); Walked(env, v, None)
  }

  /** translateStruct: the type's plan, then every field in declaration order. */
  function WalkStruct(env: Env, t: string, fs: seq<Field>): (r: Walked<seq<Field>>)
    ensures SameFields(fs, r.out) && Grows(env, r.env)
    decreases FieldsSize(fs), 3, 0
  {
    var (plan, env1) := GetPlan(env, t, fs);
    WalkFields(env1, plan, fs, 0)
  }

  /** The fields from index i on; the first failure ends the walk. */
  function WalkFields(env: Env, plan: seq<FieldPlan>, fs: seq<Field>, i: nat): (r: Walked<seq<Field>>)
    requires i <= |fs|
    ensures SameFields(fs, r.out) && Grows(env, r.env)
    decreases FieldsSize(fs), 2, |fs| - i
  {
    if i == |fs| then SameFieldsRefl(fs); Walked(env, fs, None)
    else
      var s := FieldStep(env, plan, fs, i);
      if s.err.Some? then s
      else
        SameFieldsSize(fs, s.out);
        var r := WalkFields(s.env, plan, s.out, i + 1);
        SameFieldsTrans(fs, s.out, r.out);
        r
  }

  /**
   * One field: skipped when not settable; its nested values first, then its
   * own tag. Other fields change only when they are the tag's target, and a
   * failure leaves them all as they were.
   */
  function FieldStep(env: Env, plan: seq<FieldPlan>, fs: seq<Field>, i: nat): (r: Walked<seq<Field>>)
    requires i < |fs|
    ensures SameFields(fs, r.out) && Grows(env, r.env)
    ensures !fs[i].exported ==> r == Walked(env, fs, None)
    ensures forall k :: 0 <= k < |fs| && k != i && NeverWritten(fs[k]) ==> r.out[k] == fs[k]
    ensures r.err.Some? ==> forall k :: 0 <= k < |fs| && k != i ==> r.out[k] == fs[k]
    decreases FieldsSize(fs), 1, 0
  {
    if !fs[i].exported then SameFieldsRefl(fs); Walked(env, fs, None)
    else
      FieldSizeBound(fs, i);
      var d := Descend(env, fs[i].value);
      SameFieldsUpdate(fs, i, d.out);
      var fs1 := fs[i := fs[i].(value := d.out)];
      if d.err.Some? then Walked(d.env, fs1, d.err)
      else
        var r := TagStep(d.env, plan, fs1, i);
        SameFieldsTrans(fs, fs1, r.out);
        r
  }

  /**
   * The nested walk comes first: the tag of an exported field sees the
   * field's value as its own walk left it, and a nested failure ends the
   * step before the tag is consulted.
   */
  lemma FieldStepNestedFirst(env: Env, plan: seq<FieldPlan>, fs: seq<Field>, i: nat)
    requires i < |fs| && fs[i].exported
    ensures var d := Descend(env, fs[i].value);
      var fs1 := fs[i := fs[i].(value := d.out)];
      FieldStep(env, plan, fs, i) == if d.err.Some? then Walked(d.env, fs1, d.err) else TagStep(d.env, plan, fs1, i)
  {
  }

  /**
   * A failing field ends the record's walk: its failure is the walk's, and
   * every other field, those after it included, keeps its value.
   */
  lemma WalkFieldsAbort(env: Env, plan: seq<FieldPlan>, fs: seq<Field>, i: nat)
    requires i < |fs| && FieldStep(env, plan, fs, i).err.Some?
    ensures var r := WalkFields(env, plan, fs, i);
      r == FieldStep(env, plan, fs, i)
      && forall k :: 0 <= k < |fs| && k != i ==> r.out[k] == fs[k]
  {
  }

  /**
   * The field loop never changes a field that cannot be set, nor a field it
   * has already passed that is not a string: later tags only write strings.
   */
  lemma {:induction false} WalkFieldsKeepsFixed(env: Env, plan: seq<FieldPlan>, fs: seq<Field>, i: nat, k: nat)
    requires i <= |fs| && k < |fs|
    requires (k < i && NeverWritten(fs[k])) || !fs[k].exported
    ensures WalkFields(env, plan, fs, i).out[k] == fs[k]
    decreases |fs| - i
  {
    if i < |fs| {
      var s := FieldStep(env, plan, fs, i);
      assert s.out[k] == fs[k];
      if s.err.None? {
        WalkFieldsKeepsFixed(s.env, plan, s.out, i + 1, k);
      }
    }
  }

  /**
   * One walk fills every nesting level: after a field loop without failure,
   * each exported field that holds a record, a pointer or a slice holds the
   * outcome of a successful walk of its original value.
   */
  lemma {:induction false} WalkFieldsFillsNested(env: Env, plan: seq<FieldPlan>, fs: seq<Field>, i: nat, k: nat)
    requires i <= k < |fs| && fs[k].exported && !fs[k].value.Str?
    requires WalkFields(env, plan, fs, i).err.None?
    ensures exists e ::
      (Descend(e, fs[k].value).err.None?
       && WalkFields(env, plan, fs, i).out[k].value == Descend(e, fs[k].value).out)
    decreases |fs| - i
  {
    var s := FieldStep(env, plan, fs, i);
    assert s.err.None?;
    if k == i {
      var d := Descend(env, fs[i].value);
      assert d.err.None?;
      assert !d.out.Str?;
      var fs1 := fs[i := fs[i].(value := d.out)];
      assert NeverWritten(fs1[i]);
      assert s.out[i] == fs1[i];
      WalkFieldsKeepsFixed(s.env, plan, s.out, i + 1, i);
      assert WalkFields(env, plan, fs, i).out[k].value == Descend(env, fs[k].value).out;
    } else {
      assert s.out[k] == fs[k];
      WalkFieldsFillsNested(s.env, plan, s.out, i + 1, k);
    }
  }

  /**
   * A record walked without failure has every exported nested value
   * walked, and every field that cannot be set unchanged.
   */
  lemma WalkStructFillsNested(env: Env, t: string, fs: seq<Field>, k: nat)
    requires k < |fs|
    ensures var r := WalkStruct(env, t, fs);
      && (!fs[k].exported ==> r.out[k] == fs[k])
      && (r.err.None? && fs[k].exported && !fs[k].value.Str? ==>
            exists e :: Descend(e, fs[k].value).err.None? && r.out[k].value == Descend(e, fs[k].value).out)
  {
    var (plan, env1) := GetPlan(env, t, fs);
    if !fs[k].exported {
      WalkFieldsKeepsFixed(env1, plan, fs, 0, k);
    } else if WalkStruct(env, t, fs).err.None? && !fs[k].value.Str? {
      WalkFieldsFillsNested(env1, plan, fs, 0, k);
    }
  }

  /** translateSlice over the indices [i, end); the first failure ends the walk. */
  function WalkElems(env: Env, es: seq<Value>, i: nat, end: nat): (r: Walked<seq<Value>>)
    requires i <= end <= |es|
    ensures SameElems(es, r.out) && Grows(env, r.env)
    decreases ElemsSize(es), 2, end - i
  {
    if i == end then SameElemsRefl(es); Walked(env, es, None)
    else
      var s := ElemStep(env, es, i);
      if s.err.Some? then s
      else
        SameElemsSize(es, s.out);
        var r := WalkElems(s.env, s.out, i + 1, end);
        SameElemsTrans(es, s.out, r.out);
        r
  }

  /** One element: records and non-nil pointers to records are walked; everything else is skipped. */
  function ElemStep(env: Env, es: seq<Value>, i: nat): (r: Walked<seq<Value>>)
    requires i < |es|
    ensures SameElems(es, r.out) && Grows(env, r.env)
    ensures !(es[i].Struct? || (es[i].Ptr? && es[i].target.Some? && es[i].target.value.Struct?)) ==>
      r == Walked(env, es, None)
    ensures forall k :: 0 <= k < |es| && k != i ==> r.out[k] == es[k]
    decreases ElemsSize(es), 1, 0
  {
    ElemSizeBound(es, i);
    match es[i]
    case Struct(t, gs) =>
      var w := WalkStruct(env, t, gs);
      SameElemsUpdate(es, i, Struct(t, w.out));
      Walked(w.env, es[i := Struct(t, w.out)], w.err)
    case Ptr(Some(Struct(t, gs))) =>
      var w := WalkStruct(env, t, gs);
      SameElemsUpdate(es, i, Ptr(Some(Struct(t, w.out))));
      Walked(w.env, es[i := Ptr(Some(Struct(t, w.out)))], w.err)
    case _ => SameElemsRefl(es); Walked(env, es, None)
  }

  /**
   * Walking [a, c) is walking [a, b) and then, unless that failed, [b, c):
   * the first failure stops the walk and the elements before it stay walked.
   */
  lemma {:induction false} WalkElemsSplit(env: Env, es: seq<Value>, a: nat, b: nat, c: nat)
    requires a <= b <= c <= |es|
    ensures var w := WalkElems(env, es, a, b);
      WalkElems(env, es, a, c) == if w.err.Some? then w else WalkElems(w.env, w.out, b, c)
    decreases b - a
  {
    if a < b {
      var s := ElemStep(env, es, a);
      if s.err.None? {
        WalkElemsSplit(s.env, s.out, a + 1, b, c);
      }
    }
  }

  /** Translate: unwrappers first; then a pointer to a slice or to a record is walked. */
  function Translation(env: Env, us: seq<UnWrapFn>, v: Value): (r: Walked<Value>)
    ensures Grows(env, r.env)
  {
    var w := match FirstUnwrap(us, v) case Some(u) => u case None => v;
    match w
    case Ptr(Some(Slice(es))) =>
      var x := WalkElems(env, es, 0, |es|);
      Walked(x.env, Ptr(Some(Slice(x.out))), x.err)
    case Ptr(Some(Struct(t, fs))) =>
      var x := WalkStruct(env, t, fs);
      Walked(x.env, Ptr(Some(Struct(t, x.out))), x.err)
    case Ptr(_) => Walked(env, w, Some(NotStruct))
    case _ => Walked(env, w, Some(NotPointer))
  }

  /**
   * The entry checks: without a successful unwrapper, a value that is not a
   * pointer fails with NotPointer and a pointer to neither a record nor a
   * slice (a nil pointer, a pointer to a pointer) fails with NotStruct,
   * both without touching anything.
   */
  lemma EntryChecks(env: Env, us: seq<UnWrapFn>, v: Value)
    requires FirstUnwrap(us, v).None?
    ensures !v.Ptr? ==> Translation(env, us, v) == Walked(env, v, Some(NotPointer))
    ensures v.Ptr? && (v.target.None? || !(v.target.value.Struct? || v.target.value.Slice?)) ==>
      Translation(env, us, v) == Walked(env, v, Some(NotStruct))
  {
  }

  /** A successful unwrapper's payload is what gets translated, in place of the original. */
  lemma UnwrappedPayloadTranslated(env: Env, us: seq<UnWrapFn>, v: Value)
    requires FirstUnwrap(us, v).Some?
    ensures Translation(env, us, v) == Translation(env, [], FirstUnwrap(us, v).value)
  {
  }

  /** A walk only ever rewrites strings: the result has the shape of its input. */
  lemma TranslationKeepsShape(env: Env, us: seq<UnWrapFn>, v: Value)
    ensures var w := match FirstUnwrap(us, v) case Some(u) => u case None => v;
      SameShape(w, Translation(env, us, v).out)
  {
    var w := match FirstUnwrap(us, v) case Some(u) => u case None => v;
    if !(w.Ptr? && w.target.Some? && (w.target.value.Slice? || w.target.value.Struct?)) {
      SameShapeRefl(w);
    }
  }

  /* ---------------- batches ---------------- */

  /** The walk of the chunks from k on, each stopping at its own first failure; failures are collected. */
  datatype Chunked = Chunked(env: Env, out: seq<Value>, errs: seq<Error>)

  predicate ChunksFit(chunks: seq<Chunk>, n: nat) {
    forall j :: 0 <= j < |chunks| ==> chunks[j].start <= chunks[j].end <= n
  }

  function WalkChunks(env: Env, es: seq<Value>, chunks: seq<Chunk>, k: nat): (r: Chunked)
    requires ChunksFit(chunks, |es|)
    ensures |r.out| == |es| && SameElems(es, r.out) && Grows(env, r.env)
    decreases |chunks| - k
  {
    if k >= |chunks| then SameElemsRefl(es); Chunked(env, es, [])
    else
      var w := WalkElems(env, es, chunks[k].start, chunks[k].end);
      var rest := WalkChunks(w.env, w.out, chunks, k + 1);
      SameElemsTrans(es, w.out, rest.out);
      Chunked(rest.env, rest.out, (if w.err.Some? then [w.err.value] else []) + rest.errs)
  }

  /** One chunk of the pool: its walk, then the chunks after it. */
  lemma WalkChunksStep(env: Env, es: seq<Value>, chunks: seq<Chunk>, k: nat, w: Walked<seq<Value>>)
    requires ChunksFit(chunks, |es|) && k < |chunks|
    requires w == WalkElems(env, es, chunks[k].start, chunks[k].end)
    ensures |w.out| == |es| && ChunksFit(chunks, |w.out|)
    ensures var rest := WalkChunks(w.env, w.out, chunks, k + 1);
      WalkChunks(env, es, chunks, k)
      == Chunked(rest.env, rest.out, (if w.err.Some? then [w.err.value] else []) + rest.errs)
  {
  }

  /** batchTranslateParallel, with the workers run one after another in chunk order. */
  function ParallelTranslation(env: Env, es: seq<Value>): (r: Chunked)
    requires |es| >= 1
    ensures |r.out| == |es| && SameElems(es, r.out) && Grows(env, r.env)
  {
    ChunksOfSlice(|es|);
    WalkChunks(env, es, Chunks(|es|), 0)
  }

  /** Chunks that follow one another from `from` to the end of the slice. */
  predicate Contiguous(chunks: seq<Chunk>, k: nat, n: nat) {
    && k < |chunks|
    && (forall j :: k <= j < |chunks| ==> chunks[j].start <= chunks[j].end <= n)
    && (forall j :: k < j < |chunks| ==> chunks[j].start == chunks[j - 1].end)
    && chunks[|chunks| - 1].end == n
  }

  /** The worker pool's chunks fit the slice and follow one another up to its end. */
  lemma ChunksOfSlice(n: nat)
    requires n >= 1
    ensures ChunksFit(Chunks(n), n) && Contiguous(Chunks(n), 0, n)
  {
    ChunksBounds(n);
    ChunksContiguous(n);
  }

  lemma {:induction false} WalkChunksSequential(env: Env, es: seq<Value>, chunks: seq<Chunk>, k: nat)
    requires ChunksFit(chunks, |es|) && Contiguous(chunks, k, |es|)
    ensures var p := WalkChunks(env, es, chunks, k);
      var s := WalkElems(env, es, chunks[k].start, |es|);
      (p.errs == [] <==> s.err.None?)
      && (p.errs == [] ==> p.env == s.env && p.out == s.out)
    decreases |chunks| - k
  {
    var c := chunks[k];
    WalkElemsSplit(env, es, c.start, c.end, |es|);
    var w := WalkElems(env, es, c.start, c.end);
    if k + 1 < |chunks| {
      assert chunks[k + 1].start == c.end;
      WalkChunksSequential(w.env, w.out, chunks, k + 1);
    } else {
      assert c.end == |es|;
    }
  }

  /**
   * The parallel path agrees with the sequential one: no chunk fails iff
   * the sequential walk succeeds, and then both leave the same elements and
   * the same state.
   */
  lemma ParallelMatchesSequential(env: Env, es: seq<Value>)
    requires |es| >= 1
    ensures var p := ParallelTranslation(env, es);
      var s := WalkElems(env, es, 0, |es|);
      (p.errs == [] <==> s.err.None?)
      && (p.errs == [] ==> p.env == s.env && p.out == s.out)
  {
    ChunksOfSlice(|es|);
    var ch := Chunks(|es|);
    assert ch[0].start == 0;
    WalkChunksSequential(env, es, ch, 0);
  }

  /**
   * What a batch call returns: its state, its walked value, the failures it
   * met and whether the error reported is determined (the sequential
   * paths) or any of them (the parallel path, where a race decides).
   */
  datatype Batched = Batched(env: Env, out: Value, errs: seq<Error>, exact: bool)

  /** The error a batch call may report for its outcome. */
  predicate Reports(b: Batched, err: Option<Error>) {
    if b.exact then |b.errs| <= 1 && err == (if b.errs == [] then None else Some(b.errs[0]))
    else (b.errs == [] ==> err.None?) && (err.Some? ==> err.value in b.errs)
  }

  function Sequential(env: Env, es: seq<Value>): (r: Batched)
    ensures r.exact && |r.errs| <= 1
  {
    var x := WalkElems(env, es, 0, |es|);
    Batched(x.env, Ptr(Some(Slice(x.out))), if x.err.Some? then [x.err.value] else [], true)
  }

  function Parallel(env: Env, es: seq<Value>): (r: Batched)
    requires |es| >= 1
    ensures !r.exact
  {
    var p := ParallelTranslation(env, es);
    Batched(p.env, Ptr(Some(Slice(p.out))), p.errs, false)
  }

  /** BatchTranslate: the entry checks, then the sequential walk below ten elements or when not parallel. */
  function BatchTranslation(env: Env, v: Value, parallel: bool): (r: Batched)
  {
    match v
    case Ptr(Some(Slice(es))) =>
      if |es| == 0 then Batched(env, v, [], true)
      else if !parallel || |es| < MinParallelLength then Sequential(env, es)
      else Parallel(env, es)
    case Ptr(_) => Batched(env, v, [NotSlice], true)
    case _ => Batched(env, v, [NotPointer], true)
  }

  /**
   * BatchTranslate's outcome: the entry errors, nothing for an empty
   * slice, and otherwise, when no element fails, exactly the sequential
   * walk, whichever path is taken.
   */
  lemma BatchTranslationOutcome(env: Env, v: Value, parallel: bool)
    ensures var r := BatchTranslation(env, v, parallel);
      && (!v.Ptr? ==> r == Batched(env, v, [NotPointer], true))
      && (v.Ptr? && !(v.target.Some? && v.target.value.Slice?) ==> r == Batched(env, v, [NotSlice], true))
      && (v == Ptr(Some(Slice([]))) ==> r == Batched(env, v, [], true))
      && (v.Ptr? && v.target.Some? && v.target.value.Slice? && |v.target.value.elems| > 0 ==>
            var s := WalkElems(env, v.target.value.elems, 0, |v.target.value.elems|);
            (r.errs == [] <==> s.err.None?)
            && (r.errs == [] ==> r.env == s.env && r.out == Ptr(Some(Slice(s.out)))))
  {
    if v.Ptr? && v.target.Some? && v.target.value.Slice? && |v.target.value.elems| > 0 {
      var es := v.target.value.elems;
      if parallel && |es| >= MinParallelLength {
        ParallelMatchesSequential(env, es);
      }
    }
  }

  /** The parallel-path guard of TranslateBatch as written: it admits an empty slice when the threshold is at most 0. */
  predicate ParallelGuardAsWritten(parallel: bool, length: nat, threshold: int) {
    parallel && length >= threshold
  }

  /** With a threshold of 0 the guard lets an empty slice through to a pool of zero workers. */
  lemma EmptySliceReachesZeroWorkers()
    ensures ParallelGuardAsWritten(true, 0, 0) && WorkerCount(0) == 0
  {
  }

  /** The guard as intended: an empty slice never reaches the worker pool. */
  predicate ParallelGuard(parallel: bool, length: nat, threshold: int) {
    ParallelGuardAsWritten(parallel, length, threshold) && length >= 1
  }

  /** The corrected guard differs from the written one only on the empty slice. */
  lemma ParallelGuardCorrected(parallel: bool, length: nat, threshold: int)
    ensures ParallelGuard(parallel, length, threshold) ==> length >= 1 && WorkerCount(length) >= 1
    ensures length >= 1 ==> (ParallelGuard(parallel, length, threshold) <==> ParallelGuardAsWritten(parallel, length, threshold))
    ensures threshold >= 1 ==> (ParallelGuard(parallel, length, threshold) <==> ParallelGuardAsWritten(parallel, length, threshold))
  {
  }

  /** TranslateBatch: nil options mean parallel; the parallel path from the configured threshold on. */
  function OptimizedBatch(env: Env, v: Value, parallel: Option<bool>, threshold: int): (r: Batched)
  {
    match v
    case Ptr(Some(Slice(es))) =>
      var par := parallel.None? || parallel.value;
      if ParallelGuard(par, |es|, threshold) then Parallel(env, es)
      else Sequential(env, es)
    case Ptr(_) => Batched(env, v, [NotSlice], true)
    case _ => Batched(env, v, [NotPointer], true)
  }

  /** An empty slice gives nil on both batch entries. */
  lemma EmptyBatchSucceeds(env: Env, parallel: Option<bool>, threshold: int)
    ensures OptimizedBatch(env, Ptr(Some(Slice([]))), parallel, threshold).errs == []
    ensures BatchTranslation(env, Ptr(Some(Slice([]))), parallel == Some(true)).errs == []
  {
  }
}
