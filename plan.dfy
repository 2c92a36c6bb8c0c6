/**
 * The per-type translation plan: for every field, at most one binding,
 * chosen by the fixed tag priority translate > db > dictTableTwo >
 * dictTable > enum > dict, plus the target field named by `dictField`.
 */
module Plan {
  import opened Wrappers
  import opened Strings
  import opened Values
  import opened Errors
  import opened DbParser

  /** A custom translator: (source value, field name, tag text) to a label or an error. */
  type CustomFn = (Value, string, string) -> Result<string, Error>

  /** The registered custom translators; a translator registered as nil is None. */
  type Registry = map<string, Option<CustomFn>>

  /** The translator a field is bound to when its plan is built. */
  datatype Binding =
    | Custom(f: CustomFn)
    | Db(coords: Coords)
    | DictTable(dictType: string)
    | DictTableTwo(dictTypeCode: string)
    | EnumBinding

  /**
   * fieldConfig: the field's index, its `dictField` target, the tag text the
   * translator receives (or the legacy dict tag) and the binding, if any.
   */
  datatype FieldPlan = FieldPlan(index: nat, target: string, tag: string, binding: Option<Binding>)

  /** The tag keys that select a translator, highest priority first. */
  const Priority: seq<string> := ["translate", "db", "dictTableTwo", "dictTable", "enum", "dict"]

  /** The first key of Priority whose tag is non-empty on the field: the only one consulted. */
  function Winner(f: Field): (w: Option<string>)
    ensures w.Some? ==> w.value in Priority && TagGet(f, w.value) != ""
    ensures w.None? <==> forall k :: 0 <= k < |Priority| ==> TagGet(f, Priority[k]) == ""
  {
    if TagGet(f, "translate") != "" then Some("translate")
    else if TagGet(f, "db") != "" then Some("db")
    else if TagGet(f, "dictTableTwo") != "" then Some("dictTableTwo")
    else if TagGet(f, "dictTable") != "" then Some("dictTable")
    else if TagGet(f, "enum") != "" then Some("enum")
    else if TagGet(f, "dict") != "" then Some("dict")
    else None
  }

  /** The name a `translate` tag registers under: the text before its first comma. */
  function TranslatorName(tag: string): string {
    Split(tag, ',')[0]
  }

  /** The configuration one field gets, before the test that keeps it in the plan. */
  function Choose(translators: Registry, f: Field, i: nat): (fp: FieldPlan)
    ensures fp.index == i && fp.target == TagGet(f, "dictField")
  {
    var target := TagGet(f, "dictField");
    var translate := TagGet(f, "translate");
    var db := TagGet(f, "db");
    var two := TagGet(f, "dictTableTwo");
    var table := TagGet(f, "dictTable");
    var enum := TagGet(f, "enum");
    if translate != "" then
      var name := TranslatorName(translate);
      if name !in translators then FieldPlan(i, target, "", None)
      else if translators[name].Some? then FieldPlan(i, target, translate, Some(Custom(translators[name].value)))
      else FieldPlan(i, target, translate, None)
    else if db != "" then
      match ParseTag(db)
      case Some(c) => FieldPlan(i, target, db, Some(Db(c)))
      case None => FieldPlan(i, target, "", None)
    else if two != "" then FieldPlan(i, target, two, Some(DictTableTwo(two)))
    else if table != "" then FieldPlan(i, target, table, Some(DictTable(table)))
    else if enum != "" then FieldPlan(i, target, enum, Some(EnumBinding))
    else FieldPlan(i, target, TagGet(f, "dict"), None)
  }

  /** A field enters the plan iff it got a translator or a legacy dict tag. */
  predicate Included(fp: FieldPlan) {
    fp.binding.Some? || fp.tag != ""
  }

  /** The two fields carry the same tag under `key`. */
  predicate SameTag(f: Field, g: Field, key: string) {
    TagGet(f, key) == TagGet(g, key)
  }

  /**
   * Only the winning tag matters: two fields that agree on every tag up to
   * and including the winner, and on `dictField`, get the same configuration.
   */
  lemma OnlyWinnerConsulted(tr: Registry, f: Field, g: Field, i: nat, k: nat)
    requires k < |Priority| && Winner(f) == Some(Priority[k])
    requires forall j :: 0 <= j <= k ==> SameTag(f, g, Priority[j])
    requires SameTag(f, g, "dictField")
    ensures Choose(tr, f, i) == Choose(tr, g, i)
  {
    assert SameTag(f, g, Priority[0]);
    if k >= 1 { assert SameTag(f, g, Priority[1]); }
    if k >= 2 { assert SameTag(f, g, Priority[2]); }
    if k >= 3 { assert SameTag(f, g, Priority[3]); }
    if k >= 4 { assert SameTag(f, g, Priority[4]); }
    if k >= 5 { assert SameTag(f, g, Priority[5]); }
  }

  /**
   * Which field configurations are kept: a field is in the plan iff it has
   * a winning tag, a `translate` winner names a registered translator and a
   * `db` winner parses.
   */
  lemma IncludedIff(tr: Registry, f: Field, i: nat)
    ensures Included(Choose(tr, f, i)) <==>
      && Winner(f).Some?
      && (Winner(f) == Some("translate") ==> TranslatorName(TagGet(f, "translate")) in tr)
      && (Winner(f) == Some("db") ==> ParseTag(TagGet(f, "db")).Some?)
  {
    if Winner(f) == Some("db") {
      var db := TagGet(f, "db");
      assert db != "";
      if ParseTag(db).Some? {
        assert Choose(tr, f, i).binding.Some?;
      }
    }
  }

  /** The binding and the tag text a kept field gets from its winning tag. */
  lemma BindingOfWinner(tr: Registry, f: Field, i: nat)
    requires Included(Choose(tr, f, i))
    ensures var fp := Choose(tr, f, i);
      && fp.index == i && fp.target == TagGet(f, "dictField")
      && fp.tag == TagGet(f, Winner(f).value)
      && (Winner(f) == Some("translate") ==> TranslatorName(fp.tag) in tr)
      && (fp.binding.Some? && fp.binding.value.Custom?
          <==> Winner(f) == Some("translate") && tr[TranslatorName(fp.tag)].Some?)
      && (fp.binding.Some? && fp.binding.value.Custom? ==> fp.binding.value.f == tr[TranslatorName(fp.tag)].value)
      && (Winner(f) == Some("db") <==> fp.binding.Some? && fp.binding.value.Db?)
      && (Winner(f) == Some("dictTableTwo") <==> fp.binding == Some(DictTableTwo(fp.tag)))
      && (Winner(f) == Some("dictTable") <==> fp.binding == Some(DictTable(fp.tag)))
      && (Winner(f) == Some("enum") <==> fp.binding == Some(EnumBinding))
      && (fp.binding.None?
          <==> Winner(f) == Some("dict") || (Winner(f) == Some("translate") && tr[TranslatorName(fp.tag)].None?))
  {
    IncludedIff(tr, f, i);
  }

  /**
   * A translate tag naming a translator registered as nil is kept with no
   * binding, so the walk treats the whole translate tag as a legacy dict tag.
   */
  lemma NilTranslatorFallsBackToDict(tr: Registry, f: Field, i: nat)
    requires TagGet(f, "translate") != ""
    requires TranslatorName(TagGet(f, "translate")) in tr && tr[TranslatorName(TagGet(f, "translate"))].None?
    ensures Included(Choose(tr, f, i))
    ensures Choose(tr, f, i) == FieldPlan(i, TagGet(f, "dictField"), TagGet(f, "translate"), None)
  {
  }

  /** An unregistered translator name leaves the field out, even when lower tags are present. */
  lemma UnregisteredTranslatorShadows(tr: Registry, f: Field, i: nat)
    requires TagGet(f, "translate") != "" && TranslatorName(TagGet(f, "translate")) !in tr
    ensures !Included(Choose(tr, f, i))
  {
  }

  /** An unparseable `db` tag leaves the field out, even when lower tags are present. */
  lemma UnparseableDbShadows(tr: Registry, f: Field, i: nat)
    requires TagGet(f, "translate") == "" && TagGet(f, "db") != "" && ParseTag(TagGet(f, "db")).None?
    ensures !Included(Choose(tr, f, i))
  {
  }

  /** A missing `dictField` does not keep a field out of the plan. */
  lemma TargetIrrelevantToInclusion(tr: Registry, f: Field, i: nat, target: string)
    ensures Included(Choose(tr, f, i)) == Included(Choose(tr, f.(tags := f.tags[ "dictField" := target]), i))
  {
    var g := f.(tags := f.tags["dictField" := target]);
    forall key | key != "dictField"
      ensures TagGet(f, key) == TagGet(g, key)
    {
    }
    assert Winner(f) == Winner(g);
    IncludedIff(tr, f, i);
    IncludedIff(tr, g, i);
  }

  /** Every field's configuration, in field order. */
  function Candidates(tr: Registry, fs: seq<Field>): (cs: seq<FieldPlan>)
    ensures |cs| == |fs| && forall k :: 0 <= k < |fs| ==> cs[k] == Choose(tr, fs[k], k)
  {
    seq(|fs|, k requires 0 <= k < |fs| => Choose(tr, fs[k], k))
  }

  /** The kept configurations among the candidates, in their order. */
  function Keep(cs: seq<FieldPlan>): (p: seq<FieldPlan>)
    ensures forall k :: 0 <= k < |p| ==> p[k] in cs && Included(p[k])
  {
    if |cs| == 0 then []
    else
      var n := |cs| - 1;
      var p := Keep(cs[..n]);
      assert forall k :: 0 <= k < |p| ==> p[k] in cs[..n];
      if Included(cs[n]) then p + [cs[n]] else p
  }

  /** The plan of a type: the kept configurations, in field order. */
  function BuildPlan(tr: Registry, fs: seq<Field>): seq<FieldPlan> {
    Keep(Candidates(tr, fs))
  }

  /** The candidates carry their own position as index. */
  predicate Indexed(cs: seq<FieldPlan>) {
    forall k :: 0 <= k < |cs| ==> cs[k].index == k
  }

  /** The configuration the walk consults for field i; with duplicate indices the last one wins. */
  function FindPlan(p: seq<FieldPlan>, i: nat): (r: Option<FieldPlan>)
    ensures r.Some? ==> r.value in p && r.value.index == i
    ensures r.None? <==> forall k :: 0 <= k < |p| ==> p[k].index != i
  {
    if |p| == 0 then None
    else if p[|p| - 1].index == i then Some(p[|p| - 1])
    else
      var r := FindPlan(p[..|p| - 1], i);
      assert forall k :: 0 <= k < |p| - 1 ==> p[..|p| - 1][k] == p[k];
      r
  }

  /** Kept candidates have indices in increasing order below the candidate count. */
  lemma {:induction false} KeepIndices(cs: seq<FieldPlan>)
    requires Indexed(cs)
    ensures forall k :: 0 <= k < |Keep(cs)| ==> Keep(cs)[k].index < |cs|
    ensures forall k, l :: 0 <= k < l < |Keep(cs)| ==> Keep(cs)[k].index < Keep(cs)[l].index
  {
    if |cs| > 0 {
      var n := |cs| - 1;
      assert Indexed(cs[..n]);
      KeepIndices(cs[..n]);
      var p := Keep(cs[..n]);
      assert cs[n].index == n;
      if Included(cs[n]) {
        var q := p + [cs[n]];
        assert Keep(cs) == q;
        forall k, l | 0 <= k < l < |q|
          ensures q[k].index < q[l].index
        {
          assert q[k] == p[k];
          if l == |p| {
            assert q[l] == cs[n];
            assert p[k].index < |cs[..n]|;
          } else {
            assert q[l] == p[l];
            assert p[k].index < p[l].index;
          }
        }
      }
    }
  }

  /** Among indexed candidates the plan holds candidate i exactly when it is kept. */
  lemma {:induction false} FindKept(cs: seq<FieldPlan>, i: nat)
    requires Indexed(cs)
    ensures FindPlan(Keep(cs), i) == if i < |cs| && Included(cs[i]) then Some(cs[i]) else None
  {
    if |cs| > 0 {
      var n := |cs| - 1;
      var p := Keep(cs[..n]);
      KeepIndices(cs[..n]);
      if i == n {
        if !Included(cs[n]) {
          assert FindPlan(p, i).None?;
        }
      } else {
        FindKept(cs[..n], i);
        if Included(cs[n]) {
          assert (p + [cs[n]])[..|p|] == p;
        }
      }
    } else {
      assert FindPlan(Keep(cs), i).None?;
    }
  }

  /** The configuration field i contributes to its type's plan, if it is kept. */
  function Entry(tr: Registry, fs: seq<Field>, i: nat): Option<FieldPlan> {
    if i < |fs| && Included(Choose(tr, fs[i], i)) then Some(Choose(tr, fs[i], i)) else None
  }

  /** The plan holds field i's configuration exactly when that configuration is kept. */
  lemma FindBuiltPlan(tr: Registry, fs: seq<Field>, i: nat)
    ensures FindPlan(BuildPlan(tr, fs), i) == Entry(tr, fs, i)
  {
    var cs := Candidates(tr, fs);
    assert Indexed(cs);
    FindKept(cs, i);
  }

  /** A plan lists its fields in strictly increasing order, each in range. */
  lemma PlanOrdered(tr: Registry, fs: seq<Field>)
    ensures var p := BuildPlan(tr, fs);
      && (forall k :: 0 <= k < |p| ==> p[k].index < |fs| && Included(p[k]))
      && (forall k, l :: 0 <= k < l < |p| ==> p[k].index < p[l].index)
  {
    var cs := Candidates(tr, fs);
    assert Indexed(cs);
    KeepIndices(cs);
    assert BuildPlan(tr, fs) == Keep(cs);
  }
}
