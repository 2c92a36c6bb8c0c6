/**
 * The reflected values the translation engine walks over.  A Go record is a
 * `Struct` whose fields carry their static descriptor (name, struct tags,
 * whether reflection may set them) next to their current value; the type
 * name stands for the identity of the record's reflect.Type.
 */
module Values {
  import opened Wrappers
  import opened Strings

  datatype Value =
    | Str(s: string)
    | Int(i: int)
    | Uint(n: nat)
    | Other(typeName: string, text: string)
    | Struct(typeName: string, fields: seq<Field>)
    | Ptr(target: Option<Value>)
    | Slice(elems: seq<Value>)

  /** One field of a record: `exported` is reflect's CanSet for a field of a settable record. */
  datatype Field = Field(name: string, tags: map<string, string>, exported: bool, value: Value)

  /** reflect.StructTag.Get: the value of a tag key, "" when the key is absent. */
  function TagGet(f: Field, key: string): (r: string)
    ensures key !in f.tags ==> r == ""
    ensures key in f.tags ==> r == f.tags[key]
  {
    if key in f.tags then f.tags[key] else ""
  }

  /** fmt's %v; exact for strings, integers and other scalars, a sketch for composites. */
  function Render(v: Value): string {
    match v
    case Str(s) => s
    case Int(i) => IntToString(i)
    case Uint(n) => NatToString(n)
    case Other(_, text) => text
    case Struct(_, fs) => "{" + RenderFields(fs) + "}"
    case Ptr(None) => "<nil>"
    case Ptr(Some(t)) => "&" + Render(t)
    case Slice(es) => "[" + RenderElems(es) + "]"
  }

  function RenderFields(fs: seq<Field>): string
    decreases fs
  {
    if |fs| == 0 then ""
    else if |fs| == 1 then Render(fs[0].value)
    else Render(fs[0].value) + " " + RenderFields(fs[1..])
  }

  function RenderElems(es: seq<Value>): string
    decreases es
  {
    if |es| == 0 then ""
    else if |es| == 1 then Render(es[0])
    else Render(es[0]) + " " + RenderElems(es[1..])
  }

  /** The number of nodes of a value: the measure by which the walk terminates. */
  function Size(v: Value): (n: nat)
    ensures n >= 1
  {
    match v
    case Struct(_, fs) => 1 + FieldsSize(fs)
    case Ptr(Some(t)) => 1 + Size(t)
    case Slice(es) => 1 + ElemsSize(es)
    case _ => 1
  }

  function FieldsSize(fs: seq<Field>): nat
    decreases fs
  {
    if |fs| == 0 then 0 else Size(fs[0].value) + FieldsSize(fs[1..])
  }

  function ElemsSize(es: seq<Value>): nat
    decreases es
  {
    if |es| == 0 then 0 else Size(es[0]) + ElemsSize(es[1..])
  }

  lemma {:induction false} FieldSizeBound(fs: seq<Field>, i: int)
    requires 0 <= i < |fs|
    ensures Size(fs[i].value) <= FieldsSize(fs)
    decreases i
  {
    if i > 0 {
      FieldSizeBound(fs[1..], i - 1);
    }
  }

  lemma {:induction false} ElemSizeBound(es: seq<Value>, i: int)
    requires 0 <= i < |es|
    ensures Size(es[i]) <= ElemsSize(es)
    decreases i
  {
    if i > 0 {
      ElemSizeBound(es[1..], i - 1);
    }
  }

  /**
   * Two values of the same shape differ at most in the contents of their
   * strings: the translation engine never changes anything else.
   */
  predicate SameShape(a: Value, b: Value)
    decreases a
  {
    match a
    case Str(_) => b.Str?
    case Struct(t, fs) => b.Struct? && b.typeName == t && SameFields(fs, b.fields)
    case Ptr(None) => b == Ptr(None)
    case Ptr(Some(x)) => b.Ptr? && b.target.Some? && SameShape(x, b.target.value)
    case Slice(es) => b.Slice? && SameElems(es, b.elems)
    case _ => a == b
  }

  predicate SameField(f: Field, g: Field)
    decreases f
  {
    f.name == g.name && f.tags == g.tags && f.exported == g.exported && SameShape(f.value, g.value)
  }

  predicate SameFields(fs: seq<Field>, gs: seq<Field>)
    decreases fs
  {
    |fs| == |gs| && forall i :: 0 <= i < |fs| ==> SameField(fs[i], gs[i])
  }

  predicate SameElems(es: seq<Value>, ds: seq<Value>)
    decreases es
  {
    |es| == |ds| && forall i :: 0 <= i < |es| ==> SameShape(es[i], ds[i])
  }

  lemma {:induction false} SameShapeRefl(v: Value)
    ensures SameShape(v, v)
    decreases v
  {
    match v
    case Struct(_, fs) =>
      forall i | 0 <= i < |fs| ensures SameField(fs[i], fs[i]) { SameShapeRefl(fs[i].value); }
    case Ptr(Some(x)) => SameShapeRefl(x);
    case Slice(es) =>
      forall i | 0 <= i < |es| ensures SameShape(es[i], es[i]) { SameShapeRefl(es[i]); }
    case _ =>
  }

  lemma SameFieldsRefl(fs: seq<Field>)
    ensures SameFields(fs, fs)
  {
    forall i | 0 <= i < |fs| ensures SameField(fs[i], fs[i]) { SameShapeRefl(fs[i].value); }
  }

  lemma SameElemsRefl(es: seq<Value>)
    ensures SameElems(es, es)
  {
    forall i | 0 <= i < |es| ensures SameShape(es[i], es[i]) { SameShapeRefl(es[i]); }
  }

  /** Replacing one field's value by one of the same shape keeps the record's shape. */
  lemma SameFieldsUpdate(fs: seq<Field>, i: int, v: Value)
    requires 0 <= i < |fs| && SameShape(fs[i].value, v)
    ensures SameFields(fs, fs[i := fs[i].(value := v)])
  {
    var gs := fs[i := fs[i].(value := v)];
    forall k | 0 <= k < |fs| ensures SameField(fs[k], gs[k]) {
      if k != i { SameShapeRefl(fs[k].value); }
    }
  }

  /** Replacing one element by one of the same shape keeps the slice's shape. */
  lemma SameElemsUpdate(es: seq<Value>, i: int, v: Value)
    requires 0 <= i < |es| && SameShape(es[i], v)
    ensures SameElems(es, es[i := v])
  {
    forall k | 0 <= k < |es| && k != i ensures SameShape(es[k], es[k]) { SameShapeRefl(es[k]); }
  }

  lemma {:induction false} SameShapeTrans(a: Value, b: Value, c: Value)
    requires SameShape(a, b) && SameShape(b, c)
    ensures SameShape(a, c)
    decreases a
  {
    match a
    case Struct(_, fs) =>
      assert SameFields(fs, b.fields) && SameFields(b.fields, c.fields);
      forall i | 0 <= i < |fs| ensures SameField(fs[i], c.fields[i]) {
        assert SameField(fs[i], b.fields[i]) && SameField(b.fields[i], c.fields[i]);
        SameShapeTrans(fs[i].value, b.fields[i].value, c.fields[i].value);
      }
    case Ptr(Some(x)) => SameShapeTrans(x, b.target.value, c.target.value);
    case Slice(es) =>
      assert SameElems(es, b.elems) && SameElems(b.elems, c.elems);
      forall i | 0 <= i < |es| ensures SameShape(es[i], c.elems[i]) {
        SameShapeTrans(es[i], b.elems[i], c.elems[i]);
      }
    case _ =>
  }

  lemma SameFieldsTrans(fs: seq<Field>, gs: seq<Field>, hs: seq<Field>)
    requires SameFields(fs, gs) && SameFields(gs, hs)
    ensures SameFields(fs, hs)
  {
    forall i | 0 <= i < |fs| ensures SameField(fs[i], hs[i]) {
      SameShapeTrans(fs[i].value, gs[i].value, hs[i].value);
    }
  }

  lemma SameElemsTrans(es: seq<Value>, ds: seq<Value>, cs: seq<Value>)
    requires SameElems(es, ds) && SameElems(ds, cs)
    ensures SameElems(es, cs)
  {
    forall i | 0 <= i < |es| ensures SameShape(es[i], cs[i]) {
      SameShapeTrans(es[i], ds[i], cs[i]);
    }
  }

  /** Values of the same shape have the same size, so the walk's measure is kept. */
  lemma {:induction false} SameShapeSize(a: Value, b: Value)
    requires SameShape(a, b)
    ensures Size(a) == Size(b)
    decreases a, 1
  {
    match a
    case Struct(_, fs) => SameFieldsSize(fs, b.fields);
    case Ptr(Some(x)) => SameShapeSize(x, b.target.value);
    case Slice(es) => SameElemsSize(es, b.elems);
    case _ =>
  }

  lemma {:induction false} SameFieldsSize(fs: seq<Field>, gs: seq<Field>)
    requires SameFields(fs, gs)
    ensures FieldsSize(fs) == FieldsSize(gs)
    decreases fs, 0
  {
    if |fs| > 0 {
      SameShapeSize(fs[0].value, gs[0].value);
      assert SameFields(fs[1..], gs[1..]) by {
        forall i | 0 <= i < |fs| - 1 ensures SameField(fs[1..][i], gs[1..][i]) {
          assert SameField(fs[i + 1], gs[i + 1]);
        }
      }
      SameFieldsSize(fs[1..], gs[1..]);
    }
  }

  lemma {:induction false} SameElemsSize(es: seq<Value>, ds: seq<Value>)
    requires SameElems(es, ds)
    ensures ElemsSize(es) == ElemsSize(ds)
    decreases es, 0
  {
    if |es| > 0 {
      SameShapeSize(es[0], ds[0]);
      assert SameElems(es[1..], ds[1..]) by {
        forall i | 0 <= i < |es| - 1 ensures SameShape(es[1..][i], ds[1..][i]) {
          assert SameShape(es[i + 1], ds[i + 1]);
        }
      }
      SameElemsSize(es[1..], ds[1..]);
    }
  }
}
