/**
 * The enum translator: a registry of named label tables and the conversion
 * of a field value to the key it is looked up by.
 */
module Enum {
  import opened Wrappers
  import opened Strings
  import opened Values
  import opened Errors

  /** A sketch of %T for values no key can be made of. */
  function TypeText(v: Value): string {
    match v
    case Str(_) => "string"
    case Int(_) => "int64"
    case Uint(_) => "uint64"
    case Other(t, _) => t
    case Struct(t, _) => t
    case Ptr(None) => "*"
    case Ptr(Some(x)) => "*" + TypeText(x)
    case Slice(es) => "[]" + (if |es| > 0 then TypeText(es[0]) else "")
  }

  /** The key of a value: a string itself, an integer of any width its decimal text. */
  function EnumKey(v: Value): (r: Result<string, Error>)
    ensures v.Str? ==> r == Success(v.s)
    ensures v.Int? && v.i >= 0 ==> r.Success? && AllDigits(r.value) && DecimalValue(r.value) == v.i
    ensures v.Int? && v.i < 0 ==>
      r.Success? && |r.value| >= 2 && r.value[0] == '-'
      && AllDigits(r.value[1..]) && DecimalValue(r.value[1..]) == -v.i
    ensures v.Uint? ==> r.Success? && AllDigits(r.value) && DecimalValue(r.value) == v.n
    ensures !(v.Str? || v.Int? || v.Uint?) ==> r == Failure(UnsupportedEnumValue(TypeText(v)))
  {
    match v
    case Str(s) => Success(s)
    case Int(i) =>
      if i >= 0 then NatToStringDecimal(i); Success(IntToString(i))
      else NatToStringDecimal(-i); assert IntToString(i)[1..] == NatToString(-i); Success(IntToString(i))
    case Uint(n) => NatToStringDecimal(n); Success(NatToString(n))
    case _ => Failure(UnsupportedEnumValue(TypeText(v)))
  }

  /**
   * EnumTranslator.Translate over a given registry: the whole tag names the
   * table, a missing table is reported before the value's kind is looked at,
   * and a key the table lacks gives the empty label.
   */
  function TranslateWith(enums: map<string, Table>, v: Value, tag: string): (r: Result<string, Error>)
    ensures tag !in enums ==> r == Failure(EnumNotFound(tag))
    ensures tag in enums && EnumKey(v).Failure? ==> r == Failure(EnumKey(v).error)
    ensures tag in enums && EnumKey(v).Success? ==>
      r.Success?
      && (EnumKey(v).value in enums[tag] ==> r.value == enums[tag][EnumKey(v).value])
      && (EnumKey(v).value !in enums[tag] ==> r.value == "")
  {
    if tag !in enums then Failure(EnumNotFound(tag))
    else
      match EnumKey(v)
      case Failure(e) => Failure(e)
      case Success(k) => Success(if k in enums[tag] then enums[tag][k] else "")
  }

  /** Distinct integers never share an enum key. */
  lemma DistinctIntsDistinctKeys(a: int, b: int)
    requires a != b
    ensures EnumKey(Int(a)) != EnumKey(Int(b))
  {
    if EnumKey(Int(a)) == EnumKey(Int(b)) {
      IntToStringInjective(a, b);
    }
  }

  /** A signed or unsigned integer is looked up exactly as its decimal text would be. */
  lemma IntegersUseDecimalText(enums: map<string, Table>, i: int, n: nat, tag: string)
    ensures TranslateWith(enums, Int(i), tag) == TranslateWith(enums, Str(IntToString(i)), tag)
    ensures TranslateWith(enums, Uint(n), tag) == TranslateWith(enums, Str(NatToString(n)), tag)
  {
  }

  /** The registry the plans share; tables registered after planning are still seen. */
  class EnumTranslator {
    var enumMap: map<string, Table>

    constructor ()
      ensures enumMap == map[]
    {
      enumMap := map[];
    }

    /** RegisterEnum: the table replaces any earlier one of that name. */
    method RegisterEnum(name: string, table: Table)
      modifies this
      ensures enumMap == old(enumMap)[name := table]
    {
      enumMap := enumMap[name := table];
    }

    /** GetEnum: the table last registered under the name, if any. */
    function GetEnum(name: string): (r: Option<Table>)
      reads this
      ensures r.Some? <==> name in enumMap
      ensures r.Some? ==> r.value == enumMap[name]
    {
      if name in enumMap then Some(enumMap[name]) else None
    }

    /** Translate: the field name is ignored; the tag names the table. */
    function Translate(v: Value, fieldName: string, tag: string): (r: Result<string, Error>)
      reads this
      ensures r == TranslateWith(enumMap, v, tag)
    {
      TranslateWith(enumMap, v, tag)
    }
  }

  /** After registering a table, a translation with its name looks the key up in it. */
  lemma RegisterThenTranslate(enums: map<string, Table>, name: string, table: Table, k: string)
    ensures TranslateWith(enums[name := table], Str(k), name)
         == Success(if k in table then table[k] else "")
  {
  }
}
