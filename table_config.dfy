/**
 * The description of a dictionary table's columns and the SQL text built
 * from it.  Each condition is `column = ?` with its argument; conditions are
 * joined by " AND " and follow a fixed order: type, key, status.
 */
module TableConfig {
  import opened Wrappers

  datatype TableFields = TableFields(typeField: string, keyField: string, valueField: string)

  datatype StatusField = StatusField(fieldName: string, enabledValue: string, disabledValue: string)

  datatype TableConfig = TableConfig(
    tableName: string,
    fields: TableFields,
    statusField: Option<StatusField>,
    sortField: string)

  /** A parameterised statement and its arguments, in placeholder order. */
  datatype Query = Query(sql: string, args: seq<string>)

  const DefaultStatus := StatusField("status", "1", "0")

  /** The single-table dictionary default. */
  function DefaultTableConfig(tableName: string): (tc: TableConfig)
    ensures tc.tableName == tableName
    ensures tc.fields == TableFields("dict_type", "dict_key", "dict_value")
    ensures tc.statusField == Some(StatusField("status", "1", "0")) && tc.sortField == ""
  {
    TableConfig(tableName, TableFields("dict_type", "dict_key", "dict_value"), Some(DefaultStatus), "")
  }

  /** The type table of the two-table dictionary: it has no key column. */
  function DefaultDictTypeTableConfig(tableName: string): (tc: TableConfig)
    ensures tc.tableName == tableName
    ensures tc.fields == TableFields("dict_type_code", "", "dict_type_name")
    ensures tc.statusField == Some(StatusField("status", "1", "0")) && tc.sortField == ""
  {
    TableConfig(tableName, TableFields("dict_type_code", "", "dict_type_name"), Some(DefaultStatus), "")
  }

  /** The data table of the two-table dictionary. */
  function DefaultDictDataTableConfig(tableName: string): (tc: TableConfig)
    ensures tc.tableName == tableName
    ensures tc.fields == TableFields("dict_type_code", "dict_key", "dict_value")
    ensures tc.statusField == Some(StatusField("status", "1", "0")) && tc.sortField == ""
  {
    TableConfig(tableName, TableFields("dict_type_code", "dict_key", "dict_value"), Some(DefaultStatus), "")
  }

  /** A condition: the column compared and the argument bound to its placeholder. */
  datatype Condition = Condition(column: string, arg: string)

  /**
   * The conditions of a query, in order: the type column, the key column
   * when a key is looked up, and the status column with its enabled value.
   */
  function Conditions(tc: TableConfig, dictType: string, dictKey: Option<string>): seq<Condition> {
    (if tc.fields.typeField != "" then [Condition(tc.fields.typeField, dictType)] else [])
    + (if dictKey.Some? && tc.fields.keyField != "" then [Condition(tc.fields.keyField, dictKey.value)] else [])
    + (if tc.statusField.Some? then [Condition(tc.statusField.value.fieldName, tc.statusField.value.enabledValue)] else [])
  }

  function Placeholder(c: Condition): string {
    c.column + " = ?"
  }

  /** The conditions' text, separated by " AND ". */
  function JoinAnd(cs: seq<Condition>): string {
    if |cs| == 0 then ""
    else if |cs| == 1 then Placeholder(cs[0])
    else JoinAnd(cs[..|cs| - 1]) + " AND " + Placeholder(cs[|cs| - 1])
  }

  function Args(cs: seq<Condition>): (r: seq<string>)
    ensures |r| == |cs| && forall i :: 0 <= i < |cs| ==> r[i] == cs[i].arg
  {
    if |cs| == 0 then [] else Args(cs[..|cs| - 1]) + [cs[|cs| - 1].arg]
  }

  function Statement(head: string, cs: seq<Condition>): Query {
    Query(head + JoinAnd(cs), Args(cs))
  }

  function SelectHead(tc: TableConfig): string {
    "SELECT " + tc.fields.valueField + " FROM " + tc.tableName + " WHERE "
  }

  function CountHead(tc: TableConfig): string {
    "SELECT COUNT(1) FROM " + tc.tableName + " WHERE "
  }

  /** Appends one condition as the builder does: " AND " only after an earlier one. */
  method AddCondition(query: string, args: seq<string>, c: Condition, ghost head: string, ghost cs: seq<Condition>)
    returns (query': string, args': seq<string>)
    requires Query(query, args) == Statement(head, cs)
    ensures Query(query', args') == Statement(head, cs + [c])
  {
    query' := query;
    if |args| > 0 {
      query' := query' + " AND ";
    }
    query' := query' + c.column + " = ?";
    args' := args + [c.arg];
    assert (cs + [c])[..|cs|] == cs;
  }

  /** BuildQuery: the label column for a dictionary type. */
  method BuildQuery(tc: TableConfig, dictType: string) returns (query: string, args: seq<string>)
    ensures Query(query, args) == Statement(SelectHead(tc), Conditions(tc, dictType, None))
  {
    query := "SELECT " + tc.fields.valueField + " FROM " + tc.tableName + " WHERE ";
    args := [];
    ghost var cs: seq<Condition> := [];
    if tc.fields.typeField != "" {
      query, args := AddCondition(query, args, Condition(tc.fields.typeField, dictType), SelectHead(tc), cs);
      cs := cs + [Condition(tc.fields.typeField, dictType)];
    }
    if tc.statusField.Some? {
      var c := Condition(tc.statusField.value.fieldName, tc.statusField.value.enabledValue);
      query, args := AddCondition(query, args, c, SelectHead(tc), cs);
      cs := cs + [c];
    }
    assert cs == Conditions(tc, dictType, None);
  }

  /** BuildQueryWithKey: the label column for a dictionary type and key. */
  method BuildQueryWithKey(tc: TableConfig, dictType: string, dictKey: string) returns (query: string, args: seq<string>)
    ensures Query(query, args) == Statement(SelectHead(tc), Conditions(tc, dictType, Some(dictKey)))
  {
    query := "SELECT " + tc.fields.valueField + " FROM " + tc.tableName + " WHERE ";
    args := [];
    ghost var cs: seq<Condition> := [];
    if tc.fields.typeField != "" {
      query, args := AddCondition(query, args, Condition(tc.fields.typeField, dictType), SelectHead(tc), cs);
      cs := cs + [Condition(tc.fields.typeField, dictType)];
    }
    if tc.fields.keyField != "" {
      query, args := AddCondition(query, args, Condition(tc.fields.keyField, dictKey), SelectHead(tc), cs);
      cs := cs + [Condition(tc.fields.keyField, dictKey)];
    }
    if tc.statusField.Some? {
      var c := Condition(tc.statusField.value.fieldName, tc.statusField.value.enabledValue);
      query, args := AddCondition(query, args, c, SelectHead(tc), cs);
      cs := cs + [c];
    }
    assert cs == Conditions(tc, dictType, Some(dictKey));
  }

  /** BuildTypeCheckQuery: counts the rows of a type; a key is never part of it. */
  method BuildTypeCheckQuery(tc: TableConfig, dictTypeCode: string) returns (query: string, args: seq<string>)
    ensures Query(query, args) == Statement(CountHead(tc), Conditions(tc, dictTypeCode, None))
  {
    query := "SELECT COUNT(1) FROM " + tc.tableName + " WHERE ";
    args := [];
    ghost var cs: seq<Condition> := [];
    if tc.fields.typeField != "" {
      query, args := AddCondition(query, args, Condition(tc.fields.typeField, dictTypeCode), CountHead(tc), cs);
      cs := cs + [Condition(tc.fields.typeField, dictTypeCode)];
    }
    if tc.statusField.Some? {
      var c := Condition(tc.statusField.value.fieldName, tc.statusField.value.enabledValue);
      query, args := AddCondition(query, args, c, CountHead(tc), cs);
      cs := cs + [c];
    }
    assert cs == Conditions(tc, dictTypeCode, None);
  }

  /** The number of occurrences of a character. */
  function Count(s: string, c: char): nat {
    if |s| == 0 then 0 else Count(s[..|s| - 1], c) + (if s[|s| - 1] == c then 1 else 0)
  }

  lemma {:induction false} CountConcat(a: string, b: string, c: char)
    ensures Count(a + b, c) == Count(a, c) + Count(b, c)
    decreases |b|
  {
    if |b| == 0 {
      assert a + b == a;
    } else {
      assert (a + b)[..|a + b| - 1] == a + b[..|b| - 1];
      CountConcat(a, b[..|b| - 1], c);
    }
  }

  lemma NoOccurrence(s: string, c: char)
    requires c !in s
    ensures Count(s, c) == 0
  {
    if |s| > 0 {
      assert c !in s[..|s| - 1];
      NoOccurrence(s[..|s| - 1], c);
    }
  }

  predicate NoPlaceholderIn(s: string) {
    '?' !in s
  }

  /** Every condition contributes exactly one '?' to the text. */
  lemma {:induction false} JoinAndPlaceholders(cs: seq<Condition>)
    requires forall i :: 0 <= i < |cs| ==> NoPlaceholderIn(cs[i].column)
    ensures Count(JoinAnd(cs), '?') == |cs|
  {
    if |cs| > 0 {
      var last := cs[|cs| - 1];
      NoOccurrence(last.column, '?');
      CountConcat(last.column, " = ?", '?');
      assert Count(" = ?", '?') == 1 by {
        assert " = ?"[..3] == " = " && " = "[..2] == " =" && " ="[..1] == " " && " "[..0] == "";
      }
      if |cs| > 1 {
        JoinAndPlaceholders(cs[..|cs| - 1]);
        CountConcat(JoinAnd(cs[..|cs| - 1]), " AND ", '?');
        assert Count(" AND ", '?') == 0 by { NoOccurrence(" AND ", '?'); }
        CountConcat(JoinAnd(cs[..|cs| - 1]) + " AND ", Placeholder(last), '?');
      }
    }
  }

  /** A statement whose head and columns hold no '?' has one placeholder per argument. */
  lemma StatementPlaceholders(head: string, cs: seq<Condition>)
    requires NoPlaceholderIn(head)
    requires forall i :: 0 <= i < |cs| ==> NoPlaceholderIn(cs[i].column)
    ensures Count(Statement(head, cs).sql, '?') == |Statement(head, cs).args|
  {
    JoinAndPlaceholders(cs);
    NoOccurrence(head, '?');
    CountConcat(head, JoinAnd(cs), '?');
  }

  /** Column names free of '?' give as many placeholders as arguments. */
  lemma PlaceholdersMatchArgs(tc: TableConfig, dictType: string, dictKey: Option<string>)
    requires NoPlaceholderIn(tc.tableName) && NoPlaceholderIn(tc.fields.valueField)
    requires NoPlaceholderIn(tc.fields.typeField) && NoPlaceholderIn(tc.fields.keyField)
    requires tc.statusField.Some? ==> NoPlaceholderIn(tc.statusField.value.fieldName)
    ensures var q := Statement(SelectHead(tc), Conditions(tc, dictType, dictKey));
      Count(q.sql, '?') == |q.args|
    ensures var q := Statement(CountHead(tc), Conditions(tc, dictType, None));
      Count(q.sql, '?') == |q.args|
  {
    assert NoPlaceholderIn(SelectHead(tc));
    assert NoPlaceholderIn(CountHead(tc));
    StatementPlaceholders(SelectHead(tc), Conditions(tc, dictType, dictKey));
    StatementPlaceholders(CountHead(tc), Conditions(tc, dictType, None));
  }

  /**
   * The arguments come in the order type, key, status, each present iff its
   * column is configured, and the status argument is the enabled value.
   */
  lemma ArgsInOrder(tc: TableConfig, dictType: string, dictKey: Option<string>)
    ensures Args(Conditions(tc, dictType, dictKey))
         == (if tc.fields.typeField != "" then [dictType] else [])
          + (if dictKey.Some? && tc.fields.keyField != "" then [dictKey.value] else [])
          + (if tc.statusField.Some? then [tc.statusField.value.enabledValue] else [])
  {
  }

  /** With no condition configured the text ends in " WHERE ". */
  lemma NoConditionsEndInWhere(tc: TableConfig, dictType: string, dictKey: Option<string>)
    requires tc.fields.typeField == "" && tc.fields.keyField == "" && tc.statusField.None?
    ensures Statement(SelectHead(tc), Conditions(tc, dictType, dictKey))
         == Query("SELECT " + tc.fields.valueField + " FROM " + tc.tableName + " WHERE ", [])
  {
  }

  /** The disabled value never reaches a query. */
  lemma DisabledValueUnused(tc: TableConfig, dictType: string, dictKey: Option<string>, d: string)
    requires tc.statusField.Some?
    ensures var tc' := tc.(statusField := Some(tc.statusField.value.(disabledValue := d)));
      Conditions(tc', dictType, dictKey) == Conditions(tc, dictType, dictKey)
  {
  }

  /*
   * The queries table_config_test.go expects, written as " AND "-separated pieces of
   * the expected text.
   */

  /** Two conditions: the head, the first, " AND ", the second. */
  lemma TwoConditions(head: string, c0: Condition, c1: Condition)
    ensures Statement(head, [c0, c1]).sql == head + Placeholder(c0) + " AND " + Placeholder(c1)
    ensures Statement(head, [c0, c1]).args == [c0.arg, c1.arg]
  {
    var cs := [c0, c1];
    assert cs[..1] == [c0];
    var a, b, c := Placeholder(c0), " AND ", Placeholder(c1);
    assert JoinAnd([c0]) == a;
    assert JoinAnd(cs) == a + b + c;
    assert head + (a + b + c) == head + a + b + c;
  }

  /** Three conditions: the head and the three, " AND " between each. */
  lemma ThreeConditions(head: string, c0: Condition, c1: Condition, c2: Condition)
    ensures Statement(head, [c0, c1, c2]).sql
         == head + Placeholder(c0) + " AND " + Placeholder(c1) + " AND " + Placeholder(c2)
    ensures Statement(head, [c0, c1, c2]).args == [c0.arg, c1.arg, c2.arg]
  {
    var cs := [c0, c1, c2];
    assert cs[..2] == [c0, c1] && cs[..2][..1] == [c0];
    var a, b, c, d := Placeholder(c0), Placeholder(c1), Placeholder(c2), " AND ";
    assert JoinAnd([c0]) == a;
    assert JoinAnd([c0, c1]) == a + d + b;
    assert JoinAnd(cs) == a + d + b + d + c;
    assert head + (a + d + b + d + c) == head + a + d + b + d + c;
  }

  /** The default single-table query for a dictionary type. */
  lemma DefaultQuery(tableName: string, dictType: string)
    ensures Statement(SelectHead(DefaultTableConfig(tableName)), Conditions(DefaultTableConfig(tableName), dictType, None))
         == Query("SELECT dict_value FROM " + tableName + " WHERE " + "dict_type = ?" + " AND " + "status = ?",
                  [dictType, "1"])
  {
    var c0, c1 := Condition("dict_type", dictType), Condition("status", "1");
    assert Conditions(DefaultTableConfig(tableName), dictType, None) == [c0, c1];
    TwoConditions(SelectHead(DefaultTableConfig(tableName)), c0, c1);
    assert "SELECT " + "dict_value" + " FROM " == "SELECT dict_value FROM ";
  }

  /** The default query by type and key: the key condition sits between type and status. */
  lemma DefaultQueryWithKey(tableName: string, dictType: string, dictKey: string)
    ensures Statement(SelectHead(DefaultTableConfig(tableName)), Conditions(DefaultTableConfig(tableName), dictType, Some(dictKey)))
         == Query("SELECT dict_value FROM " + tableName + " WHERE "
                  + "dict_type = ?" + " AND " + "dict_key = ?" + " AND " + "status = ?",
                  [dictType, dictKey, "1"])
  {
    var c0, c1, c2 := Condition("dict_type", dictType), Condition("dict_key", dictKey), Condition("status", "1");
    assert Conditions(DefaultTableConfig(tableName), dictType, Some(dictKey)) == [c0, c1, c2];
    assert "SELECT " + "dict_value" + " FROM " == "SELECT dict_value FROM ";
    var head := SelectHead(DefaultTableConfig(tableName));
    assert head == "SELECT dict_value FROM " + tableName + " WHERE ";
    assert Placeholder(c0) == "dict_type = ?" && Placeholder(c1) == "dict_key = ?" && Placeholder(c2) == "status = ?";
    ThreeConditions(head, c0, c1, c2);
  }

  /** A custom configuration keyed by type and code, with a Y/N status column. */
  lemma CustomQueryWithKey(tableName: string, dictType: string, dictKey: string)
    ensures var tc := TableConfig(tableName, TableFields("type_code", "code", "label"),
                                  Some(StatusField("is_active", "Y", "N")), "");
      Statement(SelectHead(tc), Conditions(tc, dictType, Some(dictKey)))
        == Query("SELECT label FROM " + tableName + " WHERE "
                 + "type_code = ?" + " AND " + "code = ?" + " AND " + "is_active = ?",
                 [dictType, dictKey, "Y"])
  {
    var tc := TableConfig(tableName, TableFields("type_code", "code", "label"),
                          Some(StatusField("is_active", "Y", "N")), "");
    var c0, c1, c2 := Condition("type_code", dictType), Condition("code", dictKey), Condition("is_active", "Y");
    assert Conditions(tc, dictType, Some(dictKey)) == [c0, c1, c2];
    assert "SELECT " + "label" + " FROM " == "SELECT label FROM ";
    var head := SelectHead(tc);
    assert head == "SELECT label FROM " + tableName + " WHERE ";
    assert Placeholder(c0) == "type_code = ?" && Placeholder(c1) == "code = ?" && Placeholder(c2) == "is_active = ?";
    ThreeConditions(head, c0, c1, c2);
  }

  /** Without a status column only the type and key conditions remain. */
  lemma NoStatusQueryWithKey(tableName: string, dictType: string, dictKey: string)
    ensures var tc := TableConfig(tableName, TableFields("type", "key", "value"), None, "");
      Statement(SelectHead(tc), Conditions(tc, dictType, Some(dictKey)))
        == Query("SELECT value FROM " + tableName + " WHERE " + "type = ?" + " AND " + "key = ?",
                 [dictType, dictKey])
  {
    var tc := TableConfig(tableName, TableFields("type", "key", "value"), None, "");
    var c0, c1 := Condition("type", dictType), Condition("key", dictKey);
    assert Conditions(tc, dictType, Some(dictKey)) == [c0, c1];
    TwoConditions(SelectHead(tc), c0, c1);
    assert "SELECT " + "value" + " FROM " == "SELECT value FROM ";
  }
}
