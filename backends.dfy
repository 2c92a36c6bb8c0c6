/**
 * The three database-backed translators: how each builds its cache key and
 * its backend query from the coordinates captured at plan time and the
 * field's value, on top of the shared cache protocol.
 */
module Backends {
  import opened Wrappers
  import opened Strings
  import opened Values
  import opened Errors
  import opened DbParser
  import opened CachedLookup

  /** What a `db` backend is asked: the coordinates and the raw field value. */
  datatype DbQuery = DbQuery(table: string, keyField: string, valueField: string, key: Value)

  /** What a dictionary-table backend is asked: the dictionary type and the stringified key. */
  datatype TableQuery = TableQuery(dictType: string, dictKey: string)

  const DbMissing := "database translator not registered"
  const TableMissing := "dict table translator not registered"
  const TableTwoMissing := "dict table two translator not registered"

  /** The `db` cache key: the three coordinates and the value's %v, joined by ':'. */
  function DbCacheKey(c: Coords, v: Value): string {
    c.table + ":" + c.keyField + ":" + c.valueField + ":" + Render(v)
  }

  /** The dictionary-table cache key: the dictionary type and the value's %v, joined by ':'. */
  function TableCacheKey(dictType: string, v: Value): string {
    dictType + ":" + Render(v)
  }

  /** The translator bound to a parsed `db` tag. */
  function DbTranslate(s: State<DbQuery>, c: Coords, v: Value): (res: (Result<string, Error>, State<DbQuery>))
    ensures Hit(s, DbCacheKey(c, v)) ==> res == (Success(s.cache[DbCacheKey(c, v)]), s)
    ensures !Hit(s, DbCacheKey(c, v)) && s.backend.None? ==> res == (Failure(NotRegistered(DbMissing)), s)
    ensures !Hit(s, DbCacheKey(c, v)) && s.backend.Some? ==>
      && res.0 == s.backend.value(DbQuery(c.table, c.keyField, c.valueField, v))
      && res.1.calls == s.calls + [DbQuery(c.table, c.keyField, c.valueField, v)]
    ensures res.1.cache == s.cache
      || (s.enabled && res.0.Success? && res.0.value != "" && res.1.cache == s.cache[DbCacheKey(c, v) := res.0.value])
  {
    Fetch(s, DbCacheKey(c, v), DbQuery(c.table, c.keyField, c.valueField, v), DbMissing)
  }

  /**
   * The translator bound to a `dictTable` (or, with the other manager's
   * message, a `dictTableTwo`) tag: the backend receives the very key text
   * that follows the type in the cache key.
   */
  function TableTranslate(s: State<TableQuery>, dictType: string, v: Value, missing: string)
    : (res: (Result<string, Error>, State<TableQuery>))
    ensures Hit(s, TableCacheKey(dictType, v)) ==> res == (Success(s.cache[TableCacheKey(dictType, v)]), s)
    ensures !Hit(s, TableCacheKey(dictType, v)) && s.backend.None? ==> res == (Failure(NotRegistered(missing)), s)
    ensures !Hit(s, TableCacheKey(dictType, v)) && s.backend.Some? ==>
      exists k :: res.1.calls == s.calls + [TableQuery(dictType, k)]
                  && res.0 == s.backend.value(TableQuery(dictType, k))
                  && TableCacheKey(dictType, v) == dictType + ":" + k
    ensures res.1.cache == s.cache
      || (s.enabled && res.0.Success? && res.0.value != ""
          && res.1.cache == s.cache[TableCacheKey(dictType, v) := res.0.value])
  {
    var k := Render(v);
    Fetch(s, TableCacheKey(dictType, v), TableQuery(dictType, k), missing)
  }

  /**
   * Because the coordinates are joined by ':', two different `db` tags can
   * share a cache entry: a label fetched for one is served for the other
   * without a query.
   */
  lemma DbKeysCollide(s: State<DbQuery>, v: Value)
    requires s.enabled
    requires DbTranslate(s, Coords("a:b", "c", "d"), v).0.Success?
    requires DbTranslate(s, Coords("a:b", "c", "d"), v).0.value != ""
    ensures var (r1, s1) := DbTranslate(s, Coords("a:b", "c", "d"), v);
      DbTranslate(s1, Coords("a", "b:c", "d"), v) == (r1, s1)
  {
    assert DbCacheKey(Coords("a:b", "c", "d"), v) == DbCacheKey(Coords("a", "b:c", "d"), v);
  }

  /** An integer field and a string field holding its decimal text share one cache entry. */
  lemma IntAndDecimalShareEntry(dictType: string, i: int)
    ensures TableCacheKey(dictType, Int(i)) == TableCacheKey(dictType, Str(IntToString(i)))
  {
  }
}
