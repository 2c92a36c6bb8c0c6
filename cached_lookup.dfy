/**
 * The cache protocol shared by the three database-backed translators
 * (the `db` tag, the single dictionary table and the two-table dictionary):
 * read the cache while it is enabled, fail when no backend is registered,
 * ask the backend, and keep a non-empty answer while caching is enabled.
 * The query type Q is what the backend is asked; `calls` logs every query.
 */
module CachedLookup {
  import opened Wrappers
  import opened Errors

  datatype State<!Q> = State(
    cache: map<string, string>,
    enabled: bool,
    backend: Option<Q -> Result<string, Error>>,
    calls: seq<Q>)

  /** A manager as it is first created: empty cache, caching on, no backend. */
  function Initial<Q>(): State<Q> {
    State(map[], true, None, [])
  }

  predicate Hit<Q>(s: State<Q>, key: string) {
    s.enabled && key in s.cache
  }

  /**
   * One lookup of `key` that, on a miss, asks the backend `q`; `missing` is
   * the message of the manager's "not registered" error.
   */
  function Fetch<Q>(s: State<Q>, key: string, q: Q, missing: string): (res: (Result<string, Error>, State<Q>))
    ensures res.1.enabled == s.enabled && res.1.backend == s.backend
    ensures Hit(s, key) ==> res == (Success(s.cache[key]), s)
    ensures !Hit(s, key) && s.backend.None? ==> res == (Failure(NotRegistered(missing)), s)
    ensures !Hit(s, key) && s.backend.Some? ==>
      res.0 == s.backend.value(q) && res.1.calls == s.calls + [q]
    ensures res.1.cache == s.cache
      || (s.enabled && res.0.Success? && res.0.value != "" && res.1.cache == s.cache[key := res.0.value])
  {
    if Hit(s, key) then (Success(s.cache[key]), s)
    else if s.backend.None? then (Failure(NotRegistered(missing)), s)
    else
      var r := s.backend.value(q);
      var logged := s.(calls := s.calls + [q]);
      if r.Success? && s.enabled && r.value != "" then (r, logged.(cache := s.cache[key := r.value]))
      else (r, logged)
  }

  /**
   * A non-empty answer is asked for once: with caching on, the second
   * lookup of the same key makes no query and gives the same label.
   */
  lemma QueriedOnce<Q>(s: State<Q>, key: string, q: Q, missing: string)
    requires s.enabled
    requires Fetch(s, key, q, missing).0.Success? && Fetch(s, key, q, missing).0.value != ""
    ensures var (r1, s1) := Fetch(s, key, q, missing);
      var (r2, s2) := Fetch(s1, key, q, missing);
      r2 == r1 && s2 == s1 && |s1.calls| <= |s.calls| + 1
  {
  }

  /** With caching off, or for an empty answer, every lookup asks the backend again. */
  lemma MissesAskAgain<Q>(s: State<Q>, key: string, q: Q, missing: string)
    requires s.backend.Some?
    requires !s.enabled || (key !in s.cache && s.backend.value(q) == Success(""))
    ensures var (_, s1) := Fetch(s, key, q, missing);
      var (_, s2) := Fetch(s1, key, q, missing);
      s2.calls == s.calls + [q, q]
  {
    var s1 := Fetch(s, key, q, missing).1;
    assert s1.calls + [q] == s.calls + [q, q];
  }

  /** A backend error is returned as it is and leaves the cache as it was. */
  lemma ErrorsAreNotCached<Q>(s: State<Q>, key: string, q: Q, missing: string)
    requires !Hit(s, key) && s.backend.Some? && s.backend.value(q).Failure?
    ensures Fetch(s, key, q, missing).0 == s.backend.value(q)
    ensures Fetch(s, key, q, missing).1.cache == s.cache
  {
  }

  /**
   * Switching caching off and on again evicts nothing: a label cached
   * before is served again, without a query, and whatever the backend is now.
   */
  lemma ReenableServesOldEntries<Q>(s: State<Q>, key: string, q: Q, missing: string,
                                     b: Option<Q -> Result<string, Error>>)
    requires key in s.cache
    ensures Fetch(s.(enabled := false).(enabled := true).(backend := b), key, q, missing).0
         == Success(s.cache[key])
    ensures Fetch(s.(enabled := true).(backend := b), key, q, missing).1.calls == s.calls
  {
  }

  /**
   * Registering nil after a backend brings the "not registered" failure
   * back for every miss: no query is made and nothing changes.
   */
  lemma NilBackendFailsAgain<Q>(s: State<Q>, key: string, q: Q, missing: string)
    requires !Hit(s, key)
    ensures Fetch(s.(backend := None), key, q, missing)
         == (Failure(NotRegistered(missing)), s.(backend := None))
  {
  }

  /** The manager object: it lives as long as the process and owns its own state. */
  class Manager<Q> {
    var cache: map<string, string>
    var enabled: bool
    var backend: Option<Q -> Result<string, Error>>
    ghost var calls: seq<Q>
    /** The text of this manager's "not registered" error. */
    const missing: string

    ghost function Snapshot(): State<Q>
      reads this
    {
      State(cache, enabled, backend, calls)
    }

    constructor (missing: string)
      ensures Snapshot() == Initial() && this.missing == missing
    {
      cache := map[];
      enabled := true;
      backend := None;
      calls := [];
      this.missing := missing;
    }

    /**
     * Register...Translator: replaces the backend and nothing else. `None`
     * is Go's nil, which unregisters the backend, so later misses fail
     * with "not registered" again.
     */
    method Register(f: Option<Q -> Result<string, Error>>)
      modifies this
      ensures Snapshot() == old(Snapshot()).(backend := f)
    {
      backend := f;
    }

    /** Enable...Cache: flips the flag, evicting nothing. */
    method Enable(on: bool)
      modifies this
      ensures Snapshot() == old(Snapshot()).(enabled := on)
    {
      enabled := on;
    }

    /** Clear...Cache: empties the cache and nothing else. */
    method Clear()
      modifies this
      ensures Snapshot() == old(Snapshot()).(cache := map[])
    {
      cache := map[];
    }

    /** The body of the translator closure, after the cache key and the query are built. */
    method Lookup(key: string, q: Q) returns (r: Result<string, Error>)
      modifies this
      ensures (r, Snapshot()) == Fetch(old(Snapshot()), key, q, missing)
    {
      if enabled && key in cache {
        return Success(cache[key]);
      }
      if backend.None? {
        return Failure(NotRegistered(missing));
      }
      r := backend.value(q);
      calls := calls + [q];
      if r.Failure? {
        return r;
      }
      if enabled && r.value != "" {
        cache := cache[key := r.value];
      }
    }
  }
}
