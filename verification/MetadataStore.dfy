/** The objects behind the protocol: the active-keys cache, the log writer and the metadata-key
    repository, each method tied to the steps of the state machine. */
module MetadataStore {
  import opened Common
  import opened MetadataIndex

  /** The two tables the protocol touches. */
  class Database {
    var rows: Rows
    var registry: map<Pair, bool>

    constructor ()
      ensures rows == map[] && registry == map[]
    {
      rows, registry := map[], map[];
    }
  }

  class ActiveKeysCache {
    const db: Database
    const ttl: int
    var cache: map<ApiKey, CacheEntry>

    constructor (db: Database, ttl: int)
      ensures this.db == db && this.ttl == ttl && cache == map[]
    {
      this.db, this.ttl, cache := db, ttl, map[];
    }

    ghost function Store(): Store
      reads this, db
    {
      MetadataIndex.Store(db.rows, db.registry, cache)
    }

    /** `GetActiveKeys` as the writer uses it: the keys to index by, none when they cannot be read. */
    method GetActiveKeys(ak: ApiKey, now: int, query: Query) returns (keys: set<string>)
      modifies this
      ensures var hit := ak in old(cache) && now < old(cache)[ak].expiresAt;
              && (hit || query.ReadFailed? ==> unchanged(this))
              && (hit ==> keys == old(cache)[ak].keys)
              && (!hit ==> keys == if query.QueryOk? then ActiveKeys(old(Store()), ak) else {})
              && (!hit && !query.ReadFailed? ==> Store() == CacheKeys(old(Store()), ak, keys, now + ttl))
    {
      if ak in cache && now < cache[ak].expiresAt {
        return cache[ak].keys;
      }
      match query {
        case ReadFailed => return {};
        case QueryFailed => keys := {};
        case QueryOk => keys := set p | p in db.registry && db.registry[p] && p.apiKey == ak :: p.key;
      }
      cache := cache[ak := CacheEntry(keys, now + ttl)];
    }

    method InvalidateAPIKey(ak: ApiKey)
      modifies this
      ensures Store() == Invalidate(old(Store()), ak)
    {
      cache := cache - {ak};
    }

    /** `InvalidateAll`: afterwards no lookup can hit. */
    method InvalidateAll()
      modifies this
      ensures Store() == old(Store()).(cache := map[])
    {
      cache := map[];
    }
  }

  /** The machine's state when the writer is between logs. */
  ghost function Between(st: Store, now: int, ttl: int, tasks: multiset<Task>): State
  {
    State(st, now, ttl, tasks, Idle)
  }

  /** One `writeLog`: the keys it indexes by, the store after the lookup, the store after the insert. */
  ghost predicate Wrote(st: Store, mid: Store, st': Store, log: Log, keys: set<string>, hit: bool, query: Query,
                        ok: bool, now: int, ttl: int)
  {
    && (log.apiKey.None? ==> mid == st && keys == {})
    && (log.apiKey.Some? ==>
          var ak := log.apiKey.value;
          && (hit <==> ak in st.cache && now < st.cache[ak].expiresAt)
          && keys == (if hit then st.cache[ak].keys else if query.QueryOk? then ActiveKeys(st, ak) else {})
          && mid == if hit || query.ReadFailed? then st else CacheKeys(st, ak, keys, now + ttl))
    && st' == if ok then InsertLog(mid, log, keys) else mid
  }

  /** What one `writeLog` does is a run of the machine from idle to idle. */
  lemma {:induction false} WriteIsRun(st: Store, mid: Store, st': Store, log: Log, keys: set<string>, hit: bool,
                                      query: Query, ok: bool, now: int, ttl: int, tasks: multiset<Task>)
    requires Wrote(st, mid, st', log, keys, hit, query, ok, now, ttl) && (ok ==> log.id !in st.rows)
    ensures Leads(Between(st, now, ttl, tasks), WriteSteps(log, hit, query, ok), Between(st', now, ttl, tasks))
  {
    var s, t := Between(st, now, ttl, tasks), Between(st', now, ttl, tasks);
    if log.apiKey.None? {
      TwoSteps(s, LogWithoutKey(log), Insert(ok), t);
    } else if hit {
      TwoSteps(s, CacheHit(log), Insert(ok), t);
    } else if query.ReadFailed? {
      TwoSteps(s, CacheMiss(log, query), Insert(ok), t);
    } else {
      TwoSteps(Apply(s, CacheMiss(log, query)), StoreFetched, Insert(ok), t);
      ThreeSteps(s, CacheMiss(log, query), StoreFetched, Insert(ok), t);
    }
  }

  class Writer {
    const db: Database
    const activeKeyCache: ActiveKeysCache

    constructor (db: Database, activeKeyCache: ActiveKeysCache)
      requires activeKeyCache.db == db
      ensures this.db == db && this.activeKeyCache == activeKeyCache
    {
      this.db, this.activeKeyCache := db, activeKeyCache;
    }

    /** `writeLog` without the cardinality counters: splits the metadata, inserts the row, then
        registers the keys. The row id is new. */
    method WriteLog(log: Log, now: int, query: Query, ok: bool, ghost tasks: multiset<Task>) returns (ghost hit: bool)
      requires activeKeyCache.db == db && (ok ==> log.id !in db.rows)
      modifies db, activeKeyCache
      ensures Leads(Between(old(activeKeyCache.Store()), now, activeKeyCache.ttl, tasks),
                    WriteSteps(log, hit, query, ok),
                    Between(activeKeyCache.Store(), now, activeKeyCache.ttl, tasks))
    {
      hide Leads, Enabled, Apply;
      ghost var before := activeKeyCache.Store();
      hit := false;
      var keys: set<string> := {};
      if log.apiKey.Some? {
        var ak := log.apiKey.value;
        hit := ak in activeKeyCache.cache && now < activeKeyCache.cache[ak].expiresAt;
        keys := activeKeyCache.GetActiveKeys(ak, now, query);
      }
      ghost var mid := activeKeyCache.Store();
      var indexed := SplitMetadata(log.raw, keys);
      if ok {
        db.rows := db.rows[log.id := Row(log.apiKey, log.raw, Some(indexed))];
        if log.apiKey.Some? {
          RegisterMetadataKeys(log.apiKey.value, log.raw);
        }
      }
      assert activeKeyCache.Store() == if ok then InsertLog(mid, log, keys) else mid;
      WriteIsRun(before, mid, activeKeyCache.Store(), log, keys, hit, query, ok, now, activeKeyCache.ttl, tasks);
    }

    /** `registerMetadataKeys`: adds the unknown keys as inactive, leaves known ones alone. */
    method RegisterMetadataKeys(ak: ApiKey, metadata: map<string, string>)
      modifies db`registry
      ensures db.registry == (map k | k in metadata.Keys :: Pair(ak, k) := false) + old(db.registry)
    {
      var rest := metadata.Keys;
      while rest != {}
        invariant rest <= metadata.Keys
        invariant db.registry == (map k | k in metadata.Keys - rest :: Pair(ak, k) := false) + old(db.registry)
        decreases rest
      {
        var key :| key in rest;
        rest := rest - {key};
        if Pair(ak, key) !in db.registry {
          db.registry := db.registry[Pair(ak, key) := false];
        }
      }
    }
  }

  /** The splitting loop of `writeLog`, in any key order. */
  method SplitMetadata(raw: map<string, string>, active: set<string>) returns (indexed: map<string, string>)
    ensures indexed == map k | k in raw && k in active :: raw[k]
  {
    indexed := map[];
    var rest := raw.Keys;
    while rest != {}
      invariant rest <= raw.Keys
      invariant indexed == map k | k in raw && k in active && k !in rest :: raw[k]
      decreases rest
    {
      var key :| key in rest;
      rest := rest - {key};
      if key in active {
        indexed := indexed[key := raw[key]];
      }
    }
  }

  // ---- Backfill and cleanup without interference ----

  /** Some rows of a set, as many as the limit allows; which ones is up to the database. */
  method PickBatch(selected: set<RowId>, limit: nat) returns (batch: set<RowId>)
    requires limit > 0
    ensures IsBatch(batch, selected, limit)
  {
    batch := {};
    var rest := selected;
    while rest != {} && |batch| < limit
      invariant batch + rest == selected && batch !! rest && |batch| <= limit
      decreases rest
    {
      var id :| id in rest;
      rest, batch := rest - {id}, batch + {id};
    }
    assert |batch + rest| == |batch| + |rest|;
  }

  lemma {:induction false} FillMore(rows: Rows, done: set<RowId>, batch: set<RowId>, p: Pair)
    requires done <= Pending(rows, p) && batch <= Pending(FillRows(rows, done, p), p)
    ensures Pending(FillRows(rows, done, p), p) == Pending(rows, p) - done
    ensures done + batch <= Pending(rows, p)
    ensures FillRows(FillRows(rows, done, p), batch, p) == FillRows(rows, done + batch, p)
  {
    forall id ensures id in Pending(FillRows(rows, done, p), p) <==> id in Pending(rows, p) - done {}
  }

  lemma {:induction false} CleanMore(rows: Rows, done: set<RowId>, batch: set<RowId>, p: Pair)
    requires done <= Indexed(rows, p) && batch <= Indexed(CleanRows(rows, done, p), p)
    ensures Indexed(CleanRows(rows, done, p), p) == Indexed(rows, p) - done
    ensures done + batch <= Indexed(rows, p)
    ensures CleanRows(CleanRows(rows, done, p), batch, p) == CleanRows(rows, done + batch, p)
  {
    forall id ensures id in Indexed(CleanRows(rows, done, p), p) <==> id in Indexed(rows, p) - done {}
  }

  lemma {:induction false} SetGrows<T>(done: set<T>, batch: set<T>, all: set<T>)
    requires done <= all && batch <= all - done
    ensures |done + batch| == |done| + |batch| <= |all|
    ensures |all - done| == |all| - |done|
    ensures |batch| == |all - done| ==> done + batch == all
  {
    assert |done + batch| == |done| + |batch|;
    SubsetSize(done + batch, all);
    assert done + (all - done) == all;
    assert |done + (all - done)| == |done| + |all - done|;
    if |batch| == |all - done| {
      SubsetOfSameSize(batch, all - done);
    }
  }

  lemma {:induction false} SubsetSize<T>(a: set<T>, b: set<T>)
    requires a <= b
    ensures |a| <= |b|
  {
    assert b == a + (b - a);
    assert |b| == |a| + |b - a|;
  }

  /** How one UPDATE went: done, refused, or done without a readable row count. */
  datatype Exec = Executed | ExecFailed | CountLost

  datatype UpdateResult = Updated | KeyNotFound | UpdateError

  /** What a batched pass reports: the number of rows it changed, one short batch after full ones,
      when it ran through; the rows so far when a batch is refused; and, when a row count cannot be
      read, success after that batch, without counting it and whatever is left. */
  ghost predicate PassReport(all: set<RowId>, done: set<RowId>, total: nat, ok: bool, batches: nat, size: nat,
                             exec: nat -> Exec)
  {
    if !ok then
      && exec(batches).ExecFailed? && total == |done| == batches * size
      && forall i | 0 <= i < batches :: exec(i).Executed?
    else
      && batches > 0 && !exec(batches - 1).ExecFailed?
      && (forall i | 0 <= i < batches - 1 :: exec(i).Executed?)
      && (exec(batches - 1).Executed? ==> done == all && (batches - 1) * size <= total == |all| < batches * size)
      && (exec(batches - 1).CountLost? ==>
            && total == (batches - 1) * size
            && |done| == if |all| <= batches * size then |all| else batches * size)
  }

  class MetadataKeyRepository {
    const db: Database
    const activeKeyCache: ActiveKeysCache

    constructor (db: Database, activeKeyCache: ActiveKeysCache)
      requires activeKeyCache.db == db
      ensures this.db == db && this.activeKeyCache == activeKeyCache
    {
      this.db, this.activeKeyCache := db, activeKeyCache;
    }

    /** `ActivateMetadataKey`: row first, then the cache entry. When the row count cannot be read the
        row is updated and the cache is not invalidated. */
    method ActivateMetadataKey(p: Pair, exec: Exec) returns (result: UpdateResult)
      requires activeKeyCache.db == db
      modifies db`registry, activeKeyCache
      ensures result == if !exec.Executed? then UpdateError else if p in old(db.registry) then Updated else KeyNotFound
      ensures db.registry ==
              if exec.ExecFailed? || p !in old(db.registry) then old(db.registry) else old(db.registry)[p := true]
      ensures activeKeyCache.cache ==
              if result.Updated? then old(activeKeyCache.cache) - {p.apiKey} else old(activeKeyCache.cache)
      ensures activeKeyCache.Store() ==
              if result.Updated? then Invalidate(SetActive(old(activeKeyCache.Store()), p, true), p.apiKey)
              else if exec.CountLost? then SetActive(old(activeKeyCache.Store()), p, true)
              else old(activeKeyCache.Store())
    {
      if exec.ExecFailed? {
        return UpdateError;
      }
      var known := p in db.registry;
      if known {
        db.registry := db.registry[p := true];
      }
      if exec.CountLost? {
        return UpdateError;
      }
      if !known {
        return KeyNotFound;
      }
      activeKeyCache.InvalidateAPIKey(p.apiKey);
      result := Updated;
    }

    /** `DeactivateMetadataKey`. */
    method DeactivateMetadataKey(p: Pair, exec: Exec) returns (result: UpdateResult)
      requires activeKeyCache.db == db
      modifies db`registry, activeKeyCache
      ensures result == if !exec.Executed? then UpdateError else if p in old(db.registry) then Updated else KeyNotFound
      ensures db.registry ==
              if exec.ExecFailed? || p !in old(db.registry) then old(db.registry) else old(db.registry)[p := false]
      ensures activeKeyCache.cache ==
              if result.Updated? then old(activeKeyCache.cache) - {p.apiKey} else old(activeKeyCache.cache)
      ensures activeKeyCache.Store() ==
              if result.Updated? then Invalidate(SetActive(old(activeKeyCache.Store()), p, false), p.apiKey)
              else if exec.CountLost? then SetActive(old(activeKeyCache.Store()), p, false)
              else old(activeKeyCache.Store())
    {
      if exec.ExecFailed? {
        return UpdateError;
      }
      var known := p in db.registry;
      if known {
        db.registry := db.registry[p := false];
      }
      if exec.CountLost? {
        return UpdateError;
      }
      if !known {
        return KeyNotFound;
      }
      activeKeyCache.InvalidateAPIKey(p.apiKey);
      result := Updated;
    }

    /** `BackfillIndexedMetadata`, run alone: whichever rows each batch picks, and however each update
        goes, it fills exactly the rows it says. */
    method BackfillIndexedMetadata(p: Pair, batchSize: nat, exec: nat -> Exec)
      returns (total: nat, ok: bool, batches: nat, ghost done: set<RowId>)
      requires batchSize > 0
      modifies db`rows
      ensures done <= Pending(old(db.rows), p) && db.rows == FillRows(old(db.rows), done, p)
      ensures PassReport(Pending(old(db.rows), p), done, total, ok, batches, batchSize, exec)
    {
      hide IsBatch, Pending, FillRows;
      ghost var rows, all := db.rows, Pending(db.rows, p);
      total, ok, batches, done := 0, true, 0, {};
      FillNone(rows, p);
      while true
        invariant ok && done <= all && db.rows == FillRows(rows, done, p)
        invariant total == |done| == batches * batchSize
        invariant forall i | 0 <= i < batches :: exec(i).Executed?
        decreases |all| - total
      {
        if exec(batches).ExecFailed? {
          return total, false, batches, done;
        }
        var batch := PickBatch(Pending(db.rows, p), batchSize);
        BatchFacts(batch, Pending(db.rows, p), batchSize);
        FillMore(rows, done, batch, p);
        SetGrows(done, batch, all);
        db.rows := FillRows(db.rows, batch, p);
        var n := if exec(batches).Executed? then |batch| else 0;
        total := total + n;
        done, batches := done + batch, batches + 1;
        if n < batchSize {
          return;
        }
      }
    }

    /** `CleanupIndexedMetadata`, run alone. */
    method CleanupIndexedMetadata(p: Pair, batchSize: nat, exec: nat -> Exec)
      returns (total: nat, ok: bool, batches: nat, ghost done: set<RowId>)
      requires batchSize > 0
      modifies db`rows
      ensures done <= Indexed(old(db.rows), p) && db.rows == CleanRows(old(db.rows), done, p)
      ensures PassReport(Indexed(old(db.rows), p), done, total, ok, batches, batchSize, exec)
    {
      hide IsBatch, Indexed, CleanRows;
      ghost var rows, all := db.rows, Indexed(db.rows, p);
      total, ok, batches, done := 0, true, 0, {};
      CleanNone(rows, p);
      while true
        invariant ok && done <= all && db.rows == CleanRows(rows, done, p)
        invariant total == |done| == batches * batchSize
        invariant forall i | 0 <= i < batches :: exec(i).Executed?
        decreases |all| - total
      {
        if exec(batches).ExecFailed? {
          return total, false, batches, done;
        }
        var batch := PickBatch(Indexed(db.rows, p), batchSize);
        BatchFacts(batch, Indexed(db.rows, p), batchSize);
        CleanMore(rows, done, batch, p);
        SetGrows(done, batch, all);
        db.rows := CleanRows(db.rows, batch, p);
        var n := if exec(batches).Executed? then |batch| else 0;
        total := total + n;
        done, batches := done + batch, batches + 1;
        if n < batchSize {
          return;
        }
      }
    }
  }

  lemma {:induction false} BatchFacts(batch: set<RowId>, selected: set<RowId>, size: nat)
    requires IsBatch(batch, selected, size)
    ensures batch <= selected && |batch| <= size && (|batch| < size ==> |batch| == |selected|)
  {
  }

  lemma {:induction false} CleanNone(rows: Rows, p: Pair)
    ensures CleanRows(rows, {}, p) == rows
  {
  }

  /** After a full backfill the key is settled on every row of the API key; other keys, other API
      keys and all raw metadata are as before. A full cleanup removes the key everywhere. */
  lemma {:induction false} FullPassSettles(rows: Rows, p: Pair, id: RowId, other: string)
    requires id in rows && IndexInRaw(rows)
    ensures Complete(FillRows(rows, Pending(rows, p), p), p)
    ensures Indexed(CleanRows(rows, Indexed(rows, p), p), p) == {}
    ensures var filled, cleaned := FillRows(rows, Pending(rows, p), p), CleanRows(rows, Indexed(rows, p), p);
            && filled.Keys == cleaned.Keys == rows.Keys
            && filled[id].raw == cleaned[id].raw == rows[id].raw
            && (rows[id].apiKey != Some(p.apiKey) ==> filled[id] == cleaned[id] == rows[id])
            && (other != p.key ==>
                  && (filled[id].Indexes(other) <==> rows[id].Indexes(other))
                  && (cleaned[id].Indexes(other) <==> rows[id].Indexes(other))
                  && (rows[id].Indexes(other) ==>
                        filled[id].indexed.value[other] == cleaned[id].indexed.value[other]
                          == rows[id].indexed.value[other]))
  {
    assert SubMap(rows[id]);
    var filled := FillRows(rows, Pending(rows, p), p);
    forall i | i in filled && filled[i].apiKey == Some(p.apiKey)
      ensures filled[i].Indexes(p.key) <==> p.key in filled[i].raw
    {
      assert SubMap(rows[i]);
      assert i in Pending(rows, p) <==> p.key in rows[i].raw && !rows[i].Indexes(p.key);
    }
  }
}
