/** The metadata index protocol as a state machine: the log writer, the active-keys cache, key
    activation and deactivation, and the background backfill and cleanup, step by step. */
module MetadataIndex {
  import opened Common

  type ApiKey = string
  type RowId = string

  /** A metadata key of one API key. */
  datatype Pair = Pair(apiKey: ApiKey, key: string)

  /** A stored request: the metadata as sent, and the part of it that is indexed (may be NULL). */
  datatype Row = Row(apiKey: Option<ApiKey>, raw: map<string, string>, indexed: Option<map<string, string>>)
  {
    predicate Indexes(key: string)
    {
      indexed.Some? && key in indexed.value
    }
  }

  type Rows = map<RowId, Row>

  datatype CacheEntry = CacheEntry(keys: set<string>, expiresAt: int)

  /** What the database and the cache hold: requests, known keys with their active flag, and
      cached active keys. */
  datatype Store = Store(rows: Rows, registry: map<Pair, bool>, cache: map<ApiKey, CacheEntry>)

  /** A request log on its way to the database. */
  datatype Log = Log(id: RowId, apiKey: Option<ApiKey>, raw: map<string, string>)

  // ---- Single accesses ----

  predicate Active(st: Store, p: Pair)
  {
    p in st.registry && st.registry[p]
  }

  ghost function ActiveKeys(st: Store, ak: ApiKey): (keys: set<string>)
    ensures forall k :: k in keys <==> Active(st, Pair(ak, k))
  {
    set p | p in st.registry && st.registry[p] && p.apiKey == ak :: p.key
  }

  function SetActive(st: Store, p: Pair, active: bool): Store
  {
    if p in st.registry then st.(registry := st.registry[p := active]) else st
  }

  function Invalidate(st: Store, ak: ApiKey): Store
  {
    st.(cache := st.cache - {ak})
  }

  function CacheKeys(st: Store, ak: ApiKey, keys: set<string>, expiresAt: int): Store
  {
    st.(cache := st.cache[ak := CacheEntry(keys, expiresAt)])
  }

  /** The row `writeLog` inserts: only active keys are copied into the index. */
  function NewRow(log: Log, keys: set<string>): Row
  {
    Row(log.apiKey, log.raw, Some(map k | k in log.raw && k in keys :: log.raw[k]))
  }

  /** Inserts a log and makes sure every key it carries is registered. */
  function InsertLog(st: Store, log: Log, keys: set<string>): Store
  {
    Store(st.rows[log.id := NewRow(log, keys)],
          if log.apiKey.None? then st.registry
          else (map k | k in log.raw.Keys :: Pair(log.apiKey.value, k) := false) + st.registry,
          st.cache)
  }

  /** Rows the backfill query selects for a pair. */
  function Pending(rows: Rows, p: Pair): set<RowId>
  {
    set id | id in rows && rows[id].apiKey == Some(p.apiKey) && p.key in rows[id].raw && !rows[id].Indexes(p.key)
  }

  /** Rows the cleanup query selects for a pair. */
  function Indexed(rows: Rows, p: Pair): set<RowId>
  {
    set id | id in rows && rows[id].apiKey == Some(p.apiKey) && rows[id].Indexes(p.key)
  }

  function FillRow(row: Row, key: string): Row
    requires key in row.raw
  {
    row.(indexed := Some((if row.indexed.Some? then row.indexed.value else map[])[key := row.raw[key]]))
  }

  function CleanRow(row: Row, key: string): Row
    requires row.indexed.Some?
  {
    row.(indexed := Some(row.indexed.value - {key}))
  }

  function FillRows(rows: Rows, batch: set<RowId>, p: Pair): Rows
    requires batch <= Pending(rows, p)
  {
    map id | id in rows :: if id in batch then FillRow(rows[id], p.key) else rows[id]
  }

  function CleanRows(rows: Rows, batch: set<RowId>, p: Pair): Rows
    requires batch <= Indexed(rows, p)
  {
    map id | id in rows :: if id in batch then CleanRow(rows[id], p.key) else rows[id]
  }

  lemma {:induction false} FillNone(rows: Rows, p: Pair)
    ensures FillRows(rows, {}, p) == rows
  {
  }

  /** Inserting a log registers exactly the keys it carries and leaves every active flag alone. */
  lemma {:induction false} InsertRegistersKeys(st: Store, log: Log, keys: set<string>, p: Pair)
    ensures var after := InsertLog(st, log, keys);
            && (p in after.registry <==> p in st.registry || (log.apiKey == Some(p.apiKey) && p.key in log.raw))
            && (Active(after, p) <==> Active(st, p))
  {
    if log.apiKey == Some(p.apiKey) && p.key in log.raw {
      assert Pair(log.apiKey.value, p.key) == p;
    }
  }

  // ---- The machine ----

  /** Work in flight: an activation or deactivation whose row is updated but whose cache entry is
      not yet invalidated, and the background passes they start. */
  datatype Task = Activating(p: Pair) | Deactivating(p: Pair) | Filling(p: Pair) | Cleaning(p: Pair)

  /** The single writer: between logs, holding fetched keys not yet cached, or about to insert. */
  datatype Writer = Idle | Fetched(log: Log, keys: set<string>) | Ready(log: Log, keys: set<string>)

  datatype State = State(store: Store, now: int, ttl: int, tasks: multiset<Task>, writer: Writer)

  /** How the active-keys query went: read, refused (an empty set that is cached), or broken off
      while reading (nothing is cached). */
  datatype Query = QueryOk | QueryFailed | ReadFailed

  datatype Step =
    | LogWithoutKey(log: Log)
    | CacheHit(log: Log)
    | CacheMiss(log: Log, query: Query)
    | StoreFetched
    | Insert(ok: bool)
    | ActivateRow(p: Pair)
    | DeactivateRow(p: Pair)
    | ActivateCache(p: Pair)
    | DeactivateCache(p: Pair)
    | FillBatch(p: Pair, batch: set<RowId>, size: nat)
    | CleanBatch(p: Pair, batch: set<RowId>, size: nat)
    | TaskFails(task: Task)
    | Tick(elapsed: nat)

  predicate Cached(s: State, ak: ApiKey)
  {
    ak in s.store.cache && s.now < s.store.cache[ak].expiresAt
  }

  /** The rows one LIMIT-ed batch may touch: any of the selected rows, as many as fit. */
  predicate IsBatch(batch: set<RowId>, selected: set<RowId>, size: nat)
  {
    size > 0 && batch <= selected && |batch| == if |selected| <= size then |selected| else size
  }

  predicate Enabled(s: State, step: Step)
  {
    match step
    case LogWithoutKey(log) => s.writer.Idle? && log.apiKey.None?
    case CacheHit(log) => s.writer.Idle? && log.apiKey.Some? && Cached(s, log.apiKey.value)
    case CacheMiss(log, _) => s.writer.Idle? && log.apiKey.Some? && !Cached(s, log.apiKey.value)
    case StoreFetched => s.writer.Fetched? && s.writer.log.apiKey.Some?
    case Insert(ok) => s.writer.Ready? && (ok ==> s.writer.log.id !in s.store.rows)
    case ActivateRow(p) => p in s.store.registry
    case DeactivateRow(p) => p in s.store.registry
    case ActivateCache(p) => Activating(p) in s.tasks
    case DeactivateCache(p) => Deactivating(p) in s.tasks
    case FillBatch(p, batch, size) => Filling(p) in s.tasks && IsBatch(batch, Pending(s.store.rows, p), size)
    case CleanBatch(p, batch, size) => Cleaning(p) in s.tasks && IsBatch(batch, Indexed(s.store.rows, p), size)
    case TaskFails(task) => task in s.tasks && (task.Filling? || task.Cleaning?)
    case Tick(_) => true
  }

  ghost function Apply(s: State, step: Step): State
    requires Enabled(s, step)
  {
    var st := s.store;
    match step
    case LogWithoutKey(log) => s.(writer := Ready(log, {}))
    case CacheHit(log) => s.(writer := Ready(log, st.cache[log.apiKey.value].keys))
    case CacheMiss(log, query) =>
      s.(writer := if query.QueryOk? then Fetched(log, ActiveKeys(st, log.apiKey.value))
                   else if query.QueryFailed? then Fetched(log, {})
                   else Ready(log, {}))
    case StoreFetched =>
      s.(store := CacheKeys(st, s.writer.log.apiKey.value, s.writer.keys, s.now + s.ttl),
         writer := Ready(s.writer.log, s.writer.keys))
    case Insert(ok) => s.(store := if ok then InsertLog(st, s.writer.log, s.writer.keys) else st, writer := Idle)
    case ActivateRow(p) => s.(store := SetActive(st, p, true), tasks := s.tasks + multiset{Activating(p)})
    case DeactivateRow(p) => s.(store := SetActive(st, p, false), tasks := s.tasks + multiset{Deactivating(p)})
    case ActivateCache(p) =>
      s.(store := Invalidate(st, p.apiKey), tasks := s.tasks - multiset{Activating(p)} + multiset{Filling(p)})
    case DeactivateCache(p) =>
      s.(store := Invalidate(st, p.apiKey), tasks := s.tasks - multiset{Deactivating(p)} + multiset{Cleaning(p)})
    case FillBatch(p, batch, size) =>
      s.(store := st.(rows := FillRows(st.rows, batch, p)),
         tasks := if |batch| < size then s.tasks - multiset{Filling(p)} else s.tasks)
    case CleanBatch(p, batch, size) =>
      s.(store := st.(rows := CleanRows(st.rows, batch, p)),
         tasks := if |batch| < size then s.tasks - multiset{Cleaning(p)} else s.tasks)
    case TaskFails(task) => s.(tasks := s.tasks - multiset{task})
    case Tick(elapsed) => s.(now := s.now + elapsed)
  }

  /** t can follow from s by the given steps, in order. */
  ghost predicate Leads(s: State, steps: seq<Step>, t: State)
    decreases |steps|
  {
    if steps == [] then t == s
    else Enabled(s, steps[0]) && Leads(Apply(s, steps[0]), steps[1..], t)
  }

  /** The steps one `writeLog` takes. */
  function WriteSteps(log: Log, hit: bool, query: Query, ok: bool): seq<Step>
  {
    if log.apiKey.None? then [LogWithoutKey(log), Insert(ok)]
    else if hit then [CacheHit(log), Insert(ok)]
    else if query.ReadFailed? then [CacheMiss(log, query), Insert(ok)]
    else [CacheMiss(log, query), StoreFetched, Insert(ok)]
  }

  lemma {:induction false} TwoSteps(s: State, a: Step, b: Step, t: State)
    requires Enabled(s, a) && Enabled(Apply(s, a), b) && t == Apply(Apply(s, a), b)
    ensures Leads(s, [a, b], t)
  {
    hide Enabled, Apply;
    assert [a, b][1..] == [b];
    assert Leads(t, [], t);
    assert Leads(Apply(s, a), [b], t);
  }

  lemma {:induction false} ThreeSteps(s: State, a: Step, b: Step, c: Step, t: State)
    requires Enabled(s, a) && Leads(Apply(s, a), [b, c], t)
    ensures Leads(s, [a, b, c], t)
  {
    hide Enabled, Apply;
    assert [a, b, c][1..] == [b, c];
  }

  lemma {:induction false} LeadsOn(s: State, first: seq<Step>, m: State, second: seq<Step>, t: State)
    requires Leads(s, first, m) && Leads(m, second, t)
    ensures Leads(s, first + second, t)
    decreases |first|
  {
    hide Enabled, Apply;
    if first == [] {
      assert first + second == second;
    } else {
      LeadsOn(Apply(s, first[0]), first[1..], m, second, t);
      assert (first + second)[1..] == first[1..] + second;
    }
  }

  // ---- What single steps change ----

  /** Activating or deactivating a known key sets its flag and leaves every other flag alone; no other
      step changes a flag. */
  lemma {:induction false} StepSetsFlags(s: State, step: Step, p: Pair)
    requires Enabled(s, step)
    ensures var t := Apply(s, step);
            Active(t.store, p) <==> if step == ActivateRow(p) then true
                                    else if step == DeactivateRow(p) then false
                                    else Active(s.store, p)
  {
    hide Cached, IsBatch, Pending, Indexed, ActiveKeys;
    if step.Insert? && step.ok { InsertRegistersKeys(s.store, s.writer.log, s.writer.keys, p); }
  }

  /** Invalidating an API key makes its next lookup ask the query, and touches no other entry. */
  lemma {:induction false} InvalidationIsLocal(s: State, step: Step, ak: ApiKey, other: ApiKey)
    requires Enabled(s, step) && (step.ActivateCache? || step.DeactivateCache?) && step.p.apiKey == ak && other != ak
    ensures var t := Apply(s, step);
            && !Cached(t, ak) && (other in t.store.cache <==> other in s.store.cache)
            && (other in t.store.cache ==> t.store.cache[other] == s.store.cache[other])
            && t.store.rows == s.store.rows && t.store.registry == s.store.registry
  {
  }

  /** Fetched keys are served for exactly one lifetime, and storing them touches no other entry. */
  lemma {:induction false} FetchedKeysLive(s: State, elapsed: nat, other: ApiKey)
    requires Enabled(s, StoreFetched) && other != s.writer.log.apiKey.value
    ensures var ak := s.writer.log.apiKey.value;
            var t := Apply(Apply(s, StoreFetched), Tick(elapsed));
            && (Cached(t, ak) <==> elapsed < s.ttl) && t.store.cache[ak].keys == s.writer.keys
            && (other in t.store.cache <==> other in s.store.cache)
            && (other in t.store.cache ==> t.store.cache[other] == s.store.cache[other])
            && t.store.rows == s.store.rows && t.store.registry == s.store.registry
  {
  }

  // ---- The index never invents anything ----

  predicate SubMap(row: Row)
  {
    row.indexed.Some? ==> forall k | k in row.indexed.value :: k in row.raw && row.indexed.value[k] == row.raw[k]
  }

  predicate IndexInRaw(rows: Rows)
  {
    forall id | id in rows :: SubMap(rows[id])
  }

  lemma {:induction false} StepKeepsIndexInRaw(s: State, step: Step)
    requires Enabled(s, step) && IndexInRaw(s.store.rows)
    ensures IndexInRaw(Apply(s, step).store.rows)
  {
    hide Cached, ActiveKeys, Active;
    var after := Apply(s, step).store.rows;
    forall id | id in after ensures SubMap(after[id]) {
      if id in s.store.rows { assert SubMap(s.store.rows[id]); }
    }
  }

  /** Under every interleaving, with any failures, every row's index is part of its raw metadata. */
  lemma {:induction false} IndexStaysInRaw(s: State, steps: seq<Step>, t: State)
    requires IndexInRaw(s.store.rows) && Leads(s, steps, t)
    ensures IndexInRaw(t.store.rows)
    decreases steps
  {
    hide IndexInRaw, Enabled, Apply;
    if steps != [] {
      StepKeepsIndexInRaw(s, steps[0]);
      IndexStaysInRaw(Apply(s, steps[0]), steps[1..], t);
    }
  }

  // ---- Activation: the index catches up and keeps up ----

  /** Everything that could index a new row of this API key would index the key. */
  ghost predicate Seen(s: State, p: Pair)
  {
    && Active(s.store, p)
    && (p.apiKey in s.store.cache ==> p.key in s.store.cache[p.apiKey].keys)
    && !StaleWriter(s, p)
  }

  /** The writer holds keys for this API key, read before the key was active. */
  predicate StaleWriter(s: State, p: Pair)
  {
    !s.writer.Idle? && s.writer.log.apiKey == Some(p.apiKey) && p.key !in s.writer.keys
  }

  /** On every row of the API key, the key is indexed exactly when it was sent. */
  ghost predicate Complete(rows: Rows, p: Pair)
  {
    forall id | id in rows && rows[id].apiKey == Some(p.apiKey) ::
      rows[id].Indexes(p.key) <==> p.key in rows[id].raw
  }

  /** Steps after which Seen may be lost: the key is deactivated again, or a query for its API key fails. */
  predicate Unseeing(step: Step, p: Pair)
  {
    || step == DeactivateRow(p)
    || (step.CacheMiss? && step.log.apiKey == Some(p.apiKey) && !step.query.QueryOk?)
  }

  lemma {:induction false} InvalidationMakesSeen(s: State, p: Pair)
    requires Enabled(s, ActivateCache(p)) && Active(s.store, p) && !StaleWriter(s, p)
    ensures Seen(Apply(s, ActivateCache(p)), p)
  {
  }

  lemma {:induction false} StepKeepsSeen(s: State, step: Step, p: Pair)
    requires Enabled(s, step) && Seen(s, p) && !Unseeing(step, p)
    ensures Seen(Apply(s, step), p)
  {
    hide NewRow, IsBatch, FillRows, CleanRows, Pending, Indexed;
  }

  lemma {:induction false} RunKeepsSeen(s: State, steps: seq<Step>, t: State, p: Pair)
    requires Seen(s, p) && Leads(s, steps, t)
    requires forall i | 0 <= i < |steps| :: !Unseeing(steps[i], p)
    ensures Seen(t, p)
    decreases steps
  {
    hide Seen, Enabled, Apply, Unseeing;
    if steps != [] {
      StepKeepsSeen(s, steps[0], p);
      RunKeepsSeen(Apply(s, steps[0]), steps[1..], t, p);
    }
  }

  /** The batch that comes back short leaves no row pending. */
  lemma {:induction false} LastFillCompletes(s: State, p: Pair, batch: set<RowId>, size: nat)
    requires Enabled(s, FillBatch(p, batch, size)) && |batch| < size && IndexInRaw(s.store.rows)
    ensures Complete(Apply(s, FillBatch(p, batch, size)).store.rows, p)
  {
    var pending := Pending(s.store.rows, p);
    SubsetOfSameSize(batch, pending);
    forall id | id in s.store.rows && s.store.rows[id].apiKey == Some(p.apiKey)
      ensures id in pending <==> p.key in s.store.rows[id].raw && !s.store.rows[id].Indexes(p.key)
    {
    }
  }

  lemma {:induction false} SubsetOfSameSize<T>(a: set<T>, b: set<T>)
    requires a <= b && |a| == |b|
    ensures a == b
  {
    assert b == a + (b - a);
    assert |b| == |a| + |b - a|;
  }

  /** A pending insert keeps the index complete exactly when the writer's keys include the key or
      the log does not carry it. */
  lemma {:induction false} InsertKeepsCompleteIff(s: State, p: Pair)
    requires Enabled(s, Insert(true)) && Complete(s.store.rows, p)
    requires s.writer.log.apiKey == Some(p.apiKey)
    ensures Complete(Apply(s, Insert(true)).store.rows, p) <==> p.key !in s.writer.log.raw || p.key in s.writer.keys
  {
    var log := s.writer.log;
    var rows := Apply(s, Insert(true)).store.rows;
    assert rows[log.id] == NewRow(log, s.writer.keys);
    assert rows[log.id].Indexes(p.key) <==> p.key in log.raw && p.key in s.writer.keys;
  }

  lemma {:induction false} NothingIndexed(rows: Rows, p: Pair)
    ensures Indexed(rows, p) == {}
            <==> forall id | id in rows && rows[id].apiKey == Some(p.apiKey) :: !rows[id].Indexes(p.key)
  {
    if Indexed(rows, p) == {} {
      forall id | id in rows && rows[id].apiKey == Some(p.apiKey) ensures !rows[id].Indexes(p.key) {
        assert id !in Indexed(rows, p);
      }
    }
  }

  /** A cleanup batch, of whatever rows and size, leaves the index complete exactly when no row of
      the API key carries the key at all. */
  lemma {:induction false} CleanupKeepsCompleteIff(s: State, p: Pair, batch: set<RowId>, size: nat)
    requires Enabled(s, CleanBatch(p, batch, size)) && Complete(s.store.rows, p)
    ensures Complete(Apply(s, CleanBatch(p, batch, size)).store.rows, p)
            <==> forall id | id in s.store.rows && s.store.rows[id].apiKey == Some(p.apiKey) ::
                   p.key !in s.store.rows[id].raw
  {
    var after := Apply(s, CleanBatch(p, batch, size)).store.rows;
    if id :| id in batch {
      assert id in Indexed(s.store.rows, p);
      assert !after[id].Indexes(p.key) && p.key in after[id].raw;
    } else {
      assert |batch| == 0;
      NothingIndexed(s.store.rows, p);
    }
  }

  lemma {:induction false} StepKeepsComplete(s: State, step: Step, p: Pair)
    requires Enabled(s, step) && Seen(s, p) && Complete(s.store.rows, p) && IndexInRaw(s.store.rows)
    requires !(step.CleanBatch? && step.p == p)
    ensures Complete(Apply(s, step).store.rows, p)
  {
    if step.Insert? && step.ok && s.writer.log.apiKey == Some(p.apiKey) {
      InsertKeepsCompleteIff(s, p);
    }
    hide IsBatch;
  }

  lemma {:induction false} RunKeepsComplete(s: State, steps: seq<Step>, t: State, p: Pair)
    requires Seen(s, p) && Complete(s.store.rows, p) && IndexInRaw(s.store.rows) && Leads(s, steps, t)
    requires forall i | 0 <= i < |steps| :: !Unseeing(steps[i], p) && !(steps[i].CleanBatch? && steps[i].p == p)
    ensures Complete(t.store.rows, p) && IndexInRaw(t.store.rows)
    decreases steps
  {
    hide Seen, Enabled, Apply, Unseeing, Complete, IndexInRaw;
    if steps != [] {
      StepKeepsSeen(s, steps[0], p);
      StepKeepsComplete(s, steps[0], p);
      StepKeepsIndexInRaw(s, steps[0]);
      RunKeepsComplete(Apply(s, steps[0]), steps[1..], t, p);
    }
  }

  /** Filtering the API key's rows on the indexed value gives the same rows as on the raw value. */
  ghost predicate FiltersAgree(rows: Rows, p: Pair)
  {
    forall v :: ByIndex(rows, p, v) == ByRaw(rows, p, v)
  }

  function ByIndex(rows: Rows, p: Pair, v: string): set<RowId>
  {
    set id | id in rows && rows[id].apiKey == Some(p.apiKey) && rows[id].Indexes(p.key)
             && rows[id].indexed.value[p.key] == v
  }

  function ByRaw(rows: Rows, p: Pair, v: string): set<RowId>
  {
    set id | id in rows && rows[id].apiKey == Some(p.apiKey) && p.key in rows[id].raw && rows[id].raw[p.key] == v
  }

  lemma {:induction false} CompleteMeansFiltersAgree(rows: Rows, p: Pair)
    requires Complete(rows, p) && IndexInRaw(rows)
    ensures FiltersAgree(rows, p)
  {
    forall id | id in rows && rows[id].Indexes(p.key) ensures rows[id].indexed.value[p.key] == rows[id].raw[p.key] {
      assert SubMap(rows[id]);
    }
  }

  /** Once an activation has invalidated the cache (with no stale writer) and its backfill has run
      its last batch, filtering by index and by raw metadata agree, through every later
      interleaving in which the key stays active, queries succeed and no cleanup of the pair runs.
      Rows written during the activation are included. */
  lemma {:induction false} ActivationSettles(s0: State, p: Pair, during: seq<Step>, s1: State,
                                             batch: set<RowId>, size: nat, later: seq<Step>, t: State)
    requires IndexInRaw(s0.store.rows)
    requires Enabled(s0, ActivateCache(p)) && Active(s0.store, p) && !StaleWriter(s0, p)
    requires Leads(Apply(s0, ActivateCache(p)), during, s1)
    requires Enabled(s1, FillBatch(p, batch, size)) && |batch| < size
    requires Leads(Apply(s1, FillBatch(p, batch, size)), later, t)
    requires forall i | 0 <= i < |during| :: !Unseeing(during[i], p)
    requires forall i | 0 <= i < |later| :: !Unseeing(later[i], p) && !(later[i].CleanBatch? && later[i].p == p)
    ensures FiltersAgree(t.store.rows, p)
  {
    hide Seen, Enabled, Apply, Unseeing, Complete, IndexInRaw, Leads, FiltersAgree;
    var a, b := Apply(s0, ActivateCache(p)), Apply(s1, FillBatch(p, batch, size));
    InvalidationMakesSeen(s0, p);
    StepKeepsIndexInRaw(s0, ActivateCache(p));
    RunKeepsSeen(a, during, s1, p);
    IndexStaysInRaw(a, during, s1);
    FillIsSeeing(p, batch, size);
    StepKeepsSeen(s1, FillBatch(p, batch, size), p);
    StepKeepsIndexInRaw(s1, FillBatch(p, batch, size));
    LastFillCompletes(s1, p, batch, size);
    RunKeepsComplete(b, later, t, p);
    CompleteMeansFiltersAgree(t.store.rows, p);
  }

  lemma {:induction false} FillIsSeeing(p: Pair, batch: set<RowId>, size: nat)
    ensures !Unseeing(FillBatch(p, batch, size), p)
  {
  }

  /** Every row of the API key that is not among the given ones indexes the key if it carries it. */
  ghost predicate CompleteBeyond(rows: Rows, known: set<RowId>, p: Pair)
  {
    forall id | id in rows && id !in known && rows[id].apiKey == Some(p.apiKey) ::
      rows[id].Indexes(p.key) <==> p.key in rows[id].raw
  }

  lemma {:induction false} StepKeepsCompleteBeyond(s: State, step: Step, known: set<RowId>, p: Pair)
    requires Enabled(s, step) && Seen(s, p) && CompleteBeyond(s.store.rows, known, p)
    requires !(step.CleanBatch? && step.p == p)
    ensures CompleteBeyond(Apply(s, step).store.rows, known, p)
  {
    hide Cached, ActiveKeys, Active;
    var before, after := s.store.rows, Apply(s, step).store.rows;
    forall id | id in after && id !in known && after[id].apiKey == Some(p.apiKey)
      ensures after[id].Indexes(p.key) <==> p.key in after[id].raw
    {
      if step.FillBatch? && id in step.batch { assert step.p.apiKey == p.apiKey; }
    }
  }

  lemma {:induction false} RunIndexesNewRows(s: State, steps: seq<Step>, t: State, known: set<RowId>, p: Pair)
    requires Seen(s, p) && CompleteBeyond(s.store.rows, known, p) && Leads(s, steps, t)
    requires forall i | 0 <= i < |steps| :: !Unseeing(steps[i], p) && !(steps[i].CleanBatch? && steps[i].p == p)
    ensures CompleteBeyond(t.store.rows, known, p) && Seen(t, p)
    decreases |steps|
  {
    hide Seen, Enabled, Apply, Unseeing, CompleteBeyond;
    if steps != [] {
      StepKeepsSeen(s, steps[0], p);
      StepKeepsCompleteBeyond(s, steps[0], known, p);
      RunIndexesNewRows(Apply(s, steps[0]), steps[1..], t, known, p);
    }
  }

  /** From an activation's invalidation on (with no stale writer), and without waiting for any
      backfill, every log stored is indexed by the key if it carries it, and whatever keys the writer
      holds for the API key include it, through every interleaving in which the key stays active,
      the API key's queries succeed and no cleanup of the pair runs. */
  lemma {:induction false} LogsAfterInvalidationAreIndexed(s: State, p: Pair, steps: seq<Step>, t: State)
    requires Enabled(s, ActivateCache(p)) && Active(s.store, p) && !StaleWriter(s, p)
    requires Leads(Apply(s, ActivateCache(p)), steps, t)
    requires forall i | 0 <= i < |steps| :: !Unseeing(steps[i], p) && !(steps[i].CleanBatch? && steps[i].p == p)
    ensures CompleteBeyond(t.store.rows, s.store.rows.Keys, p)
    ensures !t.writer.Idle? && t.writer.log.apiKey == Some(p.apiKey) ==> p.key in t.writer.keys
  {
    hide Leads, Unseeing;
    InvalidationMakesSeen(s, p);
    RunIndexesNewRows(Apply(s, ActivateCache(p)), steps, t, s.store.rows.Keys, p);
  }

  // ---- Finishing an activation ----

  lemma {:induction false} SubsetOfSize<T>(all: set<T>, n: nat) returns (part: set<T>)
    requires n <= |all|
    ensures part <= all && |part| == n
  {
    if n == 0 {
      part := {};
    } else {
      var x :| x in all;
      part := SubsetOfSize(all - {x}, n - 1);
      part := part + {x};
    }
  }

  lemma {:induction false} PendingAfter(rows: Rows, batch: set<RowId>, p: Pair)
    requires batch <= Pending(rows, p)
    ensures Pending(FillRows(rows, batch, p), p) == Pending(rows, p) - batch
  {
  }

  lemma {:induction false} FullBatch(s: State, p: Pair, size: nat) returns (step: Step, t: State)
    requires Filling(p) in s.tasks && 0 < size <= |Pending(s.store.rows, p)|
    ensures step.FillBatch? && step.p == p && step.size == size && Enabled(s, step) && t == Apply(s, step)
    ensures t.store.registry == s.store.registry
    ensures Filling(p) in t.tasks && |Pending(t.store.rows, p)| == |Pending(s.store.rows, p)| - size
  {
    var pending := Pending(s.store.rows, p);
    var batch := SubsetOfSize(pending, size);
    step := FillBatch(p, batch, size);
    t := Apply(s, step);
    PendingAfter(s.store.rows, batch, p);
    assert pending == batch + (pending - batch);
    assert |pending| == |batch| + |pending - batch|;
  }

  /** A backfill left to itself ends complete, after as many batches as the pending rows fill and one
      short batch more. */
  lemma {:induction false} BackfillCanFinish(s: State, p: Pair, size: nat) returns (steps: seq<Step>, t: State)
    requires Filling(p) in s.tasks && size > 0 && IndexInRaw(s.store.rows)
    ensures Leads(s, steps, t) && Complete(t.store.rows, p) && IndexInRaw(t.store.rows)
    ensures t.store.registry == s.store.registry
    ensures forall i | 0 <= i < |steps| :: steps[i].FillBatch? && steps[i].p == p && steps[i].size == size
    ensures (|steps| - 1) * size <= |Pending(s.store.rows, p)| < |steps| * size
    decreases |Pending(s.store.rows, p)|
  {
    hide Enabled, Apply, IndexInRaw, Complete, Pending;
    var pending := Pending(s.store.rows, p);
    if |pending| < size {
      var step := ShortBatch(s, p, size);
      LastFillCompletes(s, p, pending, size);
      StepKeepsIndexInRaw(s, step);
      steps, t := [step], Apply(s, step);
      assert Leads(t, [], t);
      BatchKeepsFlags(s, step);
    } else {
      var step, m := FullBatch(s, p, size);
      StepKeepsIndexInRaw(s, step);
      var more;
      more, t := BackfillCanFinish(m, p, size);
      steps := [step] + more;
      assert steps[1..] == more;
      OneBatchMore(|more|, |pending|, size);
    }
  }

  lemma {:induction false} BatchKeepsFlags(s: State, step: Step)
    requires Enabled(s, step) && (step.FillBatch? || step.CleanBatch?)
    ensures Apply(s, step).store.registry == s.store.registry && Apply(s, step).store.cache == s.store.cache
    ensures Apply(s, step).writer == s.writer
  {
  }

  lemma {:induction false} OneBatchMore(batches: int, n: int, size: int)
    requires (batches - 1) * size <= n - size < batches * size
    ensures batches * size <= n < (batches + 1) * size
  {
  }

  lemma {:induction false} ShortBatch(s: State, p: Pair, size: nat) returns (step: Step)
    requires Filling(p) in s.tasks && |Pending(s.store.rows, p)| < size
    ensures step == FillBatch(p, Pending(s.store.rows, p), size) && Enabled(s, step)
  {
    step := FillBatch(p, Pending(s.store.rows, p), size);
  }

  /** From any idle moment a known key can be activated and, for every positive batch size, its
      backfill finished in floor(pending / size) + 1 batches, and then the two filters agree. */
  lemma {:induction false} ActivationCanFinish(s: State, p: Pair, size: nat) returns (fills: seq<Step>, t: State)
    requires IndexInRaw(s.store.rows) && s.writer.Idle? && p in s.store.registry && size > 0
    ensures Leads(s, [ActivateRow(p), ActivateCache(p)] + fills, t) && FiltersAgree(t.store.rows, p)
    ensures Active(t.store, p)
    ensures forall i | 0 <= i < |fills| :: fills[i].FillBatch? && fills[i].p == p && fills[i].size == size
    ensures (|fills| - 1) * size <= |Pending(s.store.rows, p)| < |fills| * size
  {
    var a := Apply(s, ActivateRow(p));
    var b := Apply(a, ActivateCache(p));
    assert b.store.rows == s.store.rows && Filling(p) in b.tasks && Active(b.store, p);
    TwoSteps(s, ActivateRow(p), ActivateCache(p), b);
    hide Enabled, Apply, IndexInRaw, Complete, FiltersAgree, Pending;
    fills, t := BackfillCanFinish(b, p, size);
    LeadsOn(s, [ActivateRow(p), ActivateCache(p)], b, fills, t);
    CompleteMeansFiltersAgree(t.store.rows, p);
  }

  // ---- Deactivation: the index is emptied and stays empty ----

  /** Nothing that could index a new row of this API key would index the key. */
  ghost predicate Unseen(s: State, p: Pair)
  {
    && !Active(s.store, p)
    && (p.apiKey in s.store.cache ==> p.key !in s.store.cache[p.apiKey].keys)
    && !LingeringWriter(s, p)
  }

  predicate LingeringWriter(s: State, p: Pair)
  {
    !s.writer.Idle? && s.writer.log.apiKey == Some(p.apiKey) && p.key in s.writer.keys
  }

  lemma {:induction false} DeactivationMakesUnseen(s: State, p: Pair)
    requires Enabled(s, DeactivateCache(p)) && !Active(s.store, p) && !LingeringWriter(s, p)
    ensures Unseen(Apply(s, DeactivateCache(p)), p)
  {
  }

  lemma {:induction false} StepKeepsUnseen(s: State, step: Step, p: Pair)
    requires Enabled(s, step) && Unseen(s, p) && step != ActivateRow(p)
    ensures Unseen(Apply(s, step), p)
  {
    hide IsBatch, FillRows, CleanRows, Pending, Indexed;
  }

  lemma {:induction false} LastCleanEmpties(s: State, p: Pair, batch: set<RowId>, size: nat)
    requires Enabled(s, CleanBatch(p, batch, size)) && |batch| < size
    ensures Indexed(Apply(s, CleanBatch(p, batch, size)).store.rows, p) == {}
  {
    SubsetOfSameSize(batch, Indexed(s.store.rows, p));
  }

  lemma {:induction false} StepKeepsEmpty(s: State, step: Step, p: Pair)
    requires Enabled(s, step) && Unseen(s, p) && Indexed(s.store.rows, p) == {}
    requires !(step.FillBatch? && step.p == p)
    ensures Indexed(Apply(s, step).store.rows, p) == {}
  {
    var before, after := s.store.rows, Apply(s, step).store.rows;
    NothingIndexed(before, p);
    NothingIndexed(after, p);
    forall id | id in after && after[id].apiKey == Some(p.apiKey) ensures !after[id].Indexes(p.key) {
      if step.FillBatch? && id in step.batch { assert step.p.apiKey == p.apiKey && step.p.key != p.key; }
    }
  }

  lemma {:induction false} RunKeepsEmpty(s: State, steps: seq<Step>, t: State, p: Pair, cleaned: bool)
    requires Unseen(s, p) && Leads(s, steps, t)
    requires cleaned ==> Indexed(s.store.rows, p) == {}
    requires forall i | 0 <= i < |steps| :: steps[i] != ActivateRow(p)
    requires cleaned ==> forall i | 0 <= i < |steps| :: !(steps[i].FillBatch? && steps[i].p == p)
    ensures Unseen(t, p)
    ensures cleaned ==> Indexed(t.store.rows, p) == {}
    decreases steps
  {
    hide Unseen, Enabled, Apply, Indexed;
    if steps != [] {
      StepKeepsUnseen(s, steps[0], p);
      if cleaned { StepKeepsEmpty(s, steps[0], p); }
      RunKeepsEmpty(Apply(s, steps[0]), steps[1..], t, p, cleaned);
    }
  }

  /** The mirror of activation, which failing queries cannot disturb: once a deactivation has
      invalidated the cache (with no lingering writer) and its cleanup has run its last batch, no
      row of the API key indexes the key, while it stays inactive and no backfill of it runs. */
  lemma {:induction false} DeactivationSettles(s0: State, p: Pair, during: seq<Step>, s1: State,
                                               batch: set<RowId>, size: nat, later: seq<Step>, t: State)
    requires Enabled(s0, DeactivateCache(p)) && !Active(s0.store, p) && !LingeringWriter(s0, p)
    requires Leads(Apply(s0, DeactivateCache(p)), during, s1)
    requires Enabled(s1, CleanBatch(p, batch, size)) && |batch| < size
    requires Leads(Apply(s1, CleanBatch(p, batch, size)), later, t)
    requires forall i | 0 <= i < |during| :: during[i] != ActivateRow(p)
    requires forall i | 0 <= i < |later| :: later[i] != ActivateRow(p) && !(later[i].FillBatch? && later[i].p == p)
    ensures Indexed(t.store.rows, p) == {}
  {
    var a, b := Apply(s0, DeactivateCache(p)), Apply(s1, CleanBatch(p, batch, size));
    hide Unseen, Enabled, Apply, Indexed, Leads;
    DeactivationMakesUnseen(s0, p);
    RunKeepsEmpty(a, during, s1, p, false);
    StepKeepsUnseen(s1, CleanBatch(p, batch, size), p);
    LastCleanEmpties(s1, p, batch, size);
    RunKeepsEmpty(b, later, t, p, true);
  }

  // ---- Finishing a deactivation ----

  lemma {:induction false} IndexedAfter(rows: Rows, batch: set<RowId>, p: Pair)
    requires batch <= Indexed(rows, p)
    ensures Indexed(CleanRows(rows, batch, p), p) == Indexed(rows, p) - batch
  {
  }

  lemma {:induction false} FullClean(s: State, p: Pair, size: nat) returns (step: Step, t: State)
    requires Cleaning(p) in s.tasks && 0 < size <= |Indexed(s.store.rows, p)|
    ensures step.CleanBatch? && step.p == p && step.size == size && Enabled(s, step) && t == Apply(s, step)
    ensures Cleaning(p) in t.tasks && |Indexed(t.store.rows, p)| == |Indexed(s.store.rows, p)| - size
  {
    var indexed := Indexed(s.store.rows, p);
    var batch := SubsetOfSize(indexed, size);
    step := CleanBatch(p, batch, size);
    t := Apply(s, step);
    IndexedAfter(s.store.rows, batch, p);
    assert indexed == batch + (indexed - batch);
    assert |indexed| == |batch| + |indexed - batch|;
  }

  lemma {:induction false} LastCleanBatch(s: State, p: Pair, size: nat) returns (step: Step)
    requires Cleaning(p) in s.tasks && |Indexed(s.store.rows, p)| < size
    ensures step == CleanBatch(p, Indexed(s.store.rows, p), size) && Enabled(s, step)
  {
    step := CleanBatch(p, Indexed(s.store.rows, p), size);
  }

  /** A cleanup left to itself ends with nothing indexed, after as many batches as the indexing rows
      fill and one short batch more. */
  lemma {:induction false} CleanupCanFinish(s: State, p: Pair, size: nat) returns (steps: seq<Step>, t: State)
    requires Cleaning(p) in s.tasks && size > 0
    ensures Leads(s, steps, t) && Indexed(t.store.rows, p) == {}
    ensures t.store.registry == s.store.registry && t.store.cache == s.store.cache && t.writer == s.writer
    ensures forall i | 0 <= i < |steps| :: steps[i].CleanBatch? && steps[i].p == p && steps[i].size == size
    ensures (|steps| - 1) * size <= |Indexed(s.store.rows, p)| < |steps| * size
    decreases |Indexed(s.store.rows, p)|
  {
    hide Enabled, Apply, Indexed;
    var indexed := Indexed(s.store.rows, p);
    if |indexed| < size {
      var step := LastCleanBatch(s, p, size);
      LastCleanEmpties(s, p, indexed, size);
      BatchKeepsFlags(s, step);
      steps, t := [step], Apply(s, step);
      assert Leads(t, [], t);
    } else {
      var step, m := FullClean(s, p, size);
      BatchKeepsFlags(s, step);
      var more;
      more, t := CleanupCanFinish(m, p, size);
      steps := [step] + more;
      assert steps[1..] == more;
      OneBatchMore(|more|, |indexed|, size);
    }
  }

  /** From any idle moment a known key can be deactivated and, for every positive batch size, its
      cleanup finished in floor(indexed / size) + 1 batches: then it is inactive, no row indexes it,
      and no lookup and no writer would index it again. */
  lemma {:induction false} DeactivationCanFinish(s: State, p: Pair, size: nat) returns (cleans: seq<Step>, t: State)
    requires s.writer.Idle? && p in s.store.registry && size > 0
    ensures Leads(s, [DeactivateRow(p), DeactivateCache(p)] + cleans, t)
    ensures !Active(t.store, p) && Unseen(t, p) && Indexed(t.store.rows, p) == {}
    ensures forall i | 0 <= i < |cleans| :: cleans[i].CleanBatch? && cleans[i].p == p && cleans[i].size == size
    ensures (|cleans| - 1) * size <= |Indexed(s.store.rows, p)| < |cleans| * size
  {
    var a := Apply(s, DeactivateRow(p));
    var b := Apply(a, DeactivateCache(p));
    assert b.store.rows == s.store.rows && Cleaning(p) in b.tasks && Unseen(b, p);
    TwoSteps(s, DeactivateRow(p), DeactivateCache(p), b);
    hide Enabled, Apply, Indexed;
    cleans, t := CleanupCanFinish(b, p, size);
    LeadsOn(s, [DeactivateRow(p), DeactivateCache(p)], b, cleans, t);
  }

  /** Once a deactivation has run to its invalidation with no writer holding the key, no later log is
      indexed by it, whatever queries fail, until it is activated again. */
  lemma {:induction false} LogsAfterDeactivationAreUnindexed(s: State, p: Pair, steps: seq<Step>, t: State)
    requires Leads(s, [DeactivateRow(p), DeactivateCache(p)] + steps, t) && !LingeringWriter(s, p)
    requires forall i | 0 <= i < |steps| :: steps[i] != ActivateRow(p) && !(steps[i].FillBatch? && steps[i].p == p)
    ensures !Active(t.store, p)
    ensures forall id | id in t.store.rows && id !in s.store.rows && t.store.rows[id].apiKey == Some(p.apiKey) ::
              !t.store.rows[id].Indexes(p.key)
  {
    var all := [DeactivateRow(p), DeactivateCache(p)] + steps;
    assert all[0] == DeactivateRow(p) && all[1..] == [DeactivateCache(p)] + steps && all[1..][1..] == steps;
    var a := Apply(s, DeactivateRow(p));
    var b := Apply(a, DeactivateCache(p));
    assert Leads(a, all[1..], t) && Leads(b, steps, t);
    assert b.store.rows == s.store.rows && Unseen(b, p);
    hide Enabled, Apply, Leads;
    RunIndexesNoNewRows(b, steps, t, s.store.rows.Keys, p);
  }

  ghost predicate NoneBeyond(rows: Rows, known: set<RowId>, p: Pair)
  {
    forall id | id in rows && id !in known && rows[id].apiKey == Some(p.apiKey) :: !rows[id].Indexes(p.key)
  }

  lemma {:induction false} StepIndexesNoNewRow(s: State, step: Step, known: set<RowId>, p: Pair)
    requires Enabled(s, step) && Unseen(s, p) && NoneBeyond(s.store.rows, known, p)
    requires !(step.FillBatch? && step.p == p)
    ensures NoneBeyond(Apply(s, step).store.rows, known, p)
  {
    hide Cached, ActiveKeys, Active;
    var before, after := s.store.rows, Apply(s, step).store.rows;
    forall id | id in after && id !in known && after[id].apiKey == Some(p.apiKey) ensures !after[id].Indexes(p.key) {
      if step.FillBatch? && id in step.batch { assert step.p.apiKey == p.apiKey && step.p.key != p.key; }
    }
  }

  lemma {:induction false} RunIndexesNoNewRows(s: State, steps: seq<Step>, t: State, known: set<RowId>, p: Pair)
    requires Unseen(s, p) && NoneBeyond(s.store.rows, known, p) && Leads(s, steps, t)
    requires forall i | 0 <= i < |steps| :: steps[i] != ActivateRow(p) && !(steps[i].FillBatch? && steps[i].p == p)
    ensures Unseen(t, p) && NoneBeyond(t.store.rows, known, p)
    decreases |steps|
  {
    hide Unseen, NoneBeyond, Enabled, Apply;
    if steps != [] {
      StepKeepsUnseen(s, steps[0], p);
      StepIndexesNoNewRow(s, steps[0], known, p);
      RunIndexesNoNewRows(Apply(s, steps[0]), steps[1..], t, known, p);
    }
  }
}
