/** What disturbs an activation: refused queries, a writer that fetched before it, a cleanup still in
    flight. Each is shown as a run, and then exactly when none of it can happen any more. */
module MetadataRaces {
  import opened Common
  import opened MetadataIndex

  // ---- Runs that undo an activation ----

  /** One log written from an idle, complete state keeps the index complete exactly when it does not
      carry the key, or its keys come from a cache entry with the key, or from a query that
      succeeds: a refused or broken-off query stores it unindexed. */
  lemma {:induction false} WriteKeepsCompleteIff(s: State, p: Pair, log: Log, query: Query, t: State)
    requires s.writer.Idle? && Active(s.store, p) && Complete(s.store.rows, p)
    requires log.apiKey == Some(p.apiKey) && log.id !in s.store.rows
    requires Leads(s, WriteSteps(log, Cached(s, p.apiKey), query, true), t)
    ensures Complete(t.store.rows, p)
            <==> p.key !in log.raw
                 || if Cached(s, p.apiKey) then p.key in s.store.cache[p.apiKey].keys else query.QueryOk?
  {
    var hit := Cached(s, p.apiKey);
    var steps := WriteSteps(log, hit, query, true);
    var s1 := Apply(s, steps[0]);
    assert steps[1..] == if hit || query.ReadFailed? then [Insert(true)] else [StoreFetched, Insert(true)];
    var s2 := if hit || query.ReadFailed? then s1 else Apply(s1, StoreFetched);
    assert [StoreFetched, Insert(true)][1..] == [Insert(true)];
    assert Leads(s2, [Insert(true)], t);
    assert [Insert(true)][1..] == [];
    assert t == Apply(s2, Insert(true));
    hide Apply, Leads;
    InsertKeepsCompleteIff(s2, p);
  }

  /** A refused query is cached as "no active keys": a second log of the API key within the cache
      lifetime, which asks no query, is stored unindexed although the key is active. */
  lemma {:induction false} RefusedQueryHidesKey(s: State, p: Pair, first: Log, second: Log)
    requires s.writer.Idle? && s.ttl > 0 && Active(s.store, p) && Complete(s.store.rows, p)
    requires first.apiKey == second.apiKey == Some(p.apiKey) && !Cached(s, p.apiKey)
    requires first.id !in s.store.rows && second.id !in s.store.rows && first.id != second.id
    requires p.key in second.raw
    ensures exists t ::
              && Leads(s, WriteSteps(first, false, QueryFailed, true) + WriteSteps(second, true, QueryOk, true), t)
              && Active(t.store, p) && !Complete(t.store.rows, p)
  {
    var miss, hit := WriteSteps(first, false, QueryFailed, true), WriteSteps(second, true, QueryOk, true);
    var m := RefusedQueryIsCached(s, first, p.apiKey);
    var t := HitInserts(m, second, p.apiKey);
    LeadsOn(s, miss, m, hit, t);
    assert t.store.rows[second.id] == NewRow(second, {});
  }

  lemma {:induction false} RefusedQueryIsCached(s: State, log: Log, ak: ApiKey) returns (t: State)
    requires s.writer.Idle? && s.ttl > 0 && log.apiKey == Some(ak) && !Cached(s, ak) && log.id !in s.store.rows
    ensures Leads(s, WriteSteps(log, false, QueryFailed, true), t)
    ensures t.writer.Idle? && Cached(t, ak) && t.store.cache[ak].keys == {}
    ensures t.store.rows == s.store.rows[log.id := NewRow(log, {})]
    ensures forall p | Active(s.store, p) :: Active(t.store, p)
  {
    var s1 := Apply(s, CacheMiss(log, QueryFailed));
    var s2 := Apply(s1, StoreFetched);
    t := Apply(s2, Insert(true));
    TwoSteps(s1, StoreFetched, Insert(true), t);
    ThreeSteps(s, CacheMiss(log, QueryFailed), StoreFetched, Insert(true), t);
  }

  lemma {:induction false} HitInserts(s: State, log: Log, ak: ApiKey) returns (t: State)
    requires s.writer.Idle? && log.apiKey == Some(ak) && Cached(s, ak) && log.id !in s.store.rows
    ensures Leads(s, WriteSteps(log, true, QueryOk, true), t)
    ensures t.store.rows == s.store.rows[log.id := NewRow(log, s.store.cache[ak].keys)]
    ensures forall p | Active(s.store, p) :: Active(t.store, p)
  {
    t := Apply(Apply(s, CacheHit(log)), Insert(true));
    TwoSteps(s, CacheHit(log), Insert(true), t);
  }

  /** A writer that fetched before the activation and inserts after its backfill: the run ends idle
      with nothing left to do, the key active, the log's row unindexed, and the old keys cached. */
  lemma {:induction false} StaleWriterUndoesActivation(s: State, p: Pair, log: Log, size: nat) returns (t: State)
    requires s.writer.Idle? && p in s.store.registry && !Active(s.store, p) && IndexInRaw(s.store.rows)
    requires log.apiKey == Some(p.apiKey) && p.key in log.raw && log.id !in s.store.rows && !Cached(s, p.apiKey)
    requires |Pending(s.store.rows, p)| < size
    ensures Leads(s, [CacheMiss(log, QueryOk), ActivateRow(p), ActivateCache(p)]
                     + [FillBatch(p, Pending(s.store.rows, p), size), StoreFetched, Insert(true)], t)
    ensures t.writer.Idle? && t.tasks == s.tasks && Active(t.store, p) && !Complete(t.store.rows, p)
    ensures p.apiKey in t.store.cache && p.key !in t.store.cache[p.apiKey].keys
  {
    var m, keys := StaleFetch(s, p, log);
    t := StaleInsert(m, p, log, keys, size);
    LeadsOn(s, [CacheMiss(log, QueryOk), ActivateRow(p), ActivateCache(p)], m,
            [FillBatch(p, Pending(s.store.rows, p), size), StoreFetched, Insert(true)], t);
    assert t.tasks == s.tasks;
  }

  lemma {:induction false} StaleFetch(s: State, p: Pair, log: Log) returns (t: State, keys: set<string>)
    requires s.writer.Idle? && p in s.store.registry && !Active(s.store, p)
    requires log.apiKey == Some(p.apiKey) && !Cached(s, p.apiKey)
    ensures Leads(s, [CacheMiss(log, QueryOk), ActivateRow(p), ActivateCache(p)], t)
    ensures t.writer == Fetched(log, keys) && p.key !in keys && Active(t.store, p)
    ensures t.store.rows == s.store.rows && t.tasks == s.tasks + multiset{Filling(p)}
  {
    keys := ActiveKeys(s.store, p.apiKey);
    var s1 := Apply(s, CacheMiss(log, QueryOk));
    t := Apply(Apply(s1, ActivateRow(p)), ActivateCache(p));
    TwoSteps(s1, ActivateRow(p), ActivateCache(p), t);
    ThreeSteps(s, CacheMiss(log, QueryOk), ActivateRow(p), ActivateCache(p), t);
  }

  lemma {:induction false} StaleInsert(s: State, p: Pair, log: Log, keys: set<string>, size: nat) returns (t: State)
    requires s.writer == Fetched(log, keys) && p.key !in keys && Active(s.store, p) && Filling(p) in s.tasks
    requires log.apiKey == Some(p.apiKey) && p.key in log.raw && log.id !in s.store.rows
    requires |Pending(s.store.rows, p)| < size
    ensures Leads(s, [FillBatch(p, Pending(s.store.rows, p), size), StoreFetched, Insert(true)], t)
    ensures t.writer.Idle? && t.tasks == s.tasks - multiset{Filling(p)} && Active(t.store, p)
    ensures !Complete(t.store.rows, p)
    ensures p.apiKey in t.store.cache && p.key !in t.store.cache[p.apiKey].keys
  {
    var fill := ShortBatch(s, p, size);
    var s1 := Apply(s, fill);
    assert s1.store.rows.Keys == s.store.rows.Keys;
    var s2 := Apply(s1, StoreFetched);
    t := Apply(s2, Insert(true));
    TwoSteps(s1, StoreFetched, Insert(true), t);
    ThreeSteps(s, fill, StoreFetched, Insert(true), t);
    assert t.store.rows[log.id] == NewRow(log, keys);
  }

  /** A key switched off and on again while rows are indexed: the new backfill finds nothing to do and
      ends, then the old cleanup empties the index. The run ends with nothing left to do, the key
      active, and every row that carries it unindexed. */
  lemma {:induction false} CleanupUndoesActivation(s: State, p: Pair, size: nat) returns (t: State)
    requires p in s.store.registry && IndexInRaw(s.store.rows) && Complete(s.store.rows, p)
    requires 0 < |Indexed(s.store.rows, p)| < size
    ensures Leads(s, [DeactivateRow(p), DeactivateCache(p), ActivateRow(p)]
                     + [ActivateCache(p), FillBatch(p, {}, size)]
                     + [CleanBatch(p, Indexed(s.store.rows, p), size)], t)
    ensures t.writer == s.writer && t.tasks == s.tasks && Active(t.store, p)
    ensures Indexed(t.store.rows, p) == {} && !Complete(t.store.rows, p)
  {
    hide Leads, Complete, Indexed;
    var toggle := [DeactivateRow(p), DeactivateCache(p), ActivateRow(p)];
    var fill := [ActivateCache(p), FillBatch(p, {}, size)];
    var m1 := OffAndOn(s, p);
    var m2 := EmptyFill(m1, p, size);
    t := ShortClean(m2, p, size);
    LeadsOn(s, toggle, m1, fill, m2);
    LeadsOn(s, toggle + fill, m2, [CleanBatch(p, Indexed(s.store.rows, p), size)], t);
    assert t.tasks == s.tasks;
  }

  lemma {:induction false} OffAndOn(s: State, p: Pair) returns (t: State)
    requires p in s.store.registry
    ensures Leads(s, [DeactivateRow(p), DeactivateCache(p), ActivateRow(p)], t)
    ensures t.writer == s.writer && Active(t.store, p) && t.store.rows == s.store.rows
    ensures t.tasks == s.tasks + multiset{Cleaning(p), Activating(p)}
  {
    var s1 := Apply(s, DeactivateRow(p));
    t := Apply(Apply(s1, DeactivateCache(p)), ActivateRow(p));
    TwoSteps(s1, DeactivateCache(p), ActivateRow(p), t);
    ThreeSteps(s, DeactivateRow(p), DeactivateCache(p), ActivateRow(p), t);
  }

  /** With nothing pending, an activation's cache step and its one empty batch change no row. */
  lemma {:induction false} EmptyFill(s: State, p: Pair, size: nat) returns (t: State)
    requires Activating(p) in s.tasks && Complete(s.store.rows, p) && size > 0
    ensures Leads(s, [ActivateCache(p), FillBatch(p, {}, size)], t)
    ensures t.writer == s.writer && t.store.rows == s.store.rows && t.store.registry == s.store.registry
    ensures t.tasks == s.tasks - multiset{Activating(p)}
  {
    NothingPending(s.store.rows, p);
    var s1 := Apply(s, ActivateCache(p));
    t := Apply(s1, FillBatch(p, {}, size));
    FillNone(s.store.rows, p);
    TwoSteps(s, ActivateCache(p), FillBatch(p, {}, size), t);
  }

  /** A short cleanup batch empties the index of a key that some row carries. */
  lemma {:induction false} ShortClean(s: State, p: Pair, size: nat) returns (t: State)
    requires Cleaning(p) in s.tasks && Complete(s.store.rows, p) && 0 < |Indexed(s.store.rows, p)| < size
    ensures Leads(s, [CleanBatch(p, Indexed(s.store.rows, p), size)], t)
    ensures t.writer == s.writer && t.tasks == s.tasks - multiset{Cleaning(p)}
    ensures t.store.registry == s.store.registry
    ensures Indexed(t.store.rows, p) == {} && !Complete(t.store.rows, p)
  {
    var indexed := Indexed(s.store.rows, p);
    var clean := CleanBatch(p, indexed, size);
    t := Apply(s, clean);
    assert Leads(t, [], t) && [clean][1..] == [];
    hide CleanRows, Complete;
    LastCleanEmpties(s, p, indexed, size);
    CleanupKeepsCompleteIff(s, p, indexed, size);
    var id :| id in indexed;
    assert p.key in s.store.rows[id].raw by { IndexedCarry(s.store.rows, p, id); }
  }

  lemma {:induction false} IndexedCarry(rows: Rows, p: Pair, id: RowId)
    requires Complete(rows, p) && id in Indexed(rows, p)
    ensures p.key in rows[id].raw
  {
  }

  lemma {:induction false} NothingPending(rows: Rows, p: Pair)
    requires Complete(rows, p)
    ensures Pending(rows, p) == {}
  {
  }

  // ---- An unindexed row stays unindexed ----

  predicate Unindexed(rows: Rows, p: Pair, id: RowId, raw: map<string, string>)
  {
    id in rows && rows[id].apiKey == Some(p.apiKey) && rows[id].raw == raw && !rows[id].Indexes(p.key)
  }

  lemma {:induction false} StepStartsNoFill(s: State, step: Step, p: Pair)
    requires Enabled(s, step) && step != ActivateRow(p) && Activating(p) !in s.tasks && Filling(p) !in s.tasks
    ensures Activating(p) !in Apply(s, step).tasks && Filling(p) !in Apply(s, step).tasks
  {
    hide Cached, ActiveKeys, Active, IsBatch, Pending, Indexed;
  }

  lemma {:induction false} StepKeepsUnindexed(s: State, step: Step, p: Pair, id: RowId, raw: map<string, string>)
    requires Enabled(s, step) && Filling(p) !in s.tasks && Unindexed(s.store.rows, p, id, raw)
    ensures Unindexed(Apply(s, step).store.rows, p, id, raw)
  {
    hide Cached, ActiveKeys, Active;
    if step.FillBatch? && id in step.batch { assert step.p.apiKey == p.apiKey && step.p.key != p.key; }
  }

  /** With no activation of the pair in flight, a row left unindexed stays so until the next one. */
  lemma {:induction false} UnindexedUntilNextActivation(s: State, steps: seq<Step>, t: State, p: Pair, id: RowId,
                                                        raw: map<string, string>)
    requires Leads(s, steps, t) && Activating(p) !in s.tasks && Filling(p) !in s.tasks
    requires forall i | 0 <= i < |steps| :: steps[i] != ActivateRow(p)
    requires Unindexed(s.store.rows, p, id, raw)
    ensures Unindexed(t.store.rows, p, id, raw)
    decreases |steps|
  {
    hide Enabled, Apply, Unindexed;
    if steps != [] {
      StepKeepsUnindexed(s, steps[0], p, id, raw);
      StepStartsNoFill(s, steps[0], p);
      UnindexedUntilNextActivation(Apply(s, steps[0]), steps[1..], t, p, id, raw);
    }
  }

  // ---- Exactly when an activation cannot be undone ----

  /** The key is not switched off again and no query for its API key fails. */
  predicate Seeing(steps: seq<Step>, p: Pair)
  {
    forall i | 0 <= i < |steps| :: !Unseeing(steps[i], p)
  }

  /** A live cache entry that lacks the key. */
  predicate BlindCache(s: State, p: Pair)
  {
    Cached(s, p.apiKey) && p.key !in s.store.cache[p.apiKey].keys
  }

  /** The writer is about to cache what it fetched, for some time. */
  predicate WillCache(s: State)
  {
    s.writer.Fetched? && s.ttl > 0
  }

  /** The writer's log carries the key and can be inserted. */
  predicate WillInsert(s: State, p: Pair)
  {
    !s.writer.Idle? && p.key in s.writer.log.raw && s.writer.log.id !in s.store.rows
  }

  /** Nothing left over from before works against the key: no deactivation in flight, no live cache
      entry without it, and no writer that would cache or insert older keys. */
  ghost predicate Undisturbed(s: State, p: Pair)
  {
    && Deactivating(p) !in s.tasks && Cleaning(p) !in s.tasks
    && !BlindCache(s, p)
    && !(StaleWriter(s, p) && (WillCache(s) || WillInsert(s, p)))
  }

  lemma {:induction false} StepStartsNoCleanup(s: State, step: Step, p: Pair)
    requires Enabled(s, step) && !Unseeing(step, p) && Deactivating(p) !in s.tasks && Cleaning(p) !in s.tasks
    ensures Deactivating(p) !in Apply(s, step).tasks && Cleaning(p) !in Apply(s, step).tasks
  {
    hide Cached, ActiveKeys, Active, IsBatch, Pending, Indexed;
  }

  lemma {:induction false} StepKeepsActive(s: State, step: Step, p: Pair)
    requires Enabled(s, step) && Active(s.store, p) && step != DeactivateRow(p)
    ensures Active(Apply(s, step).store, p)
  {
    hide IsBatch, Pending, Indexed, FillRows, CleanRows, NewRow, Cached, ActiveKeys;
  }

  lemma {:induction false} StepKeepsSight(s: State, step: Step, p: Pair)
    requires Enabled(s, step) && !BlindCache(s, p) && !(StaleWriter(s, p) && WillCache(s))
    ensures !BlindCache(Apply(s, step), p)
  {
    hide IsBatch, Pending, Indexed, FillRows, CleanRows, NewRow, ActiveKeys, Active;
  }

  lemma {:induction false} StepKeepsWriterSafe(s: State, step: Step, p: Pair)
    requires Enabled(s, step) && !Unseeing(step, p) && Active(s.store, p)
    requires !BlindCache(s, p) && !(StaleWriter(s, p) && (WillCache(s) || WillInsert(s, p)))
    ensures var t := Apply(s, step); !(StaleWriter(t, p) && (WillCache(t) || WillInsert(t, p)))
  {
    hide IsBatch, Pending, Indexed, NewRow;
    assert s.store.rows.Keys <= Apply(s, step).store.rows.Keys;
  }

  lemma {:induction false} StepKeepsUndisturbed(s: State, step: Step, p: Pair)
    requires Enabled(s, step) && Active(s.store, p) && Undisturbed(s, p) && !Unseeing(step, p)
    ensures Active(Apply(s, step).store, p) && Undisturbed(Apply(s, step), p)
  {
    assert step != DeactivateRow(p);
    hide Enabled, Apply, Active, Unseeing, BlindCache, StaleWriter, WillCache, WillInsert;
    StepStartsNoCleanup(s, step, p);
    StepKeepsActive(s, step, p);
    StepKeepsSight(s, step, p);
    StepKeepsWriterSafe(s, step, p);
  }

  lemma {:induction false} UndisturbedKeepsComplete(s: State, step: Step, p: Pair)
    requires Enabled(s, step) && Active(s.store, p) && Undisturbed(s, p) && Complete(s.store.rows, p)
    ensures Complete(Apply(s, step).store.rows, p)
  {
    if step.Insert? && step.ok && s.writer.log.apiKey == Some(p.apiKey) {
      InsertKeepsCompleteIff(s, p);
    }
    hide Cached, ActiveKeys, Active;
  }

  lemma {:induction false} RunStaysComplete(s: State, steps: seq<Step>, t: State, p: Pair)
    requires Active(s.store, p) && Undisturbed(s, p) && Complete(s.store.rows, p)
    requires Leads(s, steps, t) && Seeing(steps, p)
    ensures Complete(t.store.rows, p)
    decreases |steps|
  {
    hide Enabled, Apply, Active, Undisturbed, Complete, Unseeing;
    if steps != [] {
      StepKeepsUndisturbed(s, steps[0], p);
      UndisturbedKeepsComplete(s, steps[0], p);
      RunStaysComplete(Apply(s, steps[0]), steps[1..], t, p);
    }
  }

  /** A log that carries just the key, under an id no row has. */
  lemma {:induction false} NewLog(rows: Rows, p: Pair) returns (log: Log)
    ensures log.id !in rows && log.apiKey == Some(p.apiKey) && p.key in log.raw
  {
    var id := NewString(rows.Keys);
    log := Log(id, Some(p.apiKey), map[p.key := ""]);
  }

  /** A writer holding fetched keys found no live cache entry for their API key. */
  predicate FetchedOnMiss(s: State)
  {
    s.writer.Fetched? ==> s.writer.log.apiKey.Some? && !Cached(s, s.writer.log.apiKey.value)
  }

  /** So it is in every run that starts between two logs. */
  lemma {:induction false} RunKeepsFetchedOnMiss(s: State, steps: seq<Step>, t: State)
    requires FetchedOnMiss(s) && Leads(s, steps, t)
    ensures FetchedOnMiss(t)
    decreases |steps|
  {
    if steps != [] {
      StepKeepsFetchedOnMiss(s, steps[0]);
      hide FetchedOnMiss, Enabled, Apply;
      RunKeepsFetchedOnMiss(Apply(s, steps[0]), steps[1..], t);
    }
  }

  lemma {:induction false} StepKeepsFetchedOnMiss(s: State, step: Step)
    requires Enabled(s, step) && FetchedOnMiss(s)
    ensures FetchedOnMiss(Apply(s, step))
  {
    hide IsBatch, Pending, Indexed, ActiveKeys;
  }

  /** The writer can always give its log up; what it fetched is then cached. */
  lemma {:induction false} GiveUp(s: State, p: Pair) returns (steps: seq<Step>, t: State)
    requires FetchedOnMiss(s)
    ensures Leads(s, steps, t) && Seeing(steps, p) && t.writer.Idle?
    ensures t.store.rows == s.store.rows && t.store.registry == s.store.registry && t.tasks == s.tasks
    ensures s.writer.Fetched? && StaleWriter(s, p) && s.ttl > 0 ==> BlindCache(t, p)
    ensures BlindCache(s, p) ==> BlindCache(t, p)
  {
    if s.writer.Idle? {
      steps, t := [], s;
    } else if s.writer.Ready? {
      steps, t := [Insert(false)], Apply(s, Insert(false));
      assert steps[1..] == [] && Leads(t, [], t);
    } else {
      steps, t := [StoreFetched, Insert(false)], Apply(Apply(s, StoreFetched), Insert(false));
      TwoSteps(s, StoreFetched, Insert(false), t);
    }
  }

  /** A new log that carries the key, written with a succeeding query. */
  lemma {:induction false} WriteNew(s: State, p: Pair) returns (steps: seq<Step>, t: State)
    requires s.writer.Idle? && Active(s.store, p) && Complete(s.store.rows, p)
    ensures Leads(s, steps, t) && Seeing(steps, p)
    ensures Active(t.store, p) && t.tasks == s.tasks
    ensures BlindCache(s, p) ==> !Complete(t.store.rows, p)
    ensures Complete(t.store.rows, p) ==> Indexed(t.store.rows, p) != {}
  {
    var log := NewLog(s.store.rows, p);
    var hit := Cached(s, p.apiKey);
    steps := WriteSteps(log, hit, QueryOk, true);
    t := WriteLeads(s, p, log);
    hide Leads, Apply;
    WriteKeepsCompleteIff(s, p, log, QueryOk, t);
    assert t.store.rows[log.id].raw == log.raw;
    if Complete(t.store.rows, p) { assert log.id in Indexed(t.store.rows, p); }
  }

  lemma {:induction false} WriteLeads(s: State, p: Pair, log: Log) returns (t: State)
    requires s.writer.Idle? && log.apiKey == Some(p.apiKey) && log.id !in s.store.rows
    ensures Leads(s, WriteSteps(log, Cached(s, p.apiKey), QueryOk, true), t)
    ensures t.tasks == s.tasks
    ensures log.id in t.store.rows && t.store.rows[log.id].apiKey == log.apiKey && t.store.rows[log.id].raw == log.raw
    ensures forall q | Active(s.store, q) :: Active(t.store, q)
  {
    if Cached(s, p.apiKey) {
      t := Apply(Apply(s, CacheHit(log)), Insert(true));
      TwoSteps(s, CacheHit(log), Insert(true), t);
    } else {
      var s1 := Apply(s, CacheMiss(log, QueryOk));
      t := Apply(Apply(s1, StoreFetched), Insert(true));
      TwoSteps(s1, StoreFetched, Insert(true), t);
      ThreeSteps(s, CacheMiss(log, QueryOk), StoreFetched, Insert(true), t);
    }
  }

  /** An earlier deactivation still in flight can always run on to its cleanup. */
  lemma {:induction false} ReachCleaning(s: State, p: Pair) returns (steps: seq<Step>, t: State)
    requires Deactivating(p) in s.tasks || Cleaning(p) in s.tasks
    ensures Leads(s, steps, t) && Seeing(steps, p) && Cleaning(p) in t.tasks && t.store.rows == s.store.rows
  {
    if Cleaning(p) in s.tasks {
      steps, t := [], s;
    } else {
      steps, t := [DeactivateCache(p)], Apply(s, DeactivateCache(p));
      assert steps[1..] == [] && Leads(t, [], t);
    }
  }

  lemma {:induction false} SeeingOn(first: seq<Step>, second: seq<Step>, p: Pair)
    requires Seeing(first, p) && Seeing(second, p)
    ensures Seeing(first + second, p)
  {
    hide Unseeing;
  }

  lemma {:induction false} CleaningCanUndo(s: State, p: Pair) returns (steps: seq<Step>, t: State)
    requires Deactivating(p) in s.tasks || Cleaning(p) in s.tasks
    requires Complete(s.store.rows, p) && Indexed(s.store.rows, p) != {}
    ensures Leads(s, steps, t) && Seeing(steps, p) && !Complete(t.store.rows, p)
  {
    hide Complete, Indexed, Leads;
    var first, m := ReachCleaning(s, p);
    var indexed := Indexed(m.store.rows, p);
    var clean := [CleanBatch(p, indexed, |indexed| + 1)];
    t := ShortClean(m, p, |indexed| + 1);
    LeadsOn(s, first, m, clean, t);
    SeeingOn(first, clean, p);
    steps := first + clean;
  }

  /** A writer holding older keys that inserts a log carrying the key leaves its row unindexed. */
  lemma {:induction false} StaleCanUndo(s: State, p: Pair) returns (steps: seq<Step>, t: State)
    requires FetchedOnMiss(s) && StaleWriter(s, p) && WillInsert(s, p) && Complete(s.store.rows, p)
    ensures Leads(s, steps, t) && Seeing(steps, p) && !Complete(t.store.rows, p)
  {
    hide Complete, NewRow, ActiveKeys, FillRows, CleanRows;
    if s.writer.Ready? {
      steps, t := [Insert(true)], Apply(s, Insert(true));
      assert steps[1..] == [] && Leads(t, [], t);
      InsertKeepsCompleteIff(s, p);
    } else {
      var m := Apply(s, StoreFetched);
      steps, t := [StoreFetched, Insert(true)], Apply(m, Insert(true));
      TwoSteps(s, StoreFetched, Insert(true), t);
      InsertKeepsCompleteIff(m, p);
    }
  }

  /** From any disturbed state some run of succeeding queries leaves a row unindexed. */
  lemma {:induction false} DisturbedCanUndo(s: State, p: Pair) returns (steps: seq<Step>, t: State)
    requires FetchedOnMiss(s) && Active(s.store, p) && Complete(s.store.rows, p) && !Undisturbed(s, p)
    ensures Leads(s, steps, t) && Seeing(steps, p) && !Complete(t.store.rows, p)
  {
    hide Complete, Leads, BlindCache, WillInsert, FetchedOnMiss, StaleWriter, Seeing;
    if StaleWriter(s, p) && WillInsert(s, p) {
      steps, t := StaleCanUndo(s, p);
    } else {
      var first, idle := GiveUp(s, p);
      var second, m := WriteNew(idle, p);
      LeadsOn(s, first, idle, second, m);
      SeeingOn(first, second, p);
      steps, t := first + second, m;
      if Complete(m.store.rows, p) {
        var third;
        third, t := CleaningCanUndo(m, p);
        LeadsOn(s, first + second, m, third, t);
        SeeingOn(first + second, third, p);
        steps := first + second + third;
      }
    }
  }

  /** From a complete index, every run in which the key stays on and the API key's queries succeed
      keeps it complete exactly when nothing left over disturbs the key. */
  lemma {:induction false} StaysCompleteIff(s: State, p: Pair)
    requires FetchedOnMiss(s) && Active(s.store, p) && Complete(s.store.rows, p)
    ensures (forall steps, t | Leads(s, steps, t) && Seeing(steps, p) :: Complete(t.store.rows, p))
            <==> Undisturbed(s, p)
  {
    hide Leads, Complete, Seeing, Undisturbed, FetchedOnMiss;
    if Undisturbed(s, p) {
      forall steps, t | Leads(s, steps, t) && Seeing(steps, p) ensures Complete(t.store.rows, p) {
        RunStaysComplete(s, steps, t, p);
      }
    } else {
      var steps, t := DisturbedCanUndo(s, p);
    }
  }

  lemma {:induction false} FiltersAgreeIff(rows: Rows, p: Pair)
    requires IndexInRaw(rows)
    ensures FiltersAgree(rows, p) <==> Complete(rows, p)
  {
    if Complete(rows, p) {
      CompleteMeansFiltersAgree(rows, p);
    } else {
      var id :| id in rows && rows[id].apiKey == Some(p.apiKey)
                && !(rows[id].Indexes(p.key) <==> p.key in rows[id].raw);
      assert SubMap(rows[id]);
      var v := rows[id].raw[p.key];
      assert id in ByRaw(rows, p, v) && id !in ByIndex(rows, p, v);
    }
  }

  /** An activation has invalidated the cache (with no stale writer) and its backfill runs its last
      batch: the two filters agree from there on, in every run in which the key stays on and the API
      key's queries succeed, exactly when no earlier deactivation is in flight. */
  lemma {:induction false} ActivationHoldsIff(s0: State, p: Pair, during: seq<Step>, s1: State,
                                              batch: set<RowId>, size: nat)
    requires IndexInRaw(s0.store.rows) && FetchedOnMiss(s0)
    requires Enabled(s0, ActivateCache(p)) && Active(s0.store, p) && !StaleWriter(s0, p)
    requires Leads(Apply(s0, ActivateCache(p)), during, s1) && Seeing(during, p)
    requires Enabled(s1, FillBatch(p, batch, size)) && |batch| < size
    ensures var b := Apply(s1, FillBatch(p, batch, size));
            (forall later, t | Leads(b, later, t) && Seeing(later, p) :: FiltersAgree(t.store.rows, p))
            <==> Deactivating(p) !in s1.tasks && Cleaning(p) !in s1.tasks
  {
    var a, b := Apply(s0, ActivateCache(p)), Apply(s1, FillBatch(p, batch, size));
    assert Deactivating(p) in b.tasks <==> Deactivating(p) in s1.tasks;
    assert Cleaning(p) in b.tasks <==> Cleaning(p) in s1.tasks;
    StepKeepsFetchedOnMiss(s0, ActivateCache(p));
    InvalidationMakesSeen(s0, p);
    StepKeepsIndexInRaw(s0, ActivateCache(p));
    FillIsSeeing(p, batch, size);
    hide Enabled, Apply, Complete, IndexInRaw, Leads, FiltersAgree, Unseeing, FetchedOnMiss, Seen;
    RunKeepsFetchedOnMiss(a, during, s1);
    StepKeepsFetchedOnMiss(s1, FillBatch(p, batch, size));
    RunKeepsSeen(a, during, s1, p);
    IndexStaysInRaw(a, during, s1);
    StepKeepsSeen(s1, FillBatch(p, batch, size), p);
    StepKeepsIndexInRaw(s1, FillBatch(p, batch, size));
    LastFillCompletes(s1, p, batch, size);
    SeenIsUndisturbedIff(b, p);
    StaysCompleteIff(b, p);
    hide Seeing, Undisturbed;
    forall later, t | Leads(b, later, t) && Seeing(later, p)
      ensures FiltersAgree(t.store.rows, p) <==> Complete(t.store.rows, p)
    {
      IndexStaysInRaw(b, later, t);
      FiltersAgreeIff(t.store.rows, p);
    }
  }

  lemma {:induction false} SeenIsUndisturbedIff(s: State, p: Pair)
    requires Seen(s, p)
    ensures Undisturbed(s, p) <==> Deactivating(p) !in s.tasks && Cleaning(p) !in s.tasks
    ensures Active(s.store, p)
  {
  }
}
