/** The API-key resolver's bounded cache with a lifetime and cached rejections, checked against the
    history of the key store. */
module KeyCache {
  import opened Common

  type Hash = string

  datatype KeyRecord = KeyRecord(id: string, name: string, isActive: bool, revokedAt: Option<int>, behavior: string)

  datatype KeyInfo = KeyInfo(id: string, hash: Hash, name: string, behavior: string)

  /** The key table: what `GetAPIKeyByHash` reads. */
  type KeyStore = map<Hash, KeyRecord>

  datatype CachedKey = Valid(info: KeyInfo, expiresAt: int) | Rejected(expiresAt: int)

  type Cache = map<Hash, CachedKey>

  datatype AuthError = InvalidKey | KeyRevoked | KeyInactive | StoreError

  datatype Answer = Accepted(info: KeyInfo) | Refused(error: AuthError)

  const RESOLVER_CACHE_SIZE: nat := 4096

  predicate ActiveIn(store: KeyStore, h: Hash)
  {
    h in store && store[h].isActive
  }

  function InfoOf(h: Hash, key: KeyRecord): KeyInfo
  {
    KeyInfo(key.id, h, key.name, key.behavior)
  }

  /** The answer of the store itself. */
  function StoreAnswer(store: KeyStore, h: Hash): Answer
  {
    if h !in store then Refused(InvalidKey)
    else if !store[h].isActive then Refused(if store[h].revokedAt.Some? then KeyRevoked else KeyInactive)
    else Accepted(InfoOf(h, store[h]))
  }

  /** The entry a store answer leaves in the cache. */
  function EntryFor(answer: Answer, expiresAt: int): CachedKey
  {
    if answer.Accepted? then Valid(answer.info, expiresAt) else Rejected(expiresAt)
  }

  predicate Hit(cache: Cache, h: Hash, now: int)
  {
    h in cache && now <= cache[h].expiresAt
  }

  /** Adding to the LRU cache; a new entry in a full cache pushes out one other. */
  function AddEntry(cache: Cache, capacity: nat, h: Hash, entry: CachedKey, victim: Hash): Cache
  {
    if h in cache || |cache| < capacity then cache[h := entry] else (cache - {victim})[h := entry]
  }

  /** The answer for a key: the cached one while it lives, else the store's. */
  function ResolveAnswer(cache: Cache, h: Hash, store: KeyStore, storeFails: bool, now: int): Answer
  {
    if Hit(cache, h, now) then (if cache[h].Valid? then Accepted(cache[h].info) else Refused(KeyInactive))
    else if storeFails then Refused(StoreError)
    else StoreAnswer(store, h)
  }

  function ResolveCache(cache: Cache, capacity: nat, ttl: int, h: Hash, store: KeyStore, storeFails: bool, now: int,
                        victim: Hash): Cache
  {
    if Hit(cache, h, now) then cache
    else if storeFails then cache - {h}
    else AddEntry(cache - {h}, capacity, h, EntryFor(StoreAnswer(store, h), now + ttl), victim)
  }

  /** Whether the victim of a full cache can be pushed out. */
  predicate CanEvict(cache: Cache, capacity: nat, victim: Hash)
  {
    |cache| >= capacity ==> victim in cache
  }

  // ---- The resolver ----

  class Resolver {
    const ttl: int
    var cache: Cache

    constructor (ttl: int)
      ensures this.ttl == ttl && cache == map[]
    {
      this.ttl, cache := ttl, map[];
    }

    /** `ResolveAPIKey`, at one instant and against one state of the key store. */
    method ResolveAPIKey(apiKey: string, hashOf: string -> Hash, store: KeyStore, storeFails: bool, now: int)
      returns (answer: Answer, ghost victim: Hash)
      modifies this
      ensures apiKey == "" ==> answer == Refused(InvalidKey) && unchanged(this)
      ensures apiKey != "" ==>
                var h := hashOf(apiKey);
                && answer == ResolveAnswer(old(cache), h, store, storeFails, now)
                && cache == ResolveCache(old(cache), 4096, ttl, h, store, storeFails, now, victim)
                && CanEvict(old(cache) - {h}, 4096, victim)
    {
      victim := "";
      if apiKey == "" {
        return Refused(InvalidKey), victim;
      }
      var h := hashOf(apiKey);
      if |cache - {h}| >= RESOLVER_CACHE_SIZE {
        victim := SomeKey(cache - {h});
      }
      var cached := GetFromCache(h, now);
      if cached.Some? {
        answer := if cached.value.Valid? then Accepted(cached.value.info) else Refused(KeyInactive);
        return;
      }
      if storeFails {
        return Refused(StoreError), victim;
      }
      if h !in store {
        victim := Add(h, Rejected(now + ttl));
        return Refused(InvalidKey), victim;
      }
      var key := store[h];
      if !key.isActive {
        victim := Add(h, Rejected(now + ttl));
        return Refused(if key.revokedAt.Some? then KeyRevoked else KeyInactive), victim;
      }
      var info := KeyInfo(key.id, h, key.name, key.behavior);
      victim := Add(h, Valid(info, now + ttl));
      answer := Accepted(info);
    }

    /** `getFromCache`: drops an expired entry on sight. */
    method GetFromCache(h: Hash, now: int) returns (cached: Option<CachedKey>)
      modifies this
      ensures cached == if Hit(old(cache), h, now) then Some(old(cache)[h]) else None
      ensures cache == if Hit(old(cache), h, now) then old(cache) else old(cache) - {h}
    {
      if h !in cache {
        return None;
      }
      if now > cache[h].expiresAt {
        cache := cache - {h};
        return None;
      }
      cached := Some(cache[h]);
    }

    /** The LRU cache's Add, with the library's choice of victim left open. */
    method Add(h: Hash, entry: CachedKey) returns (ghost victim: Hash)
      requires h !in cache
      modifies this
      ensures cache == AddEntry(old(cache), 4096, h, entry, victim)
      ensures CanEvict(old(cache), 4096, victim)
      ensures cache == if |old(cache)| < 4096 then old(cache)[h := entry] else (old(cache) - {victim})[h := entry]
    {
      victim := "";
      if |cache| >= RESOLVER_CACHE_SIZE {
        ghost var w := SomeKey(cache);
        var v :| v in cache;
        cache := cache - {v};
        victim := v;
      }
      cache := cache[h := entry];
    }

    /** `InvalidateCache`. */
    method InvalidateCache(h: Hash)
      modifies this
      ensures cache == old(cache) - {h}
    {
      cache := cache - {h};
    }
  }

  lemma {:induction false} SomeKey(cache: Cache) returns (h: Hash)
    requires |cache| > 0
    ensures h in cache
  {
    assert cache.Keys != {};
    h :| h in cache.Keys;
  }

  // ---- What one lookup gives and changes ----

  /** Past the cache the answer is the table's: unknown, revoked, inactive, or the key's own data. */
  lemma {:induction false} MissAnswersFromTable(cache: Cache, h: Hash, store: KeyStore, storeFails: bool, now: int)
    requires !Hit(cache, h, now)
    ensures var answer := ResolveAnswer(cache, h, store, storeFails, now);
            && (answer == Refused(StoreError) <==> storeFails)
            && (answer == Refused(InvalidKey) <==> !storeFails && h !in store)
            && (answer == Refused(KeyRevoked) <==>
                  !storeFails && h in store && !store[h].isActive && store[h].revokedAt.Some?)
            && (answer == Refused(KeyInactive) <==>
                  !storeFails && h in store && !store[h].isActive && store[h].revokedAt.None?)
            && (answer.Accepted? ==>
                  && h in store && store[h].isActive && answer.info.hash == h && answer.info.id == store[h].id
                  && answer.info.name == store[h].name && answer.info.behavior == store[h].behavior)
  {
  }

  /** A lookup leaves every other entry alone, but for the one a full cache gives up. */
  lemma {:induction false} LookupIsLocal(cache: Cache, capacity: nat, ttl: int, h: Hash, store: KeyStore, fails: bool,
                                         now: int, victim: Hash, k: Hash)
    requires k != h
    ensures var after := ResolveCache(cache, capacity, ttl, h, store, fails, now, victim);
            && (k in after ==> k in cache && after[k] == cache[k])
            && (k in cache && k !in after ==> k == victim && |cache - {h}| >= capacity && !Hit(cache, h, now) && !fails)
  {
    hide StoreAnswer, EntryFor;
  }

  // ---- Runs of resolve, store, eviction and clock steps ----

  /** The store at one instant. */
  datatype Moment = Moment(time: int, store: KeyStore)

  /** past: every store state and instant so far, oldest first; the last one is now. */
  datatype State = State(cache: Cache, past: seq<Moment>, ttl: nat, capacity: nat)

  datatype Step =
    | Resolve(h: Hash, storeFails: bool, victim: Hash)
    | ChangeStore(store: KeyStore)  // creation, revocation, any change of the table
    | Evict(h: Hash)                // also an explicit invalidation
    | Tick(elapsed: nat)

  function Now(s: State): Moment
  {
    if s.past == [] then Moment(0, map[]) else s.past[|s.past| - 1]
  }

  predicate Enabled(s: State, step: Step)
  {
    s.past != [] && (step.Resolve? ==> CanEvict(s.cache - {step.h}, s.capacity, step.victim))
  }

  function Apply(s: State, step: Step): State
    requires Enabled(s, step)
  {
    match step
    case Resolve(h, fails, victim) =>
      s.(cache := ResolveCache(s.cache, s.capacity, s.ttl, h, Now(s).store, fails, Now(s).time, victim))
    case ChangeStore(store) => s.(past := s.past + [Moment(Now(s).time, store)])
    case Evict(h) => s.(cache := s.cache - {h})
    case Tick(elapsed) => s.(past := s.past + [Moment(Now(s).time + elapsed, Now(s).store)])
  }

  ghost predicate Leads(s: State, steps: seq<Step>, t: State)
    decreases |steps|
  {
    if steps == [] then t == s
    else Enabled(s, steps[0]) && Leads(Apply(s, steps[0]), steps[1..], t)
  }

  /** The entry is what the store answered at some past moment, one lifetime before it expires. */
  ghost predicate Justified(s: State, h: Hash, entry: CachedKey)
  {
    exists i :: 0 <= i < |s.past| && entry == EntryFor(StoreAnswer(s.past[i].store, h), s.past[i].time + s.ttl)
  }

  /** Kept by every step: bounded size, entries justified, time not running backwards. */
  ghost predicate Sound(s: State)
  {
    && s.past != [] && s.capacity > 0 && |s.cache| <= s.capacity
    && (forall h | h in s.cache :: Justified(s, h, s.cache[h]))
    && (forall i | 0 <= i < |s.past| :: s.past[i].time <= Now(s).time)
  }

  lemma {:induction false} MoreHistory(s: State, t: State, h: Hash, entry: CachedKey)
    requires s.past <= t.past && s.ttl == t.ttl && Justified(s, h, entry)
    ensures Justified(t, h, entry)
  {
    var i :| 0 <= i < |s.past| && entry == EntryFor(StoreAnswer(s.past[i].store, h), s.past[i].time + s.ttl);
    assert t.past[i] == s.past[i];
  }

  lemma {:induction false} RemoveSize(cache: Cache, h: Hash)
    ensures |cache - {h}| <= |cache|
    ensures h in cache ==> |cache - {h}| < |cache|
  {
    assert (cache - {h}).Keys == cache.Keys - {h};
    if h in cache { assert cache.Keys == (cache.Keys - {h}) + {h}; }
  }

  lemma {:induction false} AddKeepsBound(cache: Cache, capacity: nat, h: Hash, entry: CachedKey, victim: Hash)
    requires capacity > 0 && |cache| <= capacity && CanEvict(cache, capacity, victim)
    ensures |AddEntry(cache, capacity, h, entry, victim)| <= capacity
  {
    RemoveSize(cache, victim);
    var base := if h in cache || |cache| < capacity then cache else cache - {victim};
    assert base[h := entry].Keys == base.Keys + {h};
  }

  lemma {:induction false} ResolveKeepsSound(s: State, h: Hash, fails: bool, victim: Hash)
    requires Sound(s) && Enabled(s, Resolve(h, fails, victim))
    ensures Sound(Apply(s, Resolve(h, fails, victim)))
  {
    hide StoreAnswer, EntryFor, Justified;
    var t := Apply(s, Resolve(h, fails, victim));
    var entry := EntryFor(StoreAnswer(Now(s).store, h), Now(s).time + s.ttl);
    RemoveSize(s.cache, h);
    AddKeepsBound(s.cache - {h}, s.capacity, h, entry, victim);
    FreshIsJustified(s, h);
    MoreHistory(s, t, h, entry);
    forall k | k in t.cache ensures Justified(t, k, t.cache[k]) {
      if k in s.cache { MoreHistory(s, t, k, s.cache[k]); }
    }
  }

  lemma {:induction false} EvictKeepsSound(s: State, h: Hash)
    requires Sound(s)
    ensures Sound(s.(cache := s.cache - {h}))
  {
    hide StoreAnswer, EntryFor, Justified;
    var t := s.(cache := s.cache - {h});
    RemoveSize(s.cache, h);
    forall k | k in t.cache ensures Justified(t, k, t.cache[k]) { MoreHistory(s, t, k, s.cache[k]); }
  }

  lemma {:induction false} MomentKeepsSound(s: State, m: Moment)
    requires Sound(s) && m.time >= Now(s).time
    ensures Sound(s.(past := s.past + [m]))
  {
    hide StoreAnswer, EntryFor, Justified;
    var t := s.(past := s.past + [m]);
    forall k | k in t.cache ensures Justified(t, k, t.cache[k]) { MoreHistory(s, t, k, s.cache[k]); }
  }

  lemma {:induction false} StepKeepsSound(s: State, step: Step)
    requires Sound(s) && Enabled(s, step)
    ensures Sound(Apply(s, step))
  {
    hide Sound, ResolveCache, Now;
    match step {
      case Resolve(h, fails, victim) => ResolveKeepsSound(s, h, fails, victim);
      case Evict(h) => EvictKeepsSound(s, h);
      case ChangeStore(store) => MomentKeepsSound(s, Moment(Now(s).time, store));
      case Tick(elapsed) => MomentKeepsSound(s, Moment(Now(s).time + elapsed, Now(s).store));
    }
  }

  lemma {:induction false} FreshIsJustified(s: State, h: Hash)
    requires s.past != []
    ensures Justified(s, h, EntryFor(StoreAnswer(Now(s).store, h), Now(s).time + s.ttl))
  {
    var i := |s.past| - 1;
    assert s.past[i] == Now(s);
  }

  /** In every run the cache stays within its capacity and every entry goes back to a store answer. */
  lemma {:induction false} RunKeepsSound(s: State, steps: seq<Step>, t: State)
    requires Sound(s) && Leads(s, steps, t)
    ensures Sound(t)
    decreases |steps|
  {
    hide Sound, Enabled, Apply;
    if steps != [] {
      StepKeepsSound(s, steps[0]);
      RunKeepsSound(Apply(s, steps[0]), steps[1..], t);
    }
  }

  /** The i-th past moment lies within one lifetime of now. */
  ghost predicate InWindow(s: State, i: int)
  {
    0 <= i < |s.past| && Now(s).time - s.ttl <= s.past[i].time <= Now(s).time
  }

  /** The answer was the store's own at some moment within the last lifetime, up to the error. */
  ghost predicate WasTrue(s: State, h: Hash, answer: Answer)
  {
    exists i :: InWindow(s, i)
                && var earlier := StoreAnswer(s.past[i].store, h);
                   if answer.Accepted? then earlier == answer else earlier.Refused?
  }

  lemma {:induction false} CachedWasTrue(s: State, h: Hash)
    requires Sound(s) && Hit(s.cache, h, Now(s).time)
    ensures WasTrue(s, h, if s.cache[h].Valid? then Accepted(s.cache[h].info) else Refused(KeyInactive))
  {
    hide StoreAnswer, ActiveIn;
    var entry := s.cache[h];
    assert Justified(s, h, entry);
    var i :| 0 <= i < |s.past| && entry == EntryFor(StoreAnswer(s.past[i].store, h), s.past[i].time + s.ttl);
    assert InWindow(s, i);
  }

  lemma {:induction false} FreshWasTrue(s: State, h: Hash)
    requires Sound(s)
    ensures WasTrue(s, h, StoreAnswer(Now(s).store, h))
  {
    hide StoreAnswer;
    var now := |s.past| - 1;
    assert InWindow(s, now) && s.past[now] == Now(s);
  }

  /** An answer given after any run was true within the last lifetime: an accepted key was active
      then, with that very info; a refused one, short of a store failure, was refused then. */
  lemma {:induction false} AnswersWereTrue(start: State, steps: seq<Step>, s: State, h: Hash, storeFails: bool)
    requires Sound(start) && Leads(start, steps, s)
    ensures |s.cache| <= s.capacity
    ensures var answer := ResolveAnswer(s.cache, h, Now(s).store, storeFails, Now(s).time);
            && (answer != Refused(StoreError) ==> WasTrue(s, h, answer))
            && (answer.Accepted? ==>
                  exists i :: InWindow(s, i) && ActiveIn(s.past[i].store, h)
                          && answer.info == InfoOf(h, s.past[i].store[h]))
            && (answer == Refused(InvalidKey) ==> h !in Now(s).store)
            && (answer == Refused(KeyRevoked) ==>
                  h in Now(s).store && !Now(s).store[h].isActive && Now(s).store[h].revokedAt.Some?)
            && (answer.Refused? && answer.error != StoreError ==>
                  exists i :: InWindow(s, i) && !ActiveIn(s.past[i].store, h))
  {
    RunKeepsSound(start, steps, s);
    hide StoreAnswer, WasTrue, Justified, Now;
    if Hit(s.cache, h, Now(s).time) {
      CachedWasTrue(s, h);
    } else {
      FreshWasTrue(s, h);
    }
    var answer := ResolveAnswer(s.cache, h, Now(s).store, storeFails, Now(s).time);
    if answer != Refused(StoreError) { WasTrueMeans(s, h, answer); }
  }

  lemma {:induction false} WasTrueMeans(s: State, h: Hash, answer: Answer)
    requires WasTrue(s, h, answer)
    ensures answer.Accepted? ==>
              exists i :: InWindow(s, i) && ActiveIn(s.past[i].store, h) && answer.info == InfoOf(h, s.past[i].store[h])
    ensures answer.Refused? ==> exists i :: InWindow(s, i) && !ActiveIn(s.past[i].store, h)
  {
  }

  /** A key that has been inactive for a whole lifetime is never accepted. */
  lemma {:induction false} RevokedIsRefusedAfterLifetime(start: State, steps: seq<Step>, s: State, h: Hash,
                                                         storeFails: bool)
    requires Sound(start) && Leads(start, steps, s)
    requires forall i | InWindow(s, i) :: !ActiveIn(s.past[i].store, h)
    ensures ResolveAnswer(s.cache, h, Now(s).store, storeFails, Now(s).time).Refused?
  {
    hide Sound, Leads;
    AnswersWereTrue(start, steps, s, h, storeFails);
  }

  // ---- Where the cache and the store part ways ----

  /** Revoked or deleted, and not made active again by any later change of the table. */
  predicate StaysInactive(steps: seq<Step>, h: Hash)
  {
    forall i | 0 <= i < |steps| && steps[i].ChangeStore? :: !ActiveIn(steps[i].store, h)
  }

  /** No step removes the key's entry before its time. */
  predicate Spares(steps: seq<Step>, h: Hash)
  {
    forall i | 0 <= i < |steps| :: steps[i] != Evict(h) && (steps[i].Resolve? ==> steps[i].victim != h)
  }

  /** Inactive, with one accepting entry that lives up to a given time. */
  predicate Lingers(s: State, h: Hash, until: int)
  {
    && !ActiveIn(Now(s).store, h)
    && (Now(s).time <= until ==> h in s.cache && s.cache[h].Valid?)
    && (h in s.cache && s.cache[h].Valid? ==> s.cache[h].expiresAt == until)
  }

  /** Inactive, with no accepting entry. */
  predicate Gone(s: State, h: Hash)
  {
    !ActiveIn(Now(s).store, h) && (h in s.cache ==> s.cache[h].Rejected?)
  }

  lemma {:induction false} InactiveIsRejected(store: KeyStore, h: Hash, expiresAt: int)
    requires !ActiveIn(store, h)
    ensures EntryFor(StoreAnswer(store, h), expiresAt).Rejected?
  {
  }

  /** What a lookup of any key does to the entry of an inactive one. */
  lemma {:induction false} EntryAfterResolve(cache: Cache, capacity: nat, ttl: int, k: Hash, store: KeyStore,
                                             fails: bool, now: int, victim: Hash, h: Hash)
    requires !ActiveIn(store, h)
    ensures var after := ResolveCache(cache, capacity, ttl, k, store, fails, now, victim);
            && (h in after && after[h].Valid? ==> h in cache && after[h] == cache[h])
            && (h in cache && victim != h && (k == h ==> Hit(cache, h, now)) ==> h in after && after[h] == cache[h])
  {
    InactiveIsRejected(store, h, now + ttl);
    hide StoreAnswer, EntryFor, ActiveIn, Hit;
    if !Hit(cache, k, now) && !fails {
      var entry := EntryFor(StoreAnswer(store, k), now + ttl);
      var after := AddEntry(cache - {k}, capacity, k, entry, victim);
      assert k != h && h in after ==> h in cache && after[h] == cache[h];
    }
  }

  lemma {:induction false} ResolveKeepsLingering(s: State, k: Hash, fails: bool, victim: Hash, h: Hash, until: int)
    requires Enabled(s, Resolve(k, fails, victim)) && Lingers(s, h, until) && victim != h
    ensures Lingers(Apply(s, Resolve(k, fails, victim)), h, until)
  {
    hide CanEvict, ResolveCache, ActiveIn;
    EntryAfterResolve(s.cache, s.capacity, s.ttl, k, Now(s).store, fails, Now(s).time, victim, h);
  }

  lemma {:induction false} ResolveKeepsGone(s: State, k: Hash, fails: bool, victim: Hash, h: Hash)
    requires Enabled(s, Resolve(k, fails, victim)) && Gone(s, h)
    ensures Gone(Apply(s, Resolve(k, fails, victim)), h)
  {
    hide CanEvict, ResolveCache, ActiveIn;
    EntryAfterResolve(s.cache, s.capacity, s.ttl, k, Now(s).store, fails, Now(s).time, victim, h);
  }

  lemma {:induction false} StepKeepsLingering(s: State, step: Step, h: Hash, until: int)
    requires Enabled(s, step) && Lingers(s, h, until) && step != Evict(h)
    requires step.Resolve? ==> step.victim != h
    requires step.ChangeStore? ==> !ActiveIn(step.store, h)
    ensures Lingers(Apply(s, step), h, until)
  {
    hide CanEvict, ResolveCache, ActiveIn;
    if step.Resolve? { ResolveKeepsLingering(s, step.h, step.storeFails, step.victim, h, until); }
  }

  lemma {:induction false} StepKeepsGone(s: State, step: Step, h: Hash)
    requires Enabled(s, step) && Gone(s, h) && (step.ChangeStore? ==> !ActiveIn(step.store, h))
    ensures Gone(Apply(s, step), h)
  {
    hide CanEvict, ResolveCache, ActiveIn;
    if step.Resolve? { ResolveKeepsGone(s, step.h, step.storeFails, step.victim, h); }
  }

  lemma {:induction false} RunKeepsLingering(s: State, steps: seq<Step>, t: State, h: Hash, until: int)
    requires Lingers(s, h, until) && Leads(s, steps, t) && StaysInactive(steps, h) && Spares(steps, h)
    ensures Lingers(t, h, until)
    decreases |steps|
  {
    hide Lingers, Enabled, Apply;
    if steps != [] {
      StepKeepsLingering(s, steps[0], h, until);
      RunKeepsLingering(Apply(s, steps[0]), steps[1..], t, h, until);
    }
  }

  lemma {:induction false} RunKeepsGone(s: State, steps: seq<Step>, t: State, h: Hash)
    requires Gone(s, h) && Leads(s, steps, t) && StaysInactive(steps, h)
    ensures Gone(t, h)
    decreases |steps|
  {
    hide Gone, Enabled, Apply;
    if steps != [] {
      StepKeepsGone(s, steps[0], h);
      RunKeepsGone(Apply(s, steps[0]), steps[1..], t, h);
    }
  }

  lemma {:induction false} AfterTwoSteps(s: State, a: Step, b: Step, later: seq<Step>, t: State)
    requires Leads(s, [a, b] + later, t)
    ensures Enabled(s, a) && Enabled(Apply(s, a), b) && Leads(Apply(Apply(s, a), b), later, t)
  {
    hide Enabled, Apply;
    var steps := [a, b] + later;
    assert steps[1..] == [b] + later && steps[1..][1..] == later;
    assert Leads(Apply(s, a), steps[1..], t);
  }

  lemma {:induction false} RevokedLingers(s: State, h: Hash, victim: Hash, revoked: KeyStore)
    requires Enabled(s, Resolve(h, false, victim)) && !Hit(s.cache, h, Now(s).time) && ActiveIn(Now(s).store, h)
    requires !ActiveIn(revoked, h)
    ensures Lingers(Apply(Apply(s, Resolve(h, false, victim)), ChangeStore(revoked)), h, Now(s).time + s.ttl)
  {
  }

  lemma {:induction false} LingeringAnswer(t: State, h: Hash, until: int, storeFails: bool)
    requires Lingers(t, h, until)
    ensures ResolveAnswer(t.cache, h, Now(t).store, storeFails, Now(t).time).Accepted? <==> Now(t).time <= until
  {
  }

  /** A key read as active and then revoked: in every later run that does not evict its entry it is
      accepted exactly until the lifetime of that entry has passed. */
  lemma {:induction false} RevokedAcceptedIff(s: State, h: Hash, victim: Hash, revoked: KeyStore,
                                              later: seq<Step>, t: State, storeFails: bool)
    requires Enabled(s, Resolve(h, false, victim)) && !Hit(s.cache, h, Now(s).time) && ActiveIn(Now(s).store, h)
    requires Leads(s, [Resolve(h, false, victim), ChangeStore(revoked)] + later, t)
    requires !ActiveIn(revoked, h) && StaysInactive(later, h) && Spares(later, h)
    ensures ResolveAnswer(t.cache, h, Now(t).store, storeFails, Now(t).time).Accepted?
            <==> Now(t).time <= Now(s).time + s.ttl
  {
    hide Leads, Enabled, Apply, Lingers, ResolveAnswer, Hit, ActiveIn;
    AfterTwoSteps(s, Resolve(h, false, victim), ChangeStore(revoked), later, t);
    RevokedLingers(s, h, victim, revoked);
    RunKeepsLingering(Apply(Apply(s, Resolve(h, false, victim)), ChangeStore(revoked)),
                      later, t, h, Now(s).time + s.ttl);
    LingeringAnswer(t, h, Now(s).time + s.ttl, storeFails);
  }

  /** With `InvalidateCache` called after the revocation it is refused at once and for good. */
  lemma {:induction false} InvalidatedIsRefused(s: State, h: Hash, revoked: KeyStore, later: seq<Step>, t: State,
                                                storeFails: bool)
    requires Leads(s, [ChangeStore(revoked), Evict(h)] + later, t)
    requires !ActiveIn(revoked, h) && StaysInactive(later, h)
    ensures ResolveAnswer(t.cache, h, Now(t).store, storeFails, Now(t).time).Refused?
  {
    AfterTwoSteps(s, ChangeStore(revoked), Evict(h), later, t);
    RunKeepsGone(Apply(Apply(s, ChangeStore(revoked)), Evict(h)), later, t, h);
  }

  /** Asked again within the lifetime, whatever the store says or does by then, an accepted key gets
      the same answer and a refused one reads inactive, which repeats the first error exactly when
      the key is known, inactive and carries no revocation time. */
  lemma {:induction false} RepeatedAnswer(cache: Cache, capacity: nat, ttl: nat, h: Hash, store: KeyStore, now: int,
                                          later: int, store': KeyStore, storeFails: bool, victim: Hash)
    requires !Hit(cache, h, now)
    ensures var cache' := ResolveCache(cache, capacity, ttl, h, store, false, now, victim);
            var first := ResolveAnswer(cache, h, store, false, now);
            var second := ResolveAnswer(cache', h, store', storeFails, later);
            && (first.Accepted? <==> ActiveIn(store, h))
            && (later <= now + ttl ==> second == if first.Accepted? then first else Refused(KeyInactive))
            && (later <= now + ttl && first.Refused? ==> (second == first <==> h in store && store[h].revokedAt.None?))
            && (later > now + ttl ==> second == if storeFails then Refused(StoreError) else StoreAnswer(store', h))
  {
  }
}
