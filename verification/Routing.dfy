/** The routing decision: credential, data-policy and health filters, the cached health snapshot,
    and the request rewrite for the chosen endpoint. */
module Routing {
  import opened Common
  import opened Pricing
  import opened Router
  import PricingService

  // ---- Data policy ----

  datatype DataPolicy = DataPolicy(requireZdr: bool, requireNoCollection: bool)

  /** Case-insensitive equality with "deny"; no letter of it has a non-ASCII case variant. */
  predicate IsDeny(s: string)
  {
    && |s| == 4 && (s[0] == 'd' || s[0] == 'D') && (s[1] == 'e' || s[1] == 'E')
    && (s[2] == 'n' || s[2] == 'N') && (s[3] == 'y' || s[3] == 'Y')
  }

  ghost function LowerChar(c: char): char
  {
    if 'A' <= c <= 'Z' then c - 'A' + 'a' else c
  }

  /** ASCII letters in lower case. */
  ghost function Lower(s: string): string
  {
    seq(|s|, i requires 0 <= i < |s| => LowerChar(s[i]))
  }

  lemma {:induction false} IsDenyIff(s: string)
    ensures IsDeny(s) <==> Lower(s) == "deny"
  {
    if |s| == 4 {
      assert forall c :: LowerChar(c) == 'd' <==> c == 'd' || c == 'D';
      assert forall c :: LowerChar(c) == 'e' <==> c == 'e' || c == 'E';
      assert forall c :: LowerChar(c) == 'n' <==> c == 'n' || c == 'N';
      assert forall c :: LowerChar(c) == 'y' <==> c == 'y' || c == 'Y';
      var l := Lower(s);
      assert l[0] == LowerChar(s[0]) && l[1] == LowerChar(s[1]) && l[2] == LowerChar(s[2]) && l[3] == LowerChar(s[3]);
      assert l == "deny" <==> l[0] == 'd' && l[1] == 'e' && l[2] == 'n' && l[3] == 'y';
    }
  }

  datatype RoutingConfig = RoutingConfig(defaultRequireZdr: bool, defaultDataCollection: string)

  const ZDR_HEADER := "x-majordomo-zdr"
  const COLLECTION_HEADER := "x-majordomo-data-collection"

  /** The deployment's own requirements. */
  function Floor(config: RoutingConfig): DataPolicy
  {
    DataPolicy(config.defaultRequireZdr, IsDeny(config.defaultDataCollection))
  }

  /** p asks for everything q asks for. */
  predicate AtLeast(p: DataPolicy, q: DataPolicy)
  {
    (q.requireZdr ==> p.requireZdr) && (q.requireNoCollection ==> p.requireNoCollection)
  }

  /** `resolveDataPolicy`: headers can add to the deployment's floor and never relax it. */
  method ResolveDataPolicy(config: RoutingConfig, headers: map<string, string>, isTruthy: string -> bool)
    returns (p: DataPolicy)
    ensures AtLeast(p, Floor(config))
    ensures p.requireZdr <==>
              || config.defaultRequireZdr
              || ("x-majordomo-zdr" in headers && isTruthy(headers["x-majordomo-zdr"]))
    ensures p.requireNoCollection <==>
              || Lower(config.defaultDataCollection) == "deny"
              || ("x-majordomo-data-collection" in headers && Lower(headers["x-majordomo-data-collection"]) == "deny")
  {
    hide Lower, IsDeny;
    IsDenyIff(config.defaultDataCollection);
    if COLLECTION_HEADER in headers { IsDenyIff(headers[COLLECTION_HEADER]); }
    p := DataPolicy(config.defaultRequireZdr, IsDeny(config.defaultDataCollection));
    if ZDR_HEADER in headers && isTruthy(headers[ZDR_HEADER]) {
      p := p.(requireZdr := true);
    }
    if COLLECTION_HEADER in headers && IsDeny(headers[COLLECTION_HEADER]) {
      p := p.(requireNoCollection := true);
    }
  }

  predicate Complies(policy: DataPolicy, ep: Endpoint)
  {
    && (policy.requireZdr ==> ep.zdr)
    && (policy.requireNoCollection ==> IsDeny(ep.dataCollection))
  }

  // ---- Health ----

  datatype EndpointHealth = EndpointHealth(provider: string, model: string, sampleCount: int, errorRate: real)

  datatype HealthSnapshot = HealthSnapshot(byKey: map<string, EndpointHealth>, fetchedAt: int)

  const HEALTH_CACHE_TTL := 30000  // milliseconds
  const HEALTH_MIN_SAMPLES := 20
  const HEALTH_MAX_ERROR_RATE := 0.2

  function HealthKey(provider: string, model: string): string
  {
    NulJoin(provider, model)
  }

  predicate Healthy(byKey: map<string, EndpointHealth>, ep: Endpoint)
  {
    var key := HealthKey(ep.provider, ep.model);
    key in byKey && byKey[key].sampleCount >= HEALTH_MIN_SAMPLES ==> byKey[key].errorRate <= HEALTH_MAX_ERROR_RATE
  }

  function ByKey(rows: seq<EndpointHealth>): map<string, EndpointHealth>
  {
    if rows == [] then map[]
    else
      var last := rows[|rows| - 1];
      ByKey(rows[..|rows| - 1])[HealthKey(last.provider, last.model) := last]
  }

  /** Row i is the endpoint's own and no later row is. */
  ghost predicate LastOwnRow(rows: seq<EndpointHealth>, ep: Endpoint, i: int)
  {
    && 0 <= i < |rows| && OwnRow(rows[i], ep)
    && forall j | i < j < |rows| :: !OwnRow(rows[j], ep)
  }

  predicate OwnRow(row: EndpointHealth, ep: Endpoint)
  {
    row.provider == ep.provider && row.model == ep.model
  }

  /** With provider names free of NUL, the snapshot holds for each endpoint exactly its own row,
      the last one if there are several. */
  lemma {:induction false} SnapshotHoldsOwnRow(rows: seq<EndpointHealth>, ep: Endpoint)
    requires '\0' !in ep.provider && forall i | 0 <= i < |rows| :: '\0' !in rows[i].provider
    ensures var key := HealthKey(ep.provider, ep.model);
            && (key in ByKey(rows) <==> exists i :: LastOwnRow(rows, ep, i))
            && (forall i | LastOwnRow(rows, ep, i) :: ByKey(rows)[key] == rows[i])
  {
    if rows != [] {
      var n := |rows| - 1;
      var before, key := rows[..n], HealthKey(ep.provider, ep.model);
      SnapshotHoldsOwnRow(before, ep);
      if HealthKey(rows[n].provider, rows[n].model) == HealthKey(ep.provider, ep.model) {
        NulJoinInjective(rows[n].provider, rows[n].model, ep.provider, ep.model);
      }
      if key in ByKey(rows) && !OwnRow(rows[n], ep) {
        var i :| LastOwnRow(before, ep, i);
        assert LastOwnRow(rows, ep, i);
      } else if OwnRow(rows[n], ep) {
        assert LastOwnRow(rows, ep, n);
      }
      forall i ensures LastOwnRow(rows, ep, i) <==> if OwnRow(rows[n], ep) then i == n else LastOwnRow(before, ep, i) {
      }
    }
  }

  /** The gate closes exactly on an endpoint whose own recent row shows at least twenty samples and
      more than one failure in five; the store reports one row per provider and model. */
  lemma {:induction false} GatedOutIff(rows: seq<EndpointHealth>, ep: Endpoint)
    requires '\0' !in ep.provider && forall i | 0 <= i < |rows| :: '\0' !in rows[i].provider
    requires forall i, j | 0 <= i < j < |rows| :: rows[i].provider != rows[j].provider || rows[i].model != rows[j].model
    ensures !Healthy(ByKey(rows), ep) <==>
              exists i :: 0 <= i < |rows| && OwnRow(rows[i], ep) && rows[i].sampleCount >= 20 && rows[i].errorRate > 0.2
  {
    hide ByKey, NulJoin;
    SnapshotHoldsOwnRow(rows, ep);
    forall i | 0 <= i < |rows| && OwnRow(rows[i], ep) ensures LastOwnRow(rows, ep, i) {}
  }

  // ---- Filtering ----

  /** The elements that pass, in order. */
  function Keep<T>(s: seq<T>, passes: T -> bool): (kept: seq<T>)
  {
    if s == [] then []
    else Keep(s[..|s| - 1], passes) + if passes(s[|s| - 1]) then [s[|s| - 1]] else []
  }

  lemma {:induction false} KeepIsFilter<T>(s: seq<T>, passes: T -> bool)
    ensures forall x :: x in Keep(s, passes) <==> x in s && passes(x)
    ensures |Keep(s, passes)| <= |s|
    ensures forall x :: multiset(Keep(s, passes))[x] == if passes(x) then multiset(s)[x] else 0
  {
    if s != [] {
      var n := |s| - 1;
      KeepIsFilter(s[..n], passes);
      assert s == s[..n] + [s[n]];
    }
  }

  /** What passes keeps its order. */
  lemma {:induction false} KeepConcat<T>(s: seq<T>, t: seq<T>, passes: T -> bool)
    ensures Keep(s + t, passes) == Keep(s, passes) + Keep(t, passes)
  {
    if t == [] {
      assert s + t == s;
    } else {
      var n := |t| - 1;
      KeepConcat(s, t[..n], passes);
      assert (s + t)[..|s + t| - 1] == s + t[..n];
    }
  }

  /** A stricter test keeps no more of anything. */
  lemma {:induction false} KeepShrinks<T>(s: seq<T>, strict: T -> bool, lax: T -> bool)
    requires forall x | x in s :: strict(x) ==> lax(x)
    ensures multiset(Keep(s, strict)) <= multiset(Keep(s, lax))
    ensures |Keep(s, strict)| <= |Keep(s, lax)|
  {
    if s != [] {
      var n := |s| - 1;
      assert s == s[..n] + [s[n]];
      KeepShrinks(s[..n], strict, lax);
    }
  }

  type Keys = string -> Option<bool>  // whether a provider key is stored; None when the lookup fails

  predicate HasCredential(keys: Keys, ep: Endpoint)
  {
    keys(ep.provider) == Some(true)
  }

  function Credentialed(candidates: seq<Endpoint>, keys: Keys): seq<Endpoint>
  {
    Keep(candidates, ep => HasCredential(keys, ep))
  }

  function Eligible(candidates: seq<Endpoint>, keys: Keys, policy: DataPolicy): seq<Endpoint>
  {
    Keep(Credentialed(candidates, keys), ep => Complies(policy, ep))
  }

  function HealthyOnes(candidates: seq<Endpoint>, keys: Keys, policy: DataPolicy,
                       byKey: map<string, EndpointHealth>): seq<Endpoint>
  {
    Keep(Eligible(candidates, keys, policy), ep => Healthy(byKey, ep))
  }

  /** The endpoints drawn from: the healthy ones, or all eligible ones when none is healthy. */
  function Pool(candidates: seq<Endpoint>, keys: Keys, policy: DataPolicy,
                byKey: map<string, EndpointHealth>): seq<Endpoint>
  {
    var healthy := HealthyOnes(candidates, keys, policy, byKey);
    if healthy == [] then Eligible(candidates, keys, policy) else healthy
  }

  lemma {:induction false} FilterMembers(candidates: seq<Endpoint>, keys: Keys, policy: DataPolicy,
                                         byKey: map<string, EndpointHealth>)
    ensures forall e :: e in Credentialed(candidates, keys) <==> e in candidates && HasCredential(keys, e)
    ensures forall e :: e in Eligible(candidates, keys, policy)
                        <==> e in Credentialed(candidates, keys) && Complies(policy, e)
    ensures forall e :: e in HealthyOnes(candidates, keys, policy, byKey)
                        <==> e in Eligible(candidates, keys, policy) && Healthy(byKey, e)
  {
    hide Keep, HasCredential, Complies, Healthy;
    KeepIsFilter(candidates, e => HasCredential(keys, e));
    KeepIsFilter(Credentialed(candidates, keys), e => Complies(policy, e));
    KeepIsFilter(Eligible(candidates, keys, policy), e => Healthy(byKey, e));
  }

  /** Whatever is drawn is a candidate, credentialed and compliant, and healthy unless nothing
      eligible is; and the pool runs dry only with the eligible set. */
  lemma {:induction false} PoolIsSound(candidates: seq<Endpoint>, keys: Keys, policy: DataPolicy,
                                       byKey: map<string, EndpointHealth>, ep: Endpoint)
    ensures ep in Pool(candidates, keys, policy, byKey) <==>
              && ep in candidates && HasCredential(keys, ep) && Complies(policy, ep)
              && (Healthy(byKey, ep)
                  || forall e | e in candidates && HasCredential(keys, e) && Complies(policy, e) :: !Healthy(byKey, e))
    ensures Pool(candidates, keys, policy, byKey) == [] <==> Eligible(candidates, keys, policy) == []
  {
    hide Credentialed, Eligible, HealthyOnes, HasCredential, Complies, Healthy;
    FilterMembers(candidates, keys, policy, byKey);
    var eligible, healthy := Eligible(candidates, keys, policy), HealthyOnes(candidates, keys, policy, byKey);
    if healthy != [] {
      assert healthy[0] in healthy;
    } else {
      forall e | e in eligible ensures !Healthy(byKey, e) { assert e !in healthy; }
    }
  }

  lemma {:induction false} EmptyFilters(candidates: seq<Endpoint>, keys: Keys, policy: DataPolicy)
    ensures Credentialed(candidates, keys) == [] <==> forall ep | ep in candidates :: !HasCredential(keys, ep)
    ensures Eligible(candidates, keys, policy) == [] <==>
              forall ep | ep in candidates && HasCredential(keys, ep) :: !Complies(policy, ep)
  {
    hide Credentialed, Eligible, HealthyOnes, HasCredential, Complies, Healthy;
    FilterMembers(candidates, keys, policy, map[]);
    var credentialed, eligible := Credentialed(candidates, keys), Eligible(candidates, keys, policy);
    if credentialed != [] { assert credentialed[0] in credentialed; }
    if eligible != [] { assert eligible[0] in eligible; }
    if credentialed == [] {
      forall ep | ep in candidates ensures !HasCredential(keys, ep) { assert ep !in credentialed; }
    }
    if eligible == [] {
      forall ep | ep in candidates && HasCredential(keys, ep) ensures !Complies(policy, ep) { assert ep !in eligible; }
    }
  }

  /** Tightening the policy only shrinks the eligible set. */
  lemma {:induction false} TighterPolicyShrinks(candidates: seq<Endpoint>, keys: Keys, tight: DataPolicy,
                                                lax: DataPolicy)
    requires AtLeast(tight, lax)
    ensures multiset(Eligible(candidates, keys, tight)) <= multiset(Eligible(candidates, keys, lax))
    ensures |Eligible(candidates, keys, tight)| <= |Eligible(candidates, keys, lax)|
  {
    KeepShrinks(Credentialed(candidates, keys), e => Complies(tight, e), e => Complies(lax, e));
  }

  // ---- The decision ----

  /** The recorded rationale: a draw among the healthy, or a draw with nothing healthy. */
  datatype Reason = CostWeighted(pool: nat, eligible: nat) | AllUnhealthy(eligible: nat)

  datatype Decision = Decision(
    provider: string, baseUrl: string, model: string, reason: Reason, requestDefaults: map<string, Json>)

  datatype Outcome = NotRouted | NoUsableEndpoint | NoCompliantEndpoint | Routed(decision: Decision)

  function DecisionFor(ep: Endpoint, reason: Reason): Decision
  {
    Decision(ep.provider, ep.baseUrl, ep.model, reason, ep.requestDefaults)
  }

  /** The outcome a request must get, given the pool's sorted order and the drawn index. */
  ghost predicate RightOutcome(candidates: Option<seq<Endpoint>>, keys: Keys, policy: DataPolicy, pricer: Pricer,
                               byKey: map<string, EndpointHealth>, r: real, outcome: Outcome)
  {
    match outcome
    case NotRouted => candidates.None?
    case NoUsableEndpoint => candidates.Some? && forall ep | ep in candidates.value :: !HasCredential(keys, ep)
    case NoCompliantEndpoint =>
      && candidates.Some?
      && (exists ep :: ep in candidates.value && HasCredential(keys, ep))
      && forall ep | ep in candidates.value && HasCredential(keys, ep) :: !Complies(policy, ep)
    case Routed(d) =>
      && candidates.Some?
      && var pool := Pool(candidates.value, keys, policy, byKey);
         var eligible := Eligible(candidates.value, keys, policy);
         var reason := if forall ep | ep in eligible :: !Healthy(byKey, ep) then AllUnhealthy(|eligible|)
                       else CostWeighted(|pool|, |eligible|);
         exists sorted, i :: IsSortOf(pricer, sorted, pool) && Drawn(pricer, sorted, r, i)
                             && d == DecisionFor(sorted[i], reason)
  }

  /** The snapshot h a request sees and the one kept: the cached one while it is young, else a fresh
      one; on a store error the old one, or an empty one that is not kept. */
  ghost predicate Served(cached: Option<HealthSnapshot>, now: int, later: int, read: Option<seq<EndpointHealth>>,
                         h: HealthSnapshot, kept: Option<HealthSnapshot>)
  {
    if cached.Some? && now - cached.value.fetchedAt < 30000 then h == cached.value && kept == cached
    else if read.Some? then h == HealthSnapshot(ByKey(read.value), later) && kept == Some(h)
    else h == (if cached.Some? then cached.value else HealthSnapshot(map[], later)) && kept == cached
  }

  lemma {:induction false} UnroutedRight(candidates: Option<seq<Endpoint>>, keys: Keys, policy: DataPolicy,
                                         pricer: Pricer, r: real)
    ensures forall byKey ::
              && (candidates.None? ==> RightOutcome(candidates, keys, policy, pricer, byKey, r, NotRouted))
              && (candidates.Some? && Credentialed(candidates.value, keys) == [] ==>
                    RightOutcome(candidates, keys, policy, pricer, byKey, r, NoUsableEndpoint))
              && (candidates.Some? && Credentialed(candidates.value, keys) != []
                  && Eligible(candidates.value, keys, policy) == [] ==>
                    RightOutcome(candidates, keys, policy, pricer, byKey, r, NoCompliantEndpoint))
  {
    hide Credentialed, Eligible, HasCredential, Complies;
    if candidates.Some? { EmptyFilters(candidates.value, keys, policy); }
  }

  lemma {:induction false} RoutedRight(all: seq<Endpoint>, keys: Keys, policy: DataPolicy, pricer: Pricer,
                                       byKey: map<string, EndpointHealth>, r: real, sorted: seq<Endpoint>, i: int,
                                       d: Decision)
    requires var pool, eligible := Pool(all, keys, policy, byKey), Eligible(all, keys, policy);
             && IsSortOf(pricer, sorted, pool) && Drawn(pricer, sorted, r, i)
             && d == DecisionFor(sorted[i], if HealthyOnes(all, keys, policy, byKey) == [] then AllUnhealthy(|eligible|)
                                            else CostWeighted(|pool|, |eligible|))
    ensures RightOutcome(Some(all), keys, policy, pricer, byKey, r, Routed(d))
  {
    hide Credentialed, Eligible, HealthyOnes, HasCredential, Complies, Healthy, PrefixWeight, Target;
    FilterMembers(all, keys, policy, byKey);
    var eligible, healthy := Eligible(all, keys, policy), HealthyOnes(all, keys, policy, byKey);
    if healthy == [] {
      forall ep | ep in eligible ensures !Healthy(byKey, ep) { assert ep !in healthy; }
    } else {
      assert healthy[0] in healthy;
    }
  }

  class ProviderRouter {
    var snapshot: Option<HealthSnapshot>

    constructor ()
      ensures snapshot == None
    {
      snapshot := None;
    }

    /** `getHealth`. */
    method GetHealth(now: int, later: int, read: Option<seq<EndpointHealth>>) returns (h: HealthSnapshot)
      modifies this
      ensures Served(old(snapshot), now, later, read, h, snapshot)
    {
      if snapshot.Some? && now - snapshot.value.fetchedAt < HEALTH_CACHE_TTL {
        return snapshot.value;
      }
      if read.None? {
        if snapshot.Some? {
          return snapshot.value;
        }
        return HealthSnapshot(map[], later);
      }
      var byKey, rows := map[], read.value;
      for i := 0 to |rows|
        invariant byKey == ByKey(rows[..i])
        invariant unchanged(this)
      {
        assert rows[..i + 1][..i] == rows[..i];
        byKey := byKey[HealthKey(rows[i].provider, rows[i].model) := rows[i]];
      }
      assert rows[..|rows|] == rows;
      h := HealthSnapshot(byKey, later);
      snapshot := Some(h);
    }

    /** `Route`. */
    method Route(candidates: Option<seq<Endpoint>>, policy: DataPolicy, keys: Keys, pricer: Pricer,
                 now: int, later: int, read: Option<seq<EndpointHealth>>, r: real)
      returns (outcome: Outcome, ghost health: HealthSnapshot)
      requires 0.0 <= r < 1.0
      modifies this
      ensures RightOutcome(candidates, keys, policy, pricer, health.byKey, r, outcome)
      ensures if candidates.None? then unchanged(this) else Served(old(snapshot), now, later, read, health, snapshot)
    {
      hide Served, Keep, HasCredential, Complies, Healthy, RightOutcome, IsSortOf, Drawn;
      health := HealthSnapshot(map[], later);
      UnroutedRight(candidates, keys, policy, pricer, r);
      if candidates.None? {
        return NotRouted, health;
      }
      var h := GetHealth(now, later, read);
      health := h;
      var all := candidates.value;
      var credentialed := Filter(all, ep => HasCredential(keys, ep));
      if |credentialed| == 0 {
        return NoUsableEndpoint, health;
      }
      var eligible := Filter(credentialed, ep => Complies(policy, ep));
      if |eligible| == 0 {
        return NoCompliantEndpoint, health;
      }
      var healthy := Filter(eligible, ep => Healthy(h.byKey, ep));
      var pool, degraded := healthy, false;
      if |pool| == 0 {
        pool, degraded := eligible, true;
      }
      var ep;
      ghost var sorted, i;
      ep, sorted, i := SelectByCost(pool, pricer, r);
      var reason := if degraded then AllUnhealthy(|eligible|) else CostWeighted(|pool|, |eligible|);
      outcome := Routed(DecisionFor(ep, reason));
      RoutedRight(all, keys, policy, pricer, h.byKey, r, sorted, i, outcome.decision);
    }
  }

  /** One of `Route`'s filtering loops. */
  method Filter<T>(s: seq<T>, passes: T -> bool) returns (kept: seq<T>)
    ensures kept == Keep(s, passes)
  {
    kept := [];
    for i := 0 to |s|
      invariant kept == Keep(s[..i], passes)
    {
      assert s[..i + 1][..i] == s[..i];
      if passes(s[i]) {
        kept := kept + [s[i]];
      }
    }
    assert s[..|s|] == s;
  }

  // ---- What the outcomes mean ----

  predicate Stored(keys: Keys, ep: Endpoint)
  {
    keys(ep.provider).Some? && keys(ep.provider).value
  }

  /** The endpoint misses a guarantee that the policy asks for. */
  ghost predicate Lacks(policy: DataPolicy, ep: Endpoint)
  {
    || (policy.requireZdr && !ep.zdr)
    || (policy.requireNoCollection && Lower(ep.dataCollection) != "deny")
  }

  lemma {:induction false} FiltersMean(keys: Keys, policy: DataPolicy, ep: Endpoint)
    ensures HasCredential(keys, ep) <==> Stored(keys, ep)
    ensures Complies(policy, ep) <==> !Lacks(policy, ep)
  {
    hide Lower, IsDeny;
    IsDenyIff(ep.dataCollection);
  }

  /** The outcome by what the candidates offer: not in the catalog; nobody with a stored key; nobody
      with a key who gives every guarantee asked for; or some such endpoint. */
  lemma {:induction false} OutcomeIff(candidates: Option<seq<Endpoint>>, keys: Keys, policy: DataPolicy,
                                      pricer: Pricer, byKey: map<string, EndpointHealth>, r: real, outcome: Outcome)
    requires RightOutcome(candidates, keys, policy, pricer, byKey, r, outcome)
    ensures outcome.NotRouted? <==> candidates.None?
    ensures outcome.NoUsableEndpoint? <==>
              candidates.Some? && forall ep | ep in candidates.value :: !Stored(keys, ep)
    ensures outcome.NoCompliantEndpoint? <==>
              && candidates.Some? && (exists ep :: ep in candidates.value && Stored(keys, ep))
              && forall ep | ep in candidates.value && Stored(keys, ep) :: Lacks(policy, ep)
    ensures outcome.Routed? <==>
              candidates.Some? && exists ep :: ep in candidates.value && Stored(keys, ep) && !Lacks(policy, ep)
  {
    forall ep { FiltersMean(keys, policy, ep); }
    if outcome.Routed? {
      var ep := RoutedIsSound(candidates, keys, policy, pricer, byKey, r, outcome.decision, RoutingConfig(false, ""));
    }
    hide Stored, Lacks, HasCredential, Complies, Pool, Eligible;
  }

  /** Every routed decision names a candidate that is credentialed, meets the deployment's floor,
      and is healthy unless nothing eligible is. */
  lemma {:induction false} RoutedIsSound(candidates: Option<seq<Endpoint>>, keys: Keys, policy: DataPolicy,
                                         pricer: Pricer, byKey: map<string, EndpointHealth>, r: real, d: Decision,
                                         config: RoutingConfig)
    returns (ep: Endpoint)
    requires RightOutcome(candidates, keys, policy, pricer, byKey, r, Routed(d))
    requires AtLeast(policy, Floor(config))
    ensures candidates.Some? && ep in candidates.value && HasCredential(keys, ep)
    ensures d == DecisionFor(ep, d.reason)
    ensures d.provider == ep.provider && d.baseUrl == ep.baseUrl && d.model == ep.model
    ensures d.requestDefaults == ep.requestDefaults
    ensures Complies(policy, ep) && Complies(Floor(config), ep)
    ensures keys(ep.provider) == Some(true)
    ensures policy.requireZdr || config.defaultRequireZdr ==> ep.zdr
    ensures policy.requireNoCollection || Lower(config.defaultDataCollection) == "deny" ==>
              Lower(ep.dataCollection) == "deny"
    ensures Healthy(byKey, ep) ||
            (d.reason.AllUnhealthy?
             && forall e | e in candidates.value && HasCredential(keys, e) && Complies(policy, e) :: !Healthy(byKey, e))
  {
    hide Credentialed, Eligible, HealthyOnes, Pool, HasCredential, Healthy, PrefixWeight, Target;
    var pool := Pool(candidates.value, keys, policy, byKey);
    var eligible := Eligible(candidates.value, keys, policy);
    var reason := if forall e | e in eligible :: !Healthy(byKey, e) then AllUnhealthy(|eligible|)
                  else CostWeighted(|pool|, |eligible|);
    var sorted, i :| IsSortOf(pricer, sorted, pool) && Drawn(pricer, sorted, r, i)
                     && d == DecisionFor(sorted[i], reason);
    ep := sorted[i];
    assert ep in multiset(sorted);
    assert ep in pool;
    PoolIsSound(candidates.value, keys, policy, byKey, ep);
    FilterMembers(candidates.value, keys, policy, byKey);
    IsDenyIff(config.defaultDataCollection);
    FiltersMean(keys, policy, ep);
    hide Lower, IsDeny;
  }

  // ---- "Fell back to cheapest" ----

  /** The decision names a cheapest endpoint of the pool. */
  ghost predicate PicksCheapest(pricer: Pricer, pool: seq<Endpoint>, d: Decision)
  {
    exists ep :: ep in pool && Cheapest(pricer, ep, pool) && d == DecisionFor(ep, d.reason)
  }

  lemma {:induction false} DegradedPool(all: seq<Endpoint>, keys: Keys, policy: DataPolicy,
                                        byKey: map<string, EndpointHealth>)
    requires HealthyOnes(all, keys, policy, byKey) == []
    ensures Pool(all, keys, policy, byKey) == Eligible(all, keys, policy)
    ensures forall ep | ep in Eligible(all, keys, policy) :: !Healthy(byKey, ep)
  {
    hide Credentialed, Eligible, HealthyOnes, HasCredential, Complies, Healthy;
    FilterMembers(all, keys, policy, byKey);
    forall ep | ep in Eligible(all, keys, policy) ensures !Healthy(byKey, ep) {
      assert ep !in HealthyOnes(all, keys, policy, byKey);
    }
  }

  lemma {:induction false} RoutedFrom(all: seq<Endpoint>, keys: Keys, policy: DataPolicy, pricer: Pricer,
                                      byKey: map<string, EndpointHealth>, r: real, d: Decision) returns (ep: Endpoint)
    requires RightOutcome(Some(all), keys, policy, pricer, byKey, r, Routed(d))
    ensures ep in Pool(all, keys, policy, byKey) && d == DecisionFor(ep, d.reason)
  {
    hide Eligible, Pool, Healthy, PrefixWeight, Target;
    var pool, eligible := Pool(all, keys, policy, byKey), Eligible(all, keys, policy);
    var reason := if forall e | e in eligible :: !Healthy(byKey, e) then AllUnhealthy(|eligible|)
                  else CostWeighted(|pool|, |eligible|);
    var sorted, i :| IsSortOf(pricer, sorted, pool) && Drawn(pricer, sorted, r, i)
                     && d == DecisionFor(sorted[i], reason);
    ep := sorted[i];
    assert ep in multiset(sorted);
  }

  /** With nothing healthy, the recorded "fell back to cheapest" is true of every draw exactly when
      all eligible endpoints cost the same. */
  lemma {:induction false} DegradedPicksCheapestIff(all: seq<Endpoint>, keys: Keys, policy: DataPolicy,
                                                    pricer: Pricer, byKey: map<string, EndpointHealth>)
    requires Eligible(all, keys, policy) != [] && HealthyOnes(all, keys, policy, byKey) == []
    ensures (forall r, d | 0.0 <= r < 1.0 && RightOutcome(Some(all), keys, policy, pricer, byKey, r, Routed(d)) ::
               PicksCheapest(pricer, Eligible(all, keys, policy), d))
            <==> SamePrice(pricer, Eligible(all, keys, policy))
  {
    hide RightOutcome, Eligible, HealthyOnes, Pool, IsSortOf, Drawn, InsertionSort;
    var eligible := Eligible(all, keys, policy);
    DegradedPool(all, keys, policy, byKey);
    if SamePrice(pricer, eligible) {
      forall r, d | 0.0 <= r < 1.0 && RightOutcome(Some(all), keys, policy, pricer, byKey, r, Routed(d))
        ensures PicksCheapest(pricer, eligible, d)
      {
        var ep := RoutedFrom(all, keys, policy, pricer, byKey, r, d);
      }
    } else {
      var r, d := DearestDrawn(all, keys, policy, pricer, byKey);
    }
  }

  /** Some draw picks an endpoint at the highest price. */
  lemma {:induction false} DearestDrawn(all: seq<Endpoint>, keys: Keys, policy: DataPolicy, pricer: Pricer,
                                        byKey: map<string, EndpointHealth>) returns (r: real, d: Decision)
    requires Eligible(all, keys, policy) != [] && HealthyOnes(all, keys, policy, byKey) == []
    ensures 0.0 <= r < 1.0 && RightOutcome(Some(all), keys, policy, pricer, byKey, r, Routed(d))
    ensures d.reason.AllUnhealthy?
    ensures PicksCheapest(pricer, Eligible(all, keys, policy), d) ==> SamePrice(pricer, Eligible(all, keys, policy))
  {
    hide RightOutcome, Eligible, HealthyOnes, Pool, Drawn, InsertionSort, Sorted;
    var eligible := Eligible(all, keys, policy);
    DegradedPool(all, keys, policy, byKey);
    var s := InsertionSort(pricer, eligible);
    InsertionSortSorts(pricer, eligible);
    SameMembers(s, eligible);
    var last := |s| - 1;
    r := DrawOf(pricer, s, last);
    d := DecisionFor(s[last], AllUnhealthy(|eligible|));
    RoutedRight(all, keys, policy, pricer, byKey, r, s, last, d);
    DearestDiffers(pricer, s);
    if PicksCheapest(pricer, eligible, d) {
      var ep :| ep in eligible && Cheapest(pricer, ep, eligible) && d == DecisionFor(ep, d.reason);
      assert BlendedPrice(pricer, ep) == BlendedPrice(pricer, s[last]);
      assert Cheapest(pricer, s[last], s);
    }
  }

  lemma {:induction false} SameMembers<T>(s: seq<T>, t: seq<T>)
    requires multiset(s) == multiset(t)
    ensures |s| == |t| && forall x :: x in s <==> x in t
  {
    assert |multiset(s)| == |multiset(t)|;
    forall x ensures x in s <==> x in t { assert x in multiset(s) <==> x in multiset(t); }
  }

  /** Two endpoints at prices 1 and 2, with stored keys for both. */
  const CHEAP := Endpoint("a", "", "m", "", false, "", map[])
  const DEAR := Endpoint("b", "", "m", "", false, "", map[])

  function HalfEach(price: real): Option<ModelPricing>
  {
    Some(ModelPricing(price / 2.0, price / 2.0, 0.0))
  }

  function TwoPrices(provider: string, model: string): Option<ModelPricing>
  {
    if provider == "a" then HalfEach(1.0) else HalfEach(2.0)
  }

  function AllKeys(provider: string): Option<bool>
  {
    Some(true)
  }

  lemma {:induction false} DearDrawn()
    ensures IsSortOf(TwoPrices, [CHEAP, DEAR], [CHEAP, DEAR])
    ensures Drawn(TwoPrices, [CHEAP, DEAR], 0.8, 1)
    ensures BlendedPrice(TwoPrices, CHEAP) == 1.0 && BlendedPrice(TwoPrices, DEAR) == 2.0
  {
    var s := [CHEAP, DEAR];
    assert s[0] == CHEAP && s[1] == DEAR;
    assert PrefixWeight(TwoPrices, s, 0) == 0.0;
    assert PrefixWeight(TwoPrices, s, 1) == 1.0;
    assert PrefixWeight(TwoPrices, s, 2) == 1.5;
    TargetIs(TwoPrices, s, 0.8);
  }

  /** With both endpoints unhealthy the draw 0.8 routes to the dearer one, and the recorded reason
      is the fallback. */
  lemma {:induction false} DegradedMayPickDearer(policy: DataPolicy, byKey: map<string, EndpointHealth>)
    requires !policy.requireZdr && !policy.requireNoCollection
    requires !Healthy(byKey, CHEAP) && !Healthy(byKey, DEAR)
    ensures var d := DecisionFor(DEAR, AllUnhealthy(2));
            && RightOutcome(Some([CHEAP, DEAR]), AllKeys, policy, TwoPrices, byKey, 0.8, Routed(d))
            && Eligible([CHEAP, DEAR], AllKeys, policy) == [CHEAP, DEAR]
            && BlendedPrice(TwoPrices, CHEAP) < BlendedPrice(TwoPrices, DEAR)
  {
    var all := [CHEAP, DEAR];
    assert forall e | e in all :: e == CHEAP || e == DEAR;
    KeepAll(all, ep => HasCredential(AllKeys, ep));
    KeepAll(all, ep => Complies(policy, ep));
    KeepNone(all, ep => Healthy(byKey, ep));
    DearDrawn();
    hide RightOutcome, IsSortOf, Drawn, Keep, Healthy, TwoPrices;
    assert Eligible(all, AllKeys, policy) == all && HealthyOnes(all, AllKeys, policy, byKey) == [];
    RoutedRight(all, AllKeys, policy, TwoPrices, byKey, 0.8, all, 1, DecisionFor(DEAR, AllUnhealthy(2)));
  }

  lemma {:induction false} KeepAll<T>(s: seq<T>, passes: T -> bool)
    requires forall x | x in s :: passes(x)
    ensures Keep(s, passes) == s
  {
    if s != [] {
      var n := |s| - 1;
      assert s == s[..n] + [s[n]];
      KeepAll(s[..n], passes);
    }
  }

  lemma {:induction false} KeepNone<T>(s: seq<T>, passes: T -> bool)
    requires forall x | x in s :: !passes(x)
    ensures Keep(s, passes) == []
  {
    if s != [] { KeepNone(s[..|s| - 1], passes); }
  }

  /** The four outcomes exclude each other. */
  lemma {:induction false} OutcomesExclude(candidates: Option<seq<Endpoint>>, keys: Keys, policy: DataPolicy,
                                           pricer: Pricer,
                                           byKey: map<string, EndpointHealth>, r: real, a: Outcome, b: Outcome)
    requires RightOutcome(candidates, keys, policy, pricer, byKey, r, a)
    requires RightOutcome(candidates, keys, policy, pricer, byKey, r, b)
    ensures a.NotRouted? == b.NotRouted? && a.NoUsableEndpoint? == b.NoUsableEndpoint?
    ensures a.NoCompliantEndpoint? == b.NoCompliantEndpoint? && a.Routed? == b.Routed?
  {
    if candidates.Some? && (a.Routed? || b.Routed?) {
      var d := if a.Routed? then a.decision else b.decision;
      var ep := RoutedIsSound(candidates, keys, policy, pricer, byKey, r, d, RoutingConfig(false, ""));
    }
  }

  /** After a reload that read the catalog, no routed endpoint falls back to the sentinel price. */
  lemma {:induction false} SentinelUnused(s: PricingService.State, reload: PricingService.Reload,
                                          aliases: map<string, string>, slug: string, ep: Endpoint)
    requires PricingService.ReadsCatalog(reload)
    requires var next := PricingService.Step(s, reload); slug in next.catalog && ep in next.catalog[slug]
    ensures var next := PricingService.Step(s, reload);
            var pricer := (p, m) => PricingService.Resolve(next.prices, aliases, p, m);
            && pricer(ep.provider, ep.model).Some?
            && BlendedPrice(pricer, ep)
               == pricer(ep.provider, ep.model).value.input + pricer(ep.provider, ep.model).value.output
  {
    hide PricingService.Resolve, PricingService.Step;
    var next := PricingService.Step(s, reload);
    PricingService.RoutesArePriced(s, reload, aliases);
    var i :| 0 <= i < |next.catalog[slug]| && next.catalog[slug][i] == ep;
  }

  // ---- The request rewrite ----

  /** A request body as decoded: a JSON object, a JSON null, or anything else. */
  datatype Body = Object(fields: map<string, Json>) | JsonNull | NotAnObject

  datatype Rewrite = Rewritten(fields: map<string, Json>, applied: seq<string>) | BadBody

  const REASONING_FIELDS: set<string> := {"reasoning_effort", "reasoning", "thinking"}

  predicate SetsReasoning(fields: map<string, Json>)
  {
    fields.Keys * REASONING_FIELDS != {}
  }

  /** The defaults a body still lacks and does not withhold. */
  function Missing(fields: map<string, Json>, defaults: map<string, Json>): set<string>
  {
    set f | f in defaults && f !in fields && !(f in REASONING_FIELDS && SetsReasoning(fields))
  }

  function WithDefaults(fields: map<string, Json>, defaults: map<string, Json>): map<string, Json>
  {
    fields + map f | f in Missing(fields, defaults) :: defaults[f]
  }

  /** `RewriteRoutedRequest`, for every order in which the maps may be ranged over. */
  method RewriteRoutedRequest(body: Body, model: Json, defaults: map<string, Json>) returns (r: Rewrite)
    ensures r.BadBody? <==> !body.Object?
    ensures body.Object? ==>
              && r.fields == WithDefaults(body.fields["model" := model], defaults)
              && StrictlySorted(r.applied)
              && forall f :: f in r.applied <==> f in Missing(body.fields["model" := model], defaults)
  {
    if !body.Object? {
      return BadBody;
    }
    hide SetsReasoning, WithDefaults, StrictlySorted, SortStrings;
    var fields := body.fields[ROUTED_MODEL_FIELD := model];
    ghost var base := fields;
    var callerSetReasoning := AnyReasoning(fields);
    var applied: seq<string> := [];
    var rest := defaults.Keys;
    while rest != {}
      invariant rest <= defaults.Keys && NoRepeats(applied)
      invariant forall f :: f in applied <==> f in Missing(base, defaults) && f !in rest
      invariant forall f :: f in fields <==> f in base || f in applied
      invariant forall f | f in fields :: fields[f] == if f in base then base[f] else defaults[f]
      decreases rest
    {
      var field :| field in rest;
      rest := rest - {field};
      if field in fields { continue; }
      if field in REASONING_FIELDS && callerSetReasoning { continue; }
      fields := fields[field := defaults[field]];
      applied := applied + [field];
    }
    SortStringsSorts(applied);
    r := Rewritten(fields, SortStrings(applied));
    DefaultsApplied(base, defaults, fields);
  }

  lemma {:induction false} DefaultsApplied(base: map<string, Json>, defaults: map<string, Json>,
                                           fields: map<string, Json>)
    requires forall f :: f in fields <==> f in base || f in Missing(base, defaults)
    requires forall f | f in fields && f !in base :: f in defaults
    requires forall f | f in fields :: fields[f] == if f in base then base[f] else defaults[f]
    ensures fields == WithDefaults(base, defaults)
  {
    hide SetsReasoning;
  }

  method AnyReasoning(fields: map<string, Json>) returns (any: bool)
    ensures any == SetsReasoning(fields)
  {
    any := false;
    var rest := REASONING_FIELDS;
    while rest != {}
      invariant rest <= REASONING_FIELDS && !any
      invariant fields.Keys * (REASONING_FIELDS - rest) == {}
      decreases rest
    {
      var field :| field in rest;
      rest := rest - {field};
      if field in fields {
        assert field in fields.Keys * REASONING_FIELDS;
        return true;
      }
    }
  }

  ghost predicate IsReasoning(f: string)
  {
    f == "reasoning_effort" || f == "reasoning" || f == "thinking"
  }

  /** A default is added exactly when the caller's body does not carry the field, it is not the model,
      and it is not a reasoning field of a body that carries any; it is added as it stands. */
  lemma {:induction false} DefaultAddedIff(fields: map<string, Json>, model: Json, defaults: map<string, Json>,
                                           f: string)
    ensures var base := fields["model" := model];
            && (f in Missing(base, defaults) <==>
                  && f in defaults && f !in fields && f != "model"
                  && !(IsReasoning(f) && exists g :: IsReasoning(g) && g in fields))
            && (f in WithDefaults(base, defaults) <==> f in base || f in Missing(base, defaults))
            && (f in Missing(base, defaults) ==> WithDefaults(base, defaults)[f] == defaults[f])
  {
    var base := fields["model" := model];
    assert SetsReasoning(base) <==> exists g :: IsReasoning(g) && g in fields by {
      if g :| g in base.Keys * REASONING_FIELDS { assert IsReasoning(g) && g in fields; }
      if g :| IsReasoning(g) && g in fields { assert g in base.Keys * REASONING_FIELDS; }
    }
    hide SetsReasoning;
  }

  /** The caller's fields survive, the model is replaced, a caller reasoning field keeps every
      reasoning default out, and a second rewrite changes and adds nothing. */
  lemma {:induction false} RewriteKeepsCallerAndSettles(fields: map<string, Json>, model: Json,
                                                        defaults: map<string, Json>)
    ensures var base := fields["model" := model];
            var once := WithDefaults(base, defaults);
            && (forall f | f in fields && f != "model" :: f in once && once[f] == fields[f])
            && once["model"] == model
            && (forall f | f in once && f !in base :: f in defaults && once[f] == defaults[f])
            && (SetsReasoning(fields) ==> once.Keys * REASONING_FIELDS == fields.Keys * REASONING_FIELDS)
            && (!SetsReasoning(fields) ==> defaults.Keys <= once.Keys)
            && once["model" := model] == once
            && Missing(once, defaults) == {}
            && WithDefaults(once, defaults) == once
  {
    var base := fields["model" := model];
    var once := WithDefaults(base, defaults);
    assert base.Keys * REASONING_FIELDS == fields.Keys * REASONING_FIELDS;
    if SetsReasoning(base) {
      var g :| g in base.Keys * REASONING_FIELDS;
      assert g in once.Keys * REASONING_FIELDS;
    }
    assert forall f | f in defaults && f !in once :: f !in Missing(base, defaults);
  }
}
